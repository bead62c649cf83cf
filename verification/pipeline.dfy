/**
 * The submit handler reading a response of the transcription route: what the
 * user ends up seeing for each way the request can end on the server.
 */
module Pipeline {
  import opened Outcomes
  import TranscribeRoute
  import Uploader

  /**
   * How the handler reads a route response: `response.ok` is a 2xx status,
   * `data.text` the engine's text, `data.error?.message` the error message.
   * Only the status/body pairs the route produces are considered.
   */
  function Observe(resp: TranscribeRoute.Response): (o: Uploader.FetchOutcome)
    requires resp.status == 200 <==> resp.body.Transcription?
  {
    match resp.body
    case Transcription(result) => Uploader.OkJson(result.text)
    case ErrorBody(m) => Uploader.NotOk(Some(m))
  }

  /**
   * Submitting a selected file to the route shows the engine's text exactly when
   * the route answered 200, and otherwise a non-empty error, even when the
   * route's 500 carried an empty message.
   */
  lemma SubmitToRoute(s: Uploader.State, env: TranscribeRoute.Env)
    requires s.file.Some?
    ensures var resp := TranscribeRoute.Post(env).response;
      var r := Uploader.Submit(s, Observe(resp));
      && !r.isLoading
      && (resp.status == 200 ==> r.error == "" && r.transcription == resp.body.result.text)
      && (resp.status != 200 ==> r.error != "" && r.transcription == "")
  {
  }

  /** A 500 with an empty message, whichever step threw it, reaches the user as "Failed to transcribe audio". */
  lemma EmptyServerMessageFallsBack(s: Uploader.State, env: TranscribeRoute.Env)
    requires s.file.Some?
    requires !TranscribeRoute.LacksFile(env)
    requires TranscribeRoute.FirstThrow(TranscribeRoute.StepsInOrder(env)) == Some(ErrorValue(""))
    ensures Uploader.Submit(s, Observe(TranscribeRoute.Post(env).response)).error == "Failed to transcribe audio"
  {
    TranscribeRoute.EmptyErrorMessageGivesEmpty500(env);
  }
}
