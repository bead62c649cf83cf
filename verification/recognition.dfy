/**
 * The speech-recognition `onresult` handler: each event carries the
 * recognizer's result list and the index of the first result that changed.
 * Final transcripts are appended to a buffer that lives across events, each
 * followed by one space; interim transcripts are gathered afresh per event.
 */
module Recognition {

  datatype SpeechResult = SpeechResult(transcript: string, isFinal: bool)

  datatype ResultEvent = ResultEvent(resultIndex: nat, results: seq<SpeechResult>)

  /** The results the handler visits: from `resultIndex` to the end (none if the index is past it). */
  function Visited(ev: ResultEvent): (visited: seq<SpeechResult>)
  {
    if ev.resultIndex <= |ev.results| then ev.results[ev.resultIndex..] else []
  }

  /** What a run of results adds to the finalized buffer: each final transcript and a space, in order. */
  function FinalText(rs: seq<SpeechResult>): (text: string)
  {
    if |rs| == 0 then ""
    else FinalText(rs[..|rs| - 1]) + (if rs[|rs| - 1].isFinal then rs[|rs| - 1].transcript + " " else "")
  }

  /** The interim transcripts of a run of results, concatenated in order. */
  function InterimText(rs: seq<SpeechResult>): (text: string)
  {
    if |rs| == 0 then ""
    else InterimText(rs[..|rs| - 1]) + (if rs[|rs| - 1].isFinal then "" else rs[|rs| - 1].transcript)
  }

  /**
   * The handler's loop over one event: the finalized buffer gains the event's
   * final text, and the interim text is built from empty out of this event only.
   */
  method ReduceEvent(finalBuf: string, ev: ResultEvent) returns (finalized: string, interim: string)
    ensures finalized == finalBuf + FinalText(Visited(ev))
    ensures interim == InterimText(Visited(ev))
  {
    finalized := finalBuf;
    interim := "";
    var start := if ev.resultIndex <= |ev.results| then ev.resultIndex else |ev.results|;
    var i := start;
    while i < |ev.results|
      invariant start <= i <= |ev.results|
      invariant finalized == finalBuf + FinalText(ev.results[start..i])
      invariant interim == InterimText(ev.results[start..i])
    {
      var r := ev.results[i];
      assert ev.results[start..i + 1][..i - start] == ev.results[start..i];
      if r.isFinal {
        finalized := finalized + (r.transcript + " ");
      } else {
        interim := interim + r.transcript;
      }
      i := i + 1;
    }
    assert ev.results[start..i] == Visited(ev);
  }

  /** Final text distributes over concatenation of result runs. */
  lemma {:induction false} FinalTextAppend(a: seq<SpeechResult>, b: seq<SpeechResult>)
    ensures FinalText(a + b) == FinalText(a) + FinalText(b)
    decreases |b|
  {
    if |b| > 0 {
      var ab := a + b;
      assert ab[..|ab| - 1] == a + b[..|b| - 1];
      assert ab[|ab| - 1] == b[|b| - 1];
      FinalTextAppend(a, b[..|b| - 1]);
    } else {
      assert a + b == a;
    }
  }

  /** Interim results never reach the finalized buffer. */
  lemma {:induction false} InterimResultsAddNoFinalText(rs: seq<SpeechResult>)
    requires forall i :: 0 <= i < |rs| ==> !rs[i].isFinal
    ensures FinalText(rs) == ""
  {
    if |rs| > 0 {
      InterimResultsAddNoFinalText(rs[..|rs| - 1]);
    }
  }
}
