/**
 * The upload component's handlers as transitions over its state: file
 * selection, start and stop of a recording, the recognition callbacks, and the
 * submit handler. Each awaited effect (microphone permission, `fetch`) is an
 * input outcome, and each handler is one atomic transition.
 */
module Uploader {
  import opened Outcomes
  import Recognition

  const AllowedTypes: seq<string> := ["audio/mpeg", "audio/wav", "audio/x-m4a", "audio/mp4"]
  const MaxFileBytes: nat := 25 * 1024 * 1024

  const TypeRejected := "Please upload an MP3, WAV, or M4A file"
  const SizeRejected := "File size must be less than 25MB"
  const MicrophoneUnavailable := "Microphone access denied or not available."
  const RecognitionErrorPrefix := "Speech recognition error: "
  const TranscribeFailed := "Failed to transcribe audio"

  datatype AudioFile = AudioFile(name: string, mimeType: string, size: nat)

  /**
   * The component's state. `hasStream` says whether the `mediaStream` state
   * variable holds a stream; `leaked` counts earlier streams whose handle was
   * overwritten while their tracks were still running, so nothing can stop
   * them any more. `finalBuf` is the finalized transcript the recognition
   * handler keeps in its closure; `hasRecognizer` says whether a recognizer
   * was created when the component mounted.
   */
  datatype State = State(
    file: Option<AudioFile>,
    error: string,
    transcription: string,
    isLoading: bool,
    isRecording: bool,
    hasStream: bool,
    leaked: nat,
    finalBuf: string,
    hasRecognizer: bool)

  function Mount(hasRecognizer: bool): (s: State)
  {
    State(None, "", "", false, false, false, 0, "", hasRecognizer)
  }

  /** Microphone streams whose tracks are still running: the held one and every leaked one. */
  function LiveStreams(s: State): (n: nat)
  {
    s.leaked + if s.hasStream then 1 else 0
  }

  predicate Acceptable(f: AudioFile)
  {
    f.mimeType in AllowedTypes && f.size <= MaxFileBytes
  }

  // ---------------------------------------------------------------------------
  // Recording

  /** How starting a recording settles: stream granted and recognizer started, permission refused, or `start()` throwing after the stream was granted. */
  datatype MicOutcome = Granted | Denied | RecognizerStartThrows

  function StartRecording(s: State, mic: MicOutcome): (r: State)
    ensures !s.hasRecognizer || s.isRecording ==> r == s
    ensures s.hasRecognizer && !s.isRecording ==>
      && r.finalBuf == s.finalBuf && r.file == s.file && r.isLoading == s.isLoading
      && (mic == Granted <==> r.isRecording)
      && (r.isRecording ==> r.hasStream && r.transcription == "" && r.error == s.error)
      && (!r.isRecording ==> r.error == "Microphone access denied or not available.")
    ensures s.hasRecognizer && !s.isRecording && mic == Granted ==>
      r == s.(hasStream := true, leaked := r.leaked, isRecording := true, transcription := "")
    ensures s.hasRecognizer && !s.isRecording && mic == Denied ==>
      r == s.(error := "Microphone access denied or not available.")
    ensures s.hasRecognizer && !s.isRecording && mic == RecognizerStartThrows ==>
      r == s.(hasStream := true, leaked := r.leaked, error := "Microphone access denied or not available.")
    ensures s.hasRecognizer && !s.isRecording && mic != Denied ==>
      r.leaked == (if s.hasStream then s.leaked + 1 else s.leaked) && LiveStreams(r) == LiveStreams(s) + 1
  {
    if !s.hasRecognizer || s.isRecording then s
    else
      // `setMediaStream(stream)` runs before `start()`, so a held stream is overwritten either way.
      var leaked := if s.hasStream then s.leaked + 1 else s.leaked;
      match mic
      case Granted => s.(hasStream := true, leaked := leaked, isRecording := true, transcription := "")
      case Denied => s.(error := MicrophoneUnavailable)
      case RecognizerStartThrows => s.(hasStream := true, leaked := leaked, error := MicrophoneUnavailable)
  }

  function StopRecording(s: State): (r: State)
    ensures !(s.hasRecognizer && s.isRecording) ==> r == s
    ensures s.hasRecognizer && s.isRecording ==>
      r == s.(isRecording := false, hasStream := false)
  {
    if s.hasRecognizer && s.isRecording then s.(isRecording := false, hasStream := false) else s
  }

  /** The recognizer's `onerror` callback; the stream handle is left as it is. */
  function RecognitionError(s: State, reason: string): (r: State)
    ensures r.error == "Speech recognition error: " + reason
    ensures !r.isRecording && r.hasStream == s.hasStream
    ensures r.(error := s.error, isRecording := s.isRecording) == s
  {
    s.(error := RecognitionErrorPrefix + reason, isRecording := false)
  }

  /** The recognizer's `onresult` callback. */
  function RecognitionResult(s: State, ev: Recognition.ResultEvent): (r: State)
    ensures s.finalBuf <= r.finalBuf
    ensures r.transcription == r.finalBuf + Recognition.InterimText(Recognition.Visited(ev))
    ensures r.(finalBuf := s.finalBuf, transcription := s.transcription) == s
  {
    var visited := Recognition.Visited(ev);
    var finalized := s.finalBuf + Recognition.FinalText(visited);
    s.(finalBuf := finalized, transcription := finalized + Recognition.InterimText(visited))
  }

  // ---------------------------------------------------------------------------
  // File selection

  function SelectFile(s: State, f: AudioFile): (r: State)
    ensures f.mimeType !in AllowedTypes ==> r == s.(error := "Please upload an MP3, WAV, or M4A file")
    ensures f.mimeType in AllowedTypes && f.size > MaxFileBytes ==>
      r == s.(error := "File size must be less than 25MB")
    ensures Acceptable(f) ==>
      && r.file == Some(f) && r.error == ""
      && r == StopRecording(s).(file := Some(f), error := "")
  {
    if f.mimeType !in AllowedTypes then s.(error := TypeRejected)
    else if f.size > MaxFileBytes then s.(error := SizeRejected)
    else
      var chosen := s.(error := "", file := Some(f));
      if s.isRecording then StopRecording(chosen) else chosen
  }

  // ---------------------------------------------------------------------------
  // Submission

  /** How the request to the transcription endpoint settles, as the handler reads it. */
  datatype FetchOutcome =
    | Rejected(thrown: Thrown)                 // `fetch` or `response.json()` threw
    | NotOk(errorMessage: Option<string>)      // `response.ok` false; `data.error?.message`
    | OkJson(text: string)                     // `response.ok` true; `data.text`

  /** The state while the request is in flight. */
  function BeginSubmit(s: State): (r: State)
    requires s.file.Some?
    ensures r.isLoading && r.error == "" && r.transcription == ""
    ensures r.(isLoading := s.isLoading, error := s.error, transcription := s.transcription) == s
  {
    s.(isLoading := true, error := "", transcription := "")
  }

  /** `data.error?.message || "Failed to transcribe audio"`: an absent or empty message falls back. */
  function ServerMessage(m: Option<string>): (msg: string)
    ensures msg != ""
    ensures m.Some? && m.value != "" ==> msg == m.value
  {
    if m.Some? && m.value != "" then m.value else TranscribeFailed
  }

  /** The state once the request has settled. */
  function FinishSubmit(s: State, o: FetchOutcome): (r: State)
    ensures !r.isLoading && r.file == s.file && r.finalBuf == s.finalBuf
    ensures r.isRecording == s.isRecording && r.hasStream == s.hasStream
    ensures r.(error := s.error, transcription := s.transcription, isLoading := s.isLoading) == s
    ensures o.OkJson? ==> r.transcription == o.text && r.error == s.error
    ensures o.NotOk? ==> r.transcription == s.transcription && r.error == ServerMessage(o.errorMessage)
    ensures o.Rejected? ==> r.transcription == s.transcription
    ensures o == Rejected(OtherValue) ==> r.error == "Failed to transcribe audio"
    ensures o.Rejected? && o.thrown.ErrorValue? ==> r.error == o.thrown.message
  {
    match o
    case Rejected(t) => s.(error := MessageOr(t, TranscribeFailed), isLoading := false)
    case NotOk(m) => s.(error := ServerMessage(m), isLoading := false)
    case OkJson(text) => s.(transcription := text, isLoading := false)
  }

  /** The submit handler: a no-op without a file, otherwise one request and its reconciliation. */
  function Submit(s: State, o: FetchOutcome): (r: State)
    ensures s.file.None? ==> r == s
    ensures s.file.Some? ==> !r.isLoading
    ensures s.file.Some? ==> r.(error := s.error, transcription := s.transcription, isLoading := s.isLoading) == s
    ensures s.file.Some? && o.OkJson? ==> r.transcription == o.text && r.error == ""
    ensures s.file.Some? && o.NotOk? ==> r.transcription == "" && r.error != ""
    ensures s.file.Some? && o.NotOk? && o.errorMessage.Some? && o.errorMessage.value != "" ==>
      r.error == o.errorMessage.value
    ensures s.file.Some? && o.NotOk? && (o.errorMessage.None? || o.errorMessage.value == "") ==>
      r.error == "Failed to transcribe audio"
    ensures s.file.Some? && o.Rejected? ==> r.transcription == ""
    ensures s.file.Some? && o == Rejected(OtherValue) ==> r.error == "Failed to transcribe audio"
    ensures s.file.Some? && o.Rejected? && o.thrown.ErrorValue? ==> r.error == o.thrown.message
  {
    if s.file.None? then s else FinishSubmit(BeginSubmit(s), o)
  }

  // ---------------------------------------------------------------------------
  // Properties of file selection

  /** A file is taken, with the error cleared, exactly when its type is allowed and it fits in 25 MiB; otherwise the selection stays. */
  lemma SelectFileAcceptsIff(s: State, f: AudioFile)
    ensures SelectFile(s, f).file == Some(f) && SelectFile(s, f).error == "" <==> Acceptable(f)
    ensures !Acceptable(f) ==> SelectFile(s, f).file == s.file && SelectFile(s, f).error != ""
  {
  }

  /** The type is checked before the size: a file failing both gets the type message. */
  lemma TypeCheckedBeforeSize(s: State, f: AudioFile)
    requires f.mimeType !in AllowedTypes && f.size > MaxFileBytes
    ensures SelectFile(s, f).error == "Please upload an MP3, WAV, or M4A file"
  {
  }

  /** Exactly 25 MiB is accepted; one byte more is refused with the size message. */
  lemma SizeLimitBoundary(s: State, name: string, mimeType: string)
    requires mimeType in AllowedTypes
    ensures SelectFile(s, AudioFile(name, mimeType, 26214400)).file == Some(AudioFile(name, mimeType, 26214400))
    ensures SelectFile(s, AudioFile(name, mimeType, 26214401)).error == "File size must be less than 25MB"
  {
  }

  // ---------------------------------------------------------------------------
  // The state invariant across every handler

  /**
   * What the handlers keep true between events: a recording runs only with a
   * recognizer and a stream, the selected file passed validation, and no
   * request is pending.
   */
  predicate Valid(s: State)
  {
    && (s.isRecording ==> s.hasRecognizer && s.hasStream)
    && (s.file.Some? ==> Acceptable(s.file.value))
    && !s.isLoading
  }

  datatype Action =
    | Choose(f: AudioFile)
    | Start(mic: MicOutcome)
    | Stop
    | Failed(reason: string)
    | Heard(ev: Recognition.ResultEvent)
    | Send(outcome: FetchOutcome)

  function Handle(s: State, a: Action): (r: State)
  {
    match a
    case Choose(f) => SelectFile(s, f)
    case Start(mic) => StartRecording(s, mic)
    case Stop => StopRecording(s)
    case Failed(reason) => RecognitionError(s, reason)
    case Heard(ev) => RecognitionResult(s, ev)
    case Send(o) => Submit(s, o)
  }

  function HandleAll(s: State, actions: seq<Action>): (r: State)
    decreases |actions|
  {
    if |actions| == 0 then s else HandleAll(Handle(s, actions[0]), actions[1..])
  }

  lemma HandlePreservesValid(s: State, a: Action)
    requires Valid(s)
    ensures Valid(Handle(s, a))
  {
  }

  /** From mount on, every sequence of handler calls keeps the invariant. */
  lemma {:induction false} HandleAllPreservesValid(s: State, actions: seq<Action>)
    requires Valid(s)
    ensures Valid(HandleAll(s, actions))
    decreases |actions|
  {
    if |actions| > 0 {
      HandlePreservesValid(s, actions[0]);
      HandleAllPreservesValid(Handle(s, actions[0]), actions[1..]);
    }
  }

  lemma MountIsValid(hasRecognizer: bool)
    ensures Valid(Mount(hasRecognizer))
    ensures Mount(hasRecognizer).file.None? && !Mount(hasRecognizer).isRecording
  {
  }

  // ---------------------------------------------------------------------------
  // Recording

  /** Stopping twice changes nothing more than stopping once. */
  lemma StopIsIdempotent(s: State)
    ensures StopRecording(StopRecording(s)) == StopRecording(s)
    ensures !StopRecording(s).isRecording || !s.hasRecognizer
  {
  }

  /**
   * After a recognition error during a recording the stream handle is still
   * held, and a later stop does not release it because no recording is running.
   */
  lemma ErrorLeavesStreamHeld(s: State, reason: string)
    requires s.hasRecognizer && s.isRecording && s.hasStream
    ensures RecognitionError(s, reason).hasStream
    ensures StopRecording(RecognitionError(s, reason)).hasStream
  {
  }

  /**
   * Restarting after a recognition error overwrites the still-held stream
   * without stopping it: while the new recording runs two streams are live,
   * and once it is stopped the first one is still running.
   */
  lemma RestartAfterErrorLeaksStream(s: State, reason: string)
    requires s.hasRecognizer && s.isRecording && s.hasStream
    ensures var restarted := StartRecording(RecognitionError(s, reason), Granted);
      restarted.isRecording && LiveStreams(restarted) == LiveStreams(s) + 1
    ensures var stopped := StopRecording(StartRecording(RecognitionError(s, reason), Granted));
      !stopped.hasStream && stopped.leaked == s.leaked + 1 && LiveStreams(stopped) == LiveStreams(s)
  {
  }

  /** A start from a state holding no stream, followed by a stop, releases its stream and leaks nothing. */
  lemma StartStopLeaksNothing(s: State, mic: MicOutcome)
    requires s.hasRecognizer && !s.isRecording && !s.hasStream
    ensures StopRecording(StartRecording(s, Granted)) == s.(transcription := "")
    ensures StartRecording(s, mic).leaked == s.leaked
  {
  }

  /** No handler ever stops a leaked stream: the count only grows. */
  lemma {:induction false} LeakedNeverDecreases(s: State, actions: seq<Action>)
    ensures HandleAll(s, actions).leaked >= s.leaked
    decreases |actions|
  {
    if |actions| > 0 {
      LeakedNeverDecreases(Handle(s, actions[0]), actions[1..]);
    }
  }

  /**
   * A new recording clears only the displayed text: results heard afterwards
   * are shown after the final text of earlier recordings.
   */
  lemma NewRecordingKeepsFinalBuffer(s: State, ev: Recognition.ResultEvent)
    requires s.hasRecognizer && !s.isRecording
    ensures StartRecording(s, Granted).transcription == ""
    ensures RecognitionResult(StartRecording(s, Granted), ev).transcription
      == s.finalBuf + Recognition.FinalText(Recognition.Visited(ev))
         + Recognition.InterimText(Recognition.Visited(ev))
  {
  }

  // ---------------------------------------------------------------------------
  // Streams of recognition events

  function ApplyEvents(s: State, evs: seq<Recognition.ResultEvent>): (r: State)
    decreases |evs|
  {
    if |evs| == 0 then s else ApplyEvents(RecognitionResult(s, evs[0]), evs[1..])
  }

  /** All results visited by a stream of events, in delivery order. */
  function VisitedAll(evs: seq<Recognition.ResultEvent>): (visited: seq<Recognition.SpeechResult>)
    decreases |evs|
  {
    if |evs| == 0 then [] else Recognition.Visited(evs[0]) + VisitedAll(evs[1..])
  }

  /**
   * Over any stream of events the finalized buffer only grows by appending the
   * final text of every visited result, in order; nothing else in the state changes
   * apart from the displayed text.
   */
  lemma {:induction false} EventsAppendFinalText(s: State, evs: seq<Recognition.ResultEvent>)
    ensures ApplyEvents(s, evs).finalBuf == s.finalBuf + Recognition.FinalText(VisitedAll(evs))
    ensures ApplyEvents(s, evs).(finalBuf := s.finalBuf, transcription := s.transcription) == s
    decreases |evs|
  {
    if |evs| > 0 {
      var s1 := RecognitionResult(s, evs[0]);
      EventsAppendFinalText(s1, evs[1..]);
      Recognition.FinalTextAppend(Recognition.Visited(evs[0]), VisitedAll(evs[1..]));
    }
  }

  /** After a stream of events the display is the finalized buffer followed by the last event's interim text only. */
  lemma {:induction false} DisplayAfterEvents(s: State, evs: seq<Recognition.ResultEvent>)
    requires |evs| > 0
    ensures ApplyEvents(s, evs).transcription
      == ApplyEvents(s, evs).finalBuf + Recognition.InterimText(Recognition.Visited(evs[|evs| - 1]))
    decreases |evs|
  {
    if |evs| > 1 {
      DisplayAfterEvents(RecognitionResult(s, evs[0]), evs[1..]);
    }
  }

  /** Interim text is replaced, never merged: the display after an event does not depend on what was displayed before it. */
  lemma InterimReplaced(s1: State, s2: State, ev: Recognition.ResultEvent)
    requires s1.finalBuf == s2.finalBuf
    ensures RecognitionResult(s1, ev).transcription == RecognitionResult(s2, ev).transcription
  {
  }

  /** Interim "hel", then final "hello", then interim "world" displays "hello world". */
  lemma HelloWorldScenario(s: State)
    requires s.finalBuf == ""
    ensures ApplyEvents(s, [
      Recognition.ResultEvent(0, [Recognition.SpeechResult("hel", false)]),
      Recognition.ResultEvent(0, [Recognition.SpeechResult("hello", true)]),
      Recognition.ResultEvent(1, [Recognition.SpeechResult("hello", true), Recognition.SpeechResult("world", false)])
    ]).transcription == "hello world"
  {
  }

  // ---------------------------------------------------------------------------
  // Submission

  /** After a submission at most one of error and transcription is shown, and the request is over. */
  lemma SubmitShowsOneOutcome(s: State, o: FetchOutcome)
    requires s.file.Some?
    ensures Submit(s, o).error == "" || Submit(s, o).transcription == ""
    ensures !Submit(s, o).isLoading
  {
  }
}
