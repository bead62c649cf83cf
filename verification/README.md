# Audio transcription pipeline, modelled in Dafny

This project models the logic core of a small Next.js transcription app. A user picks an
audio file or records from the microphone, with live speech-to-text. The app posts the
audio to `POST /api/transcribe`. That route stages the audio in a temporary file, calls the
Whisper engine through the Groq SDK, deletes the temporary file, and returns the text.

Every handler is a pure transition over an immutable state. Every external effect is an
input value describing how it settled: microphone permission, `fetch`, `writeFile`,
`unlink`, the Groq client and its call, and the `AudioContext` constructor.

| file | module | models |
|---|---|---|
| `outcomes.dfy` | `Outcomes` | `Option`, thrown values (`Error` with a message, or anything else), awaited-step outcomes |
| `recognition.dfy` | `Recognition` | the `onresult` loop: final text appended with a space, interim text rebuilt per event |
| `uploader.dfy` | `Uploader` | the upload component: file validation, start/stop recording, recognition callbacks, submit |
| `decimal.dfy` | `Decimal` | base-10 rendering of `Date.now()` in the temporary name, with its inverse |
| `node_path.dfy` | `NodePath` | Node's POSIX `path.extname`, which the temporary name uses |
| `transcribe_route.dfy` | `TranscribeRoute` | the `POST` handler: each exit path's status and message, plus its trace of write, engine and unlink effects |
| `audio_context.dfy` | `AudioContextSingleton` | the lazily created, resumed and closed `AudioContext` singleton, whose held instance can also change state from outside (`state` is read live) |
| `pipeline.dfy` | `Pipeline` | what the submit handler shows for each route response |

The route returns a `Run`: the response plus the sequence of effects it issued. Each write
and unlink in that trace records how it settled. The trace gives unlink counts, the single
engine call and its parameters, and the staged files left on disk (`Leftover`).

The model follows the code as written, including these behaviours that look unintended:

- A `start()` that throws after the microphone was granted leaves the stream handle held
  with no recording running, so no stop will release it.
- A granted start stores the new stream with `setMediaStream` without stopping the one
  already held. That earlier stream's tracks keep running for good. `leaked` counts such
  streams, so after a recognition error and a restart two streams are live at once.
- Starting a new recording clears only the displayed text. The finalized buffer kept in
  the recognition handler's closure carries over into the next recording.
- A recognition error stops the recording but keeps the microphone stream handle. A later
  stop is then a no-op, so the stream stays held until the next start that obtains a
  stream overwrites and leaks it.
- A 500 from the route can carry an empty message when the thrown `Error` has an empty
  message. The component's `||` fallback still shows "Failed to transcribe audio".
- If the `unlink` on the success path throws, the catch block unlinks again. The response
  is then a 500 carrying the unlink error's message, not the transcription.

## Model

| member | source | states |
|---|---|---|
| Uploader.SelectFile | components/AudioUploader.tsx:101-125 | a disallowed type only sets the type message; an oversized file only sets the size message; an acceptable file is selected with the error cleared, and a running recording is stopped |
| Uploader.SelectFileAcceptsIff | components/AudioUploader.tsx:104-119 | a file is taken with a cleared error exactly when its type is in the allow-list and its size is at most 25 MiB; a rejected file leaves the selection as it was |
| Uploader.TypeCheckedBeforeSize | components/AudioUploader.tsx:104-113 | a file failing both checks gets the type message |
| Uploader.SizeLimitBoundary | components/AudioUploader.tsx:109-113 | exactly 26214400 bytes is accepted; 26214401 bytes gets "File size must be less than 25MB" |
| Uploader.StartRecording | components/AudioUploader.tsx:135-150 | no-op without a recognizer or while recording; otherwise recording starts iff the microphone is granted, and only the stream, the recording flag and the display (cleared) change, so the finalized buffer is kept; a refused microphone only sets the microphone message; a throwing `start()` sets that message and leaves the granted stream held with no recording running; a start that gets a stream while one is held leaks the held one, so one more stream is live |
| Uploader.StopRecording | components/AudioUploader.tsx:152-162 | only a running recording is stopped, which also drops the stream handle |
| Uploader.StopIsIdempotent | components/AudioUploader.tsx:152-162 | stopping twice equals stopping once |
| Uploader.RecognitionError | components/AudioUploader.tsx:81-85 | sets "Speech recognition error: <reason>", ends the recording, and changes nothing else |
| Uploader.ErrorLeavesStreamHeld | components/AudioUploader.tsx:81-85 | after a recognition error the stream handle is still held, and a stop does not release it |
| Uploader.RestartAfterErrorLeaksStream | components/AudioUploader.tsx:136-160 | after an error, a restart runs with two live streams, and its stop releases only the new one, leaving one more leaked stream than before |
| Uploader.StartStopLeaksNothing | components/AudioUploader.tsx:136-160 | from a state holding no stream, any start leaks nothing, and start then stop returns to the same state with the display cleared |
| Uploader.LeakedNeverDecreases | components/AudioUploader.tsx:136-160 | no sequence of handler calls ever stops a leaked stream |
| Uploader.RecognitionResult | components/AudioUploader.tsx:66-79 | the finalized buffer only grows by appending; the display is the new buffer plus this event's interim text; nothing else changes |
| Recognition.ReduceEvent | components/AudioUploader.tsx:67-76 | the loop over `resultIndex..length` appends each final transcript and a space to the buffer, and builds the interim text from empty |
| Recognition.FinalTextAppend | components/AudioUploader.tsx:69-76 | the final text of two runs of results is the first run's final text followed by the second's |
| Recognition.InterimResultsAddNoFinalText | components/AudioUploader.tsx:71-75 | interim results never reach the finalized buffer |
| Uploader.EventsAppendFinalText | components/AudioUploader.tsx:64-79 | over any stream of events, the buffer becomes the old buffer followed by the final text of all visited results, in order |
| Uploader.DisplayAfterEvents | components/AudioUploader.tsx:67-78 | after any non-empty stream of events, the display is the buffer followed by only the last event's interim text |
| Uploader.InterimReplaced | components/AudioUploader.tsx:67-78 | the display after an event does not depend on what was displayed before |
| Uploader.HelloWorldScenario | components/AudioUploader.tsx:64-79 | interim "hel", then final "hello", then interim "world" displays "hello world" |
| Uploader.NewRecordingKeepsFinalBuffer | components/AudioUploader.tsx:143-144 | a granted start clears the display, and later results are shown after the earlier recordings' final text |
| Uploader.HandlePreservesValid | components/AudioUploader.tsx:101-194 | every handler keeps the invariant: recording implies a recognizer and a stream, a selected file passed validation, nothing is loading |
| Uploader.HandleAllPreservesValid | components/AudioUploader.tsx:101-194 | every sequence of handler calls keeps that invariant |
| Uploader.MountIsValid | components/AudioUploader.tsx:22-28 | the mount state satisfies the invariant, with no file selected and no recording running |
| Uploader.FinishSubmit | components/AudioUploader.tsx:174-193 | once the request settles, only the error, the transcription and loading (off) may change; success shows `data.text`, a non-ok response shows the server message or the fallback, and a thrown value shows its message or the fallback |
| Uploader.BeginSubmit | components/AudioUploader.tsx:167-169 | while the request is in flight, loading is set and error and transcription are cleared |
| Uploader.ServerMessage | components/AudioUploader.tsx:182-184 | the error shown for a non-ok response is never empty; a non-empty server message is used as it is |
| Uploader.Submit | components/AudioUploader.tsx:164-194 | no-op without a file; otherwise loading ends false, success shows `data.text`, a non-ok response shows the server message or the fallback, and a thrown value shows its message or the fallback |
| Uploader.SubmitShowsOneOutcome | components/AudioUploader.tsx:167-190 | after a submission, error and transcription are never both shown |
| Decimal.NatToString | app/api/transcribe/route.ts:28 | the timestamp renders as a non-empty digit string with a leading zero only for 0 |
| Decimal.ParseNatToString | app/api/transcribe/route.ts:28 | parsing the rendered timestamp gives it back |
| Decimal.NatToStringInjective | app/api/transcribe/route.ts:28 | distinct timestamps render differently |
| NodePath.Extname | app/api/transcribe/route.ts:30 | the extension is empty or a '.' followed by characters that are neither '.' nor '/' |
| NodePath.ExtnameOfStemAndExtension | app/api/transcribe/route.ts:30 | a name "stem.ext" whose stem is non-empty and has no '/', and whose "ext" has no '.' or '/', has extension ".ext" |
| TranscribeRoute.TempFileNameShape | app/api/transcribe/route.ts:28-30 | the name starts with "upload-", then the timestamp's digits and a '-', and ends with the uploaded name's extension |
| TranscribeRoute.TempFileNameKeepsExtension | app/api/transcribe/route.ts:28-30 | the temporary file has the same extension as the uploaded file |
| TranscribeRoute.TempFileNameInjective | app/api/transcribe/route.ts:28-31 | two temporary names for one upload name coincide only when timestamp and random suffix both do |
| TranscribeRoute.Post | app/api/transcribe/route.ts:8-78 | the status is 200, 400 or 500; it is 200 exactly when the body is a transcription, and that body is the engine's own result |
| TranscribeRoute.EngineCall | app/api/transcribe/route.ts:40-46 | the engine request reads the staged file |
| TranscribeRoute.CatchBlock | app/api/transcribe/route.ts:54-76 | the catch block answers 500 with the `Error`'s message or "Failed to transcribe audio", and appends exactly one unlink of the temp path when one was assigned, none otherwise |
| TranscribeRoute.MissingFileRejected | app/api/transcribe/route.ts:12-20 | the answer is 400 exactly when the file field is missing or empty; it then says "No file provided" and nothing is written or deleted |
| TranscribeRoute.NoUnlinkBeforeStaging | app/api/transcribe/route.ts:9-23 | a run that fails before `tempFilePath` is assigned writes, calls and unlinks nothing |
| TranscribeRoute.StagedTrace | app/api/transcribe/route.ts:31-64 | after staging, the trace is write then catch-unlink, or write, engine call and catch-unlink, or write, engine call and unlink, plus a catch-unlink when that unlink throws |
| TranscribeRoute.StagedFileUnlinked | app/api/transcribe/route.ts:31-64 | after staging, the file is written once and unlinked once, or twice when the success-path unlink throws; every unlink targets the staged path, and the trace ends with one |
| TranscribeRoute.SuccessIsPassThrough | app/api/transcribe/route.ts:40-53 | the answer is 200 exactly when every step succeeds; it carries the engine result unchanged, after one engine call and one unlink |
| TranscribeRoute.EngineCalledWithFixedParameters | app/api/transcribe/route.ts:40-46 | the engine is called at most once, on the staged file, with "whisper-large-v3", "json", "en" and temperature 0.0 |
| TranscribeRoute.FailureReportsFirstThrow | app/api/transcribe/route.ts:54-76 | past the 400 check, the answer is 500 exactly when some step throws; its message comes from the first step that threw, or is "Failed to transcribe audio" for a non-Error value |
| TranscribeRoute.EarlyFailureReportsFirstThrow | app/api/transcribe/route.ts:11-23 | a failure before the temporary path is assigned (parsing, a text field, reading the bytes) is answered by the catch block with a 500 carrying the first thrown value's message |
| TranscribeRoute.StagedFailureReportsFirstThrow | app/api/transcribe/route.ts:31-76 | once the file is staged, the answer is 500 exactly when write, client, engine or the success-path unlink throws, with the first such step's message |
| TranscribeRoute.CatchCleanupFailureSwallowed | app/api/transcribe/route.ts:57-64 | how the catch-path unlink settles never changes the response |
| TranscribeRoute.SuccessUnlinkFailureBecomes500 | app/api/transcribe/route.ts:48-76 | a throwing success-path unlink turns the result into a 500 with the unlink error's message, after two unlink attempts |
| TranscribeRoute.EmptyErrorMessageGivesEmpty500 | app/api/transcribe/route.ts:54-76 | whichever step first throws an Error with an empty message (form parse, write, client, engine, success-path unlink), the 500 carries an empty message |
| TranscribeRoute.LeftoverAfterRun | app/api/transcribe/route.ts:34-64 | a staged file remains after the request exactly when it was written and the last unlink attempt failed |
| AudioContextSingleton.ResumeIfSuspended | lib/audioContext.ts:24-29 | a context that is not suspended is stored and returned as it is; a suspended one is returned running after a successful `resume()`; a failing `resume()` is rethrown unchanged with the context still stored |
| AudioContextSingleton.GetAudioContext | lib/audioContext.ts:9-34 | outside a browser it throws the browser message and leaves the singleton alone; a held context that is not suspended is returned unchanged; a held suspended one is returned running with the same identity, or the `resume()` error is rethrown; a context is built only when none is held, with the next identity, and is stored and returned in its initial state, or running when it started suspended and `resume()` succeeded; when that `resume()` fails its error is rethrown and the new context stays stored, still suspended; without a constructor it throws "AudioContext is not supported in this browser", and a throwing constructor's error is rethrown, both keeping null; a returned context is the held one and is not suspended |
| AudioContextSingleton.StateChanged | lib/audioContext.ts:25 | a caller or the browser changing the held instance's state changes what the singleton holds, keeping its identity; with nothing held it is a no-op |
| AudioContextSingleton.CloseAudioContext | lib/audioContext.ts:36-41 | the singleton becomes null; a no-op when it already is |
| AudioContextSingleton.IsAudioContextAvailable | lib/audioContext.ts:44-46 | true exactly when a context is held and it is running |
| AudioContextSingleton.OperationsPreserveValid | lib/audioContext.ts:15-22 | a held context always has an identity older than the construction count, across calls, closes and outside state changes |
| AudioContextSingleton.SuspendedInstanceResumedByNextCall | lib/audioContext.ts:24-29 | a held context suspended from outside is resumed, as the same instance, by the next call, and is then available |
| AudioContextSingleton.ClosedInstanceStillReturned | lib/audioContext.ts:25-29 | a held context closed from outside is not available, yet the next call returns that same closed instance and builds nothing |
| AudioContextSingleton.RepeatedCallsShareInstance | lib/audioContext.ts:15-29 | after a context has been returned, later calls construct nothing and return the same instance |
| AudioContextSingleton.ReturnedContextIsUsable | lib/audioContext.ts:24-29 | a returned context is not suspended, and availability holds exactly when it is running |
| AudioContextSingleton.CloseThenGetBuildsFresh | lib/audioContext.ts:36-41 | closing is idempotent and leaves nothing available; the next constructing call builds a context with a new identity |
| Pipeline.SubmitToRoute | components/AudioUploader.tsx:175-190 | for a route response, the user sees the engine text exactly on a 200, and otherwise a non-empty error with no transcription |
| Pipeline.EmptyServerMessageFallsBack | components/AudioUploader.tsx:182-184 | a route 500 with an empty message, whichever step threw it, is shown as "Failed to transcribe audio" |

## Left out

- Rendering: the JSX, styling, icons and the visualiser and result children (components/AudioUploader.tsx:196-379) are presentation only. So are the button `disabled` conditions that keep submit from running while loading.
- Speech-feature detection and recognizer set-up (components/AudioUploader.tsx:35-62) are replaced by one `hasRecognizer` flag fixed at mount. The recognizer's settings (continuous, interim results, "en-US") are configuration.
- The unmount cleanup (components/AudioUploader.tsx:90-97) is React effect mechanics. It uses the stream captured at mount.
- The playback URL (`URL.createObjectURL`/`revokeObjectURL`, components/AudioUploader.tsx:115-120) is a browser resource with no effect on the logic modelled here.
- `handleDrop` (components/AudioUploader.tsx:127-133) only forwards the first dropped file to the file handler, which is modelled as `Uploader.SelectFile`.
- Response bodies of unexpected shape are not modelled: JSON `null`, a non-string `data.text`, or a non-string `data.error.message`. `OkJson` carries a string and `NotOk` an optional string.
- Real I/O and foreign calls are outcome parameters: `fetch`, `getUserMedia`, `writeFile`, `unlink`, the Groq client and its request. Opening the read stream (`createReadStream`) has no outcome of its own: its failures surface through the engine call, so they are folded into the engine outcome. A failed write is taken to leave no file behind.
- `Date.now()` and `Math.random()` are opaque inputs. Uniqueness across requests depends on the clock and the random source. Only the injectivity of the name in those two inputs is proved.
- `path.join(os.tmpdir(), name)` is kept as the pair (directory, name); its normalisation is not modelled. `path.extname` is modelled with POSIX separators only.
- The text of the `TypeError` raised when the `file` field is a non-empty string depends on the JavaScript runtime. The model fixes it to "file.arrayBuffer is not a function".
- Console logging, the `close()` promise rejection (lib/audioContext.ts:38), and the API key read are side effects with no bearing on responses. A missing key surfaces through the client-construction outcome.
- Async interleavings and concurrent requests: each handler is one atomic transition. The build configuration (next.config.ts) is not part of the logic.
