/**
 * The `POST /api/transcribe` handler: which status and message come back on
 * each exit path, and which effects (temporary write, engine call, unlink)
 * happen on the way. Every awaited effect is an input outcome in `Env`; the
 * handler returns the response together with the trace of effects it issued.
 */
module TranscribeRoute {
  import opened Outcomes
  import Decimal
  import NodePath

  const NoFileMessage := "No file provided"
  const FallbackMessage := "Failed to transcribe audio"
  /** The `TypeError` raised when `arrayBuffer` is called on a plain text form field. */
  const NotAFunctionMessage := "file.arrayBuffer is not a function"

  const EngineModel := "whisper-large-v3"
  const EngineFormat := "json"
  const EngineLanguage := "en"
  const EngineTemperature: real := 0.0

  /** What `formData.get("file")` yields: nothing, a text value, or an uploaded file. */
  datatype FileField = Absent | TextValue(text: string) | FilePart(name: string)

  datatype FormStep = FormThrows(thrown: Thrown) | Parsed(field: FileField)

  /** The engine's structured output: its text and whatever else it reports. */
  datatype EngineResult = EngineResult(text: string, metadata: seq<(string, string)>)

  datatype EngineOutcome = Transcribed(result: EngineResult) | EngineThrows(thrown: Thrown)

  /** The settled outcome of every effect the handler may await, plus the name ingredients. */
  datatype Env = Env(
    form: FormStep,
    arrayBuffer: Step,
    tmpDir: string,
    timestamp: nat,
    randomSuffix: string,
    write: Step,
    client: Step,
    engine: EngineOutcome,
    unlinkAfterSuccess: Step,
    unlinkInCatch: Step)

  /** `path.join(os.tmpdir(), name)`, kept as its two parts. */
  datatype TempPath = TempPath(dir: string, name: string)

  datatype EngineRequest = EngineRequest(
    file: TempPath, model: string, responseFormat: string, language: string, temperature: real)

  datatype Effect =
    | WriteTemp(path: TempPath, outcome: Step)
    | CallEngine(request: EngineRequest)
    | Unlink(path: TempPath, outcome: Step)

  datatype Body = Transcription(result: EngineResult) | ErrorBody(message: string)

  datatype Response = Response(status: nat, body: Body)

  datatype Run = Run(response: Response, effects: seq<Effect>)

  /** JavaScript truthiness of the form value: absent and "" are falsy. */
  predicate IsPresent(field: FileField)
  {
    match field
    case Absent => false
    case TextValue(t) => t != ""
    case FilePart(_) => true
  }

  /** Characters `Math.random().toString(36)` can produce after its "0." prefix. */
  predicate IsBase36(s: string)
  {
    forall j :: 0 <= j < |s| ==> ('0' <= s[j] <= '9' || 'a' <= s[j] <= 'z')
  }

  /** "<timestamp>-<random suffix>": the part of the name that varies between requests. */
  function Stamp(timestamp: nat, randomSuffix: string): (stamp: string)
  {
    Decimal.NatToString(timestamp) + "-" + randomSuffix
  }

  function TempStem(timestamp: nat, randomSuffix: string): (stem: string)
  {
    "upload-" + Stamp(timestamp, randomSuffix)
  }

  /** "upload-<timestamp>-<random suffix><extension of the uploaded name>". */
  function TempFileName(timestamp: nat, randomSuffix: string, fileName: string): (name: string)
  {
    TempStem(timestamp, randomSuffix) + NodePath.Extname(fileName)
  }

  lemma ConcatParts(a: string, b: string)
    ensures (a + b)[..|a|] == a && (a + b)[|a|..] == b
  {
  }

  /** The name starts "upload-<timestamp>-" and ends with the uploaded name's extension. */
  lemma TempFileNameShape(timestamp: nat, randomSuffix: string, fileName: string)
    ensures var n := TempFileName(timestamp, randomSuffix, fileName);
      |n| >= 7 && n[..7] == "upload-" && Decimal.NatToString(timestamp) + "-" <= n[7..]
    ensures var n := TempFileName(timestamp, randomSuffix, fileName); var e := NodePath.Extname(fileName);
      |e| <= |n| && n[|n| - |e|..] == e
  {
    var n := TempFileName(timestamp, randomSuffix, fileName);
    var stem := TempStem(timestamp, randomSuffix);
    var stamp := Stamp(timestamp, randomSuffix);
    var head := Decimal.NatToString(timestamp) + "-";
    var e := NodePath.Extname(fileName);
    ConcatParts(stem, e);
    ConcatParts("upload-", stamp);
    ConcatParts(head, randomSuffix);
    assert n[..7] == stem[..7];
    assert n[7..] == stamp + e;
    assert (stamp + e)[..|head|] == stamp[..|head|];
  }

  /** "upload-<digits>-<base-36 suffix>" contains neither '.' nor '/'. */
  lemma TempStemHasNoDotOrSlash(timestamp: nat, randomSuffix: string)
    requires IsBase36(randomSuffix)
    ensures NodePath.NoDotOrSlash(TempStem(timestamp, randomSuffix))
  {
    var digits := Decimal.NatToString(timestamp);
    var stem := TempStem(timestamp, randomSuffix);
    forall j | 0 <= j < |stem| ensures stem[j] != '.' && stem[j] != '/' {
      if 7 <= j < 7 + |digits| {
        assert stem[j] == digits[j - 7];
      } else if 7 + |digits| < j {
        assert stem[j] == randomSuffix[j - 8 - |digits|];
      }
    }
  }

  /** A non-empty name with neither '.' nor '/' has no extension. */
  lemma ExtnameOfPlainName(name: string)
    requires |name| > 0 && NodePath.NoDotOrSlash(name)
    ensures NodePath.Extname(name) == ""
  {
    assert NodePath.TrimTrailingSlashes(name) == name;
    assert NodePath.LastComponent(name) == name;
  }

  /** The temporary copy keeps the uploaded file's extension. */
  lemma TempFileNameKeepsExtension(timestamp: nat, randomSuffix: string, fileName: string)
    requires IsBase36(randomSuffix)
    ensures NodePath.Extname(TempFileName(timestamp, randomSuffix, fileName)) == NodePath.Extname(fileName)
  {
    var stem := TempStem(timestamp, randomSuffix);
    var e := NodePath.Extname(fileName);
    TempStemHasNoDotOrSlash(timestamp, randomSuffix);
    if e == "" {
      assert stem + e == stem;
      ExtnameOfPlainName(stem);
    } else {
      assert stem + e == stem + "." + e[1..];
      NodePath.ExtnameOfStemAndExtension(stem, e[1..]);
    }
  }

  /** In "<digits>-<rest>" the first '-' sits right after the digits. */
  lemma FirstDashAfterDigits(d: string, r: string)
    requires Decimal.AllDigits(d)
    ensures (d + "-" + r)[|d|] == '-'
    ensures forall j :: 0 <= j < |d| ==> (d + "-" + r)[j] != '-'
  {
  }

  /** Splitting "<digits>-<rest>" at its first '-' is unambiguous. */
  lemma SplitAfterDigits(d1: string, r1: string, d2: string, r2: string)
    requires Decimal.AllDigits(d1) && Decimal.AllDigits(d2)
    requires d1 + "-" + r1 == d2 + "-" + r2
    ensures d1 == d2 && r1 == r2
  {
    var x := d1 + "-" + r1;
    FirstDashAfterDigits(d1, r1);
    FirstDashAfterDigits(d2, r2);
    assert |d1| == |d2|;
    assert d1 == x[..|d1|] == d2;
    assert r1 == x[|d1| + 1..] == r2;
  }

  /** Two requests for the same upload name collide only if timestamp and suffix both coincide. */
  lemma TempFileNameInjective(t1: nat, s1: string, t2: nat, s2: string, fileName: string)
    requires TempFileName(t1, s1, fileName) == TempFileName(t2, s2, fileName)
    ensures t1 == t2 && s1 == s2
  {
    var e := NodePath.Extname(fileName);
    CancelCommonSuffix(TempStem(t1, s1), TempStem(t2, s2), e);
    CancelCommonPrefix("upload-", Stamp(t1, s1), Stamp(t2, s2));
    SplitAfterDigits(Decimal.NatToString(t1), s1, Decimal.NatToString(t2), s2);
    Decimal.NatToStringInjective(t1, t2);
  }

  lemma CancelCommonSuffix(a: string, b: string, e: string)
    requires a + e == b + e
    ensures a == b
  {
    assert a == (a + e)[..|a|];
    assert b == (b + e)[..|b|];
  }

  lemma CancelCommonPrefix(p: string, a: string, b: string)
    requires p + a == p + b
    ensures a == b
  {
    assert a == (p + a)[|p|..];
    assert b == (p + b)[|p|..];
  }

  /** The engine call the handler makes for a staged file. */
  function EngineCall(path: TempPath): (request: EngineRequest)
    ensures request.file == path
  {
    EngineRequest(path, EngineModel, EngineFormat, EngineLanguage, EngineTemperature)
  }

  /** The catch block: one best-effort unlink when a temp path was assigned, then a 500. */
  function CatchBlock(t: Thrown, staged: Option<TempPath>, effects: seq<Effect>, cleanup: Step): (run: Run)
    ensures run.response.status == 500
    ensures t.ErrorValue? ==> run.response.body == ErrorBody(t.message)
    ensures t.OtherValue? ==> run.response.body == ErrorBody("Failed to transcribe audio")
    ensures effects <= run.effects
    ensures staged.None? ==> run.effects == effects
    ensures staged.Some? ==> run.effects == effects + [Unlink(staged.value, cleanup)]
  {
    var unlinks := if staged.Some? then [Unlink(staged.value, cleanup)] else [];
    Run(Response(500, ErrorBody(MessageOr(t, FallbackMessage))), effects + unlinks)
  }

  /** The handler. */
  function Post(env: Env): (run: Run)
    ensures run.response.status in {200, 400, 500}
    ensures run.response.status == 200 <==> run.response.body.Transcription?
    ensures run.response.status == 200 ==> env.engine.Transcribed? && run.response.body == Transcription(env.engine.result)
  {
    match env.form
    case FormThrows(t) => CatchBlock(t, None, [], env.unlinkInCatch)
    case Parsed(field) =>
      if !IsPresent(field) then
        Run(Response(400, ErrorBody(NoFileMessage)), [])
      else if field.TextValue? then
        CatchBlock(ErrorValue(NotAFunctionMessage), None, [], env.unlinkInCatch)
      else if env.arrayBuffer.Throws? then
        CatchBlock(env.arrayBuffer.thrown, None, [], env.unlinkInCatch)
      else
        var path := TempPath(env.tmpDir, TempFileName(env.timestamp, env.randomSuffix, field.name));
        var written := [WriteTemp(path, env.write)];
        if env.write.Throws? then
          CatchBlock(env.write.thrown, Some(path), written, env.unlinkInCatch)
        else if env.client.Throws? then
          CatchBlock(env.client.thrown, Some(path), written, env.unlinkInCatch)
        else
          var called := written + [CallEngine(EngineCall(path))];
          match env.engine
          case EngineThrows(t) => CatchBlock(t, Some(path), called, env.unlinkInCatch)
          case Transcribed(result) =>
            var cleaned := called + [Unlink(path, env.unlinkAfterSuccess)];
            if env.unlinkAfterSuccess.Throws? then
              CatchBlock(env.unlinkAfterSuccess.thrown, Some(path), cleaned, env.unlinkInCatch)
            else
              Run(Response(200, Transcription(result)), cleaned)
  }

  // ---------------------------------------------------------------------------
  // Reading a trace

  datatype Kind = WriteKind | CallKind | UnlinkKind

  function KindOf(e: Effect): (kind: Kind)
  {
    match e
    case WriteTemp(_, _) => WriteKind
    case CallEngine(_) => CallKind
    case Unlink(_, _) => UnlinkKind
  }

  /** How many effects of the trace are of the given kind. */
  function Count(effects: seq<Effect>, kind: Kind): (n: nat)
  {
    if |effects| == 0 then 0
    else (if KindOf(effects[0]) == kind then 1 else 0) + Count(effects[1..], kind)
  }

  function UnlinkCount(effects: seq<Effect>): (n: nat)
  {
    Count(effects, UnlinkKind)
  }

  function WriteCount(effects: seq<Effect>): (n: nat)
  {
    Count(effects, WriteKind)
  }

  function EngineCallCount(effects: seq<Effect>): (n: nat)
  {
    Count(effects, CallKind)
  }

  /** The files on disk after one effect. */
  function Apply(files: set<TempPath>, e: Effect): (after: set<TempPath>)
  {
    match e
    case WriteTemp(p, o) => if o.Done? then files + {p} else files
    case Unlink(p, o) => if o.Done? then files - {p} else files
    case CallEngine(_) => files
  }

  /** Files on disk after replaying `effects` from `files`: a successful write adds, a successful unlink removes. */
  function Replay(files: set<TempPath>, effects: seq<Effect>): (after: set<TempPath>)
    decreases |effects|
  {
    if |effects| == 0 then files else Replay(Apply(files, effects[0]), effects[1..])
  }

  /** The staged files a run leaves behind. */
  function Leftover(effects: seq<Effect>): (left: set<TempPath>)
  {
    Replay({}, effects)
  }

  lemma {:induction false} CountAppend(a: seq<Effect>, b: seq<Effect>)
    ensures forall kind :: Count(a + b, kind) == Count(a, kind) + Count(b, kind)
    decreases |a|
  {
    if |a| == 0 {
      assert a + b == b;
    } else {
      assert (a + b)[0] == a[0];
      assert (a + b)[1..] == a[1..] + b;
      CountAppend(a[1..], b);
    }
  }

  lemma CountSingleton(e: Effect)
    ensures forall kind :: Count([e], kind) == if KindOf(e) == kind then 1 else 0
  {
    assert [e][1..] == [];
  }

  lemma {:induction false} ReplayAppend(files: set<TempPath>, a: seq<Effect>, b: seq<Effect>)
    ensures Replay(files, a + b) == Replay(Replay(files, a), b)
    decreases |a|
  {
    if |a| == 0 {
      assert a + b == b;
    } else {
      assert (a + b)[0] == a[0];
      assert (a + b)[1..] == a[1..] + b;
      ReplayAppend(Apply(files, a[0]), a[1..], b);
    }
  }

  lemma ReplaySingleton(files: set<TempPath>, e: Effect)
    ensures Replay(files, [e]) == Apply(files, e)
  {
    assert [e][1..] == [];
  }

  // ---------------------------------------------------------------------------
  // Exit paths

  /** The request is answered 400 before anything else is attempted. */
  predicate LacksFile(env: Env)
  {
    env.form.Parsed? && !IsPresent(env.form.field)
  }

  /** The handler gets as far as assigning `tempFilePath`. */
  predicate Stages(env: Env)
  {
    env.form.Parsed? && env.form.field.FilePart? && env.arrayBuffer.Done?
  }

  function StagedPath(env: Env): (path: TempPath)
    requires Stages(env)
  {
    TempPath(env.tmpDir, TempFileName(env.timestamp, env.randomSuffix, env.form.field.name))
  }

  /** Everything up to and including the engine call succeeds. */
  predicate EngineSucceeds(env: Env)
  {
    Stages(env) && env.write.Done? && env.client.Done? && env.engine.Transcribed?
  }

  /** The handler's awaited steps in order, each as the outcome it settled with. */
  function StepsInOrder(env: Env): (steps: seq<Step>)
  {
    var form := if env.form.FormThrows? then Throws(env.form.thrown) else Done;
    var field :=
      if env.form.Parsed? && env.form.field.TextValue? then Throws(ErrorValue(NotAFunctionMessage)) else Done;
    var engine := if env.engine.EngineThrows? then Throws(env.engine.thrown) else Done;
    [form, field, env.arrayBuffer, env.write, env.client, engine, env.unlinkAfterSuccess]
  }

  /** The first step that threw, if any. */
  function FirstThrow(steps: seq<Step>): (t: Option<Thrown>)
    ensures t.None? <==> forall i :: 0 <= i < |steps| ==> steps[i].Done?
  {
    if |steps| == 0 then None
    else if steps[0].Throws? then Some(steps[0].thrown)
    else FirstThrow(steps[1..])
  }

  lemma {:induction false} FirstThrowAt(steps: seq<Step>, i: nat)
    requires i < |steps| && steps[i].Throws?
    requires forall j :: 0 <= j < i ==> steps[j].Done?
    ensures FirstThrow(steps) == Some(steps[i].thrown)
  {
    if i > 0 {
      FirstThrowAt(steps[1..], i - 1);
    }
  }

  /** A missing or empty `file` field is answered 400 "No file provided", with nothing staged or deleted. */
  lemma MissingFileRejected(env: Env)
    ensures Post(env).response.status == 400 <==> LacksFile(env)
    ensures LacksFile(env) ==>
      Post(env).response == Response(400, ErrorBody("No file provided")) && Post(env).effects == []
  {
  }

  /** Before `tempFilePath` is assigned, a failure writes nothing and unlinks nothing. */
  lemma NoUnlinkBeforeStaging(env: Env)
    requires !Stages(env)
    ensures Post(env).effects == []
    ensures WriteCount(Post(env).effects) == 0
    ensures UnlinkCount(Post(env).effects) == 0
    ensures EngineCallCount(Post(env).effects) == 0
    ensures Leftover(Post(env).effects) == {}
  {
    var effects := Post(env).effects;
    if env.form.FormThrows? {
      assert effects == [];
    } else if !IsPresent(env.form.field) {
      assert effects == [];
    } else if env.form.field.TextValue? {
      assert effects == [];
    } else {
      assert env.arrayBuffer.Throws?;
      assert effects == [];
    }
  }

  /** The trace of a run that assigns `tempFilePath`, exit path by exit path. */
  lemma StagedTrace(env: Env)
    requires Stages(env)
    ensures var p := StagedPath(env);
      var w := [WriteTemp(p, env.write)];
      var c := [CallEngine(EngineCall(p))];
      var u := [Unlink(p, env.unlinkAfterSuccess)];
      var k := [Unlink(p, env.unlinkInCatch)];
      Post(env).effects ==
        if env.write.Throws? || env.client.Throws? then w + k
        else if env.engine.EngineThrows? then w + c + k
        else if env.unlinkAfterSuccess.Throws? then w + c + u + k
        else w + c + u
  {
  }

  /**
   * Once `tempFilePath` is assigned, the file is written once and unlinked on every
   * exit: once, or twice when the success-path unlink throws and the catch block
   * tries again. Every unlink targets the staged path, and the last effect is one.
   */
  lemma StagedFileUnlinked(env: Env)
    requires Stages(env)
    ensures WriteCount(Post(env).effects) == 1
    ensures UnlinkCount(Post(env).effects)
      == if EngineSucceeds(env) && env.unlinkAfterSuccess.Throws? then 2 else 1
    ensures EngineCallCount(Post(env).effects) == if env.write.Done? && env.client.Done? then 1 else 0
    ensures forall e :: e in Post(env).effects && e.Unlink? ==> e.path == StagedPath(env)
    ensures |Post(env).effects| > 0 && Post(env).effects[|Post(env).effects| - 1].Unlink?
  {
    StagedTrace(env);
    var p := StagedPath(env);
    var w, c := [WriteTemp(p, env.write)], [CallEngine(EngineCall(p))];
    var u, k := [Unlink(p, env.unlinkAfterSuccess)], [Unlink(p, env.unlinkInCatch)];
    CountSingleton(w[0]);
    CountSingleton(c[0]);
    CountSingleton(u[0]);
    CountSingleton(k[0]);
    CountAppend(w, k);
    CountAppend(w, c);
    CountAppend(w + c, k);
    CountAppend(w + c, u);
    CountAppend(w + c + u, k);
  }

  /**
   * The response is 200 exactly when every step succeeds; it then carries the
   * engine's result unchanged, after one engine call and one unlink.
   */
  lemma SuccessIsPassThrough(env: Env)
    ensures Post(env).response.status == 200 <==> EngineSucceeds(env) && env.unlinkAfterSuccess.Done?
    ensures Post(env).response.status == 200 ==>
      && Post(env).response.body == Transcription(env.engine.result)
      && EngineCallCount(Post(env).effects) == 1
      && UnlinkCount(Post(env).effects) == 1
  {
    if Stages(env) {
      StagedFileUnlinked(env);
    }
  }

  /** The engine is called at most once, on the staged file, always with the same fixed parameters. */
  lemma EngineCalledWithFixedParameters(env: Env)
    ensures EngineCallCount(Post(env).effects) <= 1
    ensures forall e :: e in Post(env).effects && e.CallEngine? ==>
      && Stages(env)
      && e.request == EngineRequest(StagedPath(env), "whisper-large-v3", "json", "en", 0.0)
  {
    if Stages(env) {
      StagedTrace(env);
      StagedFileUnlinked(env);
    } else {
      NoUnlinkBeforeStaging(env);
    }
  }

  /**
   * Every answer other than 200 and 400 is a 500 reporting the first step that
   * threw: that `Error`'s message, or "Failed to transcribe audio" for any other value.
   */
  lemma FailureReportsFirstThrow(env: Env)
    requires !LacksFile(env)
    ensures Post(env).response.status == 500 <==> FirstThrow(StepsInOrder(env)).Some?
    ensures Post(env).response.status == 500 ==>
      Post(env).response.body == ErrorBody(MessageOr(FirstThrow(StepsInOrder(env)).value, "Failed to transcribe audio"))
  {
    if Stages(env) {
      StagedFailureReportsFirstThrow(env);
    } else {
      EarlyFailureReportsFirstThrow(env);
    }
  }

  /** A failure before `tempFilePath` is assigned: parsing, the field check or reading the bytes threw. */
  lemma EarlyFailureReportsFirstThrow(env: Env)
    requires !LacksFile(env) && !Stages(env)
    ensures FirstThrow(StepsInOrder(env)).Some?
    ensures Post(env).response == Response(500, ErrorBody(MessageOr(FirstThrow(StepsInOrder(env)).value, "Failed to transcribe audio")))
  {
    var s := StepsInOrder(env);
    if env.form.FormThrows? {
      FirstThrowAt(s, 0);
    } else if env.form.field.TextValue? {
      FirstThrowAt(s, 1);
    } else {
      FirstThrowAt(s, 2);
    }
  }

  /** Once the file is staged, the first of write, client, engine and success-path unlink to throw decides the 500. */
  lemma StagedFailureReportsFirstThrow(env: Env)
    requires Stages(env)
    ensures Post(env).response.status == 500 <==> FirstThrow(StepsInOrder(env)).Some?
    ensures Post(env).response.status == 500 ==>
      Post(env).response.body == ErrorBody(MessageOr(FirstThrow(StepsInOrder(env)).value, "Failed to transcribe audio"))
  {
    var s := StepsInOrder(env);
    if env.write.Throws? {
      FirstThrowAt(s, 3);
    } else if env.client.Throws? {
      FirstThrowAt(s, 4);
    } else if env.engine.EngineThrows? {
      FirstThrowAt(s, 5);
    } else if env.unlinkAfterSuccess.Throws? {
      FirstThrowAt(s, 6);
    }
  }

  /** How the catch-path unlink settles never changes the response. */
  lemma CatchCleanupFailureSwallowed(env: Env, cleanup: Step)
    ensures Post(env.(unlinkInCatch := cleanup)).response == Post(env).response
  {
  }

  /**
   * A throwing success-path unlink discards the transcription: the catch block
   * unlinks again and answers 500 with the unlink error's message.
   */
  lemma SuccessUnlinkFailureBecomes500(env: Env, t: Thrown)
    requires EngineSucceeds(env) && env.unlinkAfterSuccess == Throws(t)
    ensures Post(env).response == Response(500, ErrorBody(MessageOr(t, "Failed to transcribe audio")))
    ensures UnlinkCount(Post(env).effects) == 2
  {
    StagedFileUnlinked(env);
  }

  /** Whichever step throws an `Error` with an empty message first, the 500 carries an empty message. */
  lemma EmptyErrorMessageGivesEmpty500(env: Env)
    requires !LacksFile(env) && FirstThrow(StepsInOrder(env)) == Some(ErrorValue(""))
    ensures Post(env).response == Response(500, ErrorBody(""))
  {
    FailureReportsFirstThrow(env);
  }

  /** Whether the last unlink attempt of a run that wrote its file succeeds. */
  predicate LastUnlinkSucceeds(env: Env)
  {
    if EngineSucceeds(env) && env.unlinkAfterSuccess.Done? then true else env.unlinkInCatch.Done?
  }

  /** A staged file outlives the request exactly when it was written and the last unlink attempt failed. */
  lemma LeftoverAfterRun(env: Env)
    ensures Leftover(Post(env).effects)
      == if Stages(env) && env.write.Done? && !LastUnlinkSucceeds(env) then {StagedPath(env)} else {}
  {
    if Stages(env) {
      StagedTrace(env);
      var p := StagedPath(env);
      var w, c := [WriteTemp(p, env.write)], [CallEngine(EngineCall(p))];
      var u, k := [Unlink(p, env.unlinkAfterSuccess)], [Unlink(p, env.unlinkInCatch)];
      var afterW := Apply({}, w[0]);
      ReplaySingleton({}, w[0]);
      ReplaySingleton(afterW, c[0]);
      ReplaySingleton(afterW, k[0]);
      ReplaySingleton(afterW, u[0]);
      ReplaySingleton(Apply(afterW, u[0]), k[0]);
      ReplayAppend({}, w, k);
      ReplayAppend({}, w, c);
      ReplayAppend({}, w + c, k);
      ReplayAppend({}, w + c, u);
      ReplayAppend({}, w + c + u, k);
    } else {
      NoUnlinkBeforeStaging(env);
    }
  }
}
