/**
 * The module-level `audioContext` singleton: created on first request,
 * resumed when suspended, dropped on close. Contexts are given identities in
 * creation order so that "the same instance" can be stated.
 */
module AudioContextSingleton {
  import opened Outcomes

  const NotInBrowser := "Audio Context is only available in the browser"
  const NotSupported := "AudioContext is not supported in this browser"

  datatype ContextState = Suspended | Running | Closed

  datatype Context = Context(id: nat, state: ContextState)

  /** The module variable, and how many contexts have been constructed so far. */
  datatype Singleton = Singleton(current: Option<Context>, constructed: nat)

  /** What `window.AudioContext || window.webkitAudioContext` offers, and how `new` on it settles. */
  datatype Constructor = Unavailable | Constructs(initial: ContextState) | ConstructorThrows(thrown: Thrown)

  /** The browser as one call of `getAudioContext` sees it. */
  datatype Env = Env(inBrowser: bool, ctor: Constructor, resume: Step)

  datatype Outcome = Returned(context: Context) | Rejected(thrown: Thrown)

  datatype Call = Call(outcome: Outcome, after: Singleton)

  const Initial := Singleton(None, 0)

  /**
   * Stores `c` as the singleton and resumes it when it is suspended; a failing
   * `resume()` is rethrown unchanged, with `c` still stored.
   */
  function ResumeIfSuspended(c: Context, s: Singleton, resume: Step): (call: Call)
    ensures c.state != Suspended ==> call == Call(Returned(c), s.(current := Some(c)))
    ensures c.state == Suspended && resume == Done ==>
      call == Call(Returned(Context(c.id, Running)), s.(current := Some(Context(c.id, Running))))
    ensures c.state == Suspended && resume.Throws? ==>
      call == Call(Rejected(resume.thrown), s.(current := Some(c)))
  {
    if c.state != Suspended then Call(Returned(c), s.(current := Some(c)))
    else
      match resume
      case Done =>
        var resumed := c.(state := Running);
        Call(Returned(resumed), s.(current := Some(resumed)))
      case Throws(t) => Call(Rejected(t), s.(current := Some(c)))
  }

  function GetAudioContext(s: Singleton, env: Env): (call: Call)
    ensures !env.inBrowser ==> call == Call(Rejected(ErrorValue("Audio Context is only available in the browser")), s)
    ensures call.outcome.Returned? ==>
      call.after.current == Some(call.outcome.context) && call.outcome.context.state != Suspended
    ensures s.current.Some? ==> call.after.constructed == s.constructed
    ensures s.current.Some? && env.inBrowser ==> call.after.current.Some? && call.after.current.value.id == s.current.value.id
    ensures env.inBrowser && s.current.Some? && s.current.value.state != Suspended ==>
      call == Call(Returned(s.current.value), s)
    ensures env.inBrowser && s.current.Some? && s.current.value.state == Suspended && env.resume == Done ==>
      var resumed := Context(s.current.value.id, Running);
      call == Call(Returned(resumed), s.(current := Some(resumed)))
    ensures env.inBrowser && s.current.Some? && s.current.value.state == Suspended && env.resume.Throws? ==>
      call == Call(Rejected(env.resume.thrown), s)
    ensures env.inBrowser && s.current.None? && env.ctor.Constructs? ==>
      && call.after.constructed == s.constructed + 1
      && call.after.current.Some? && call.after.current.value.id == s.constructed
      && (env.ctor.initial != Suspended || env.resume == Done ==> call.outcome.Returned?)
      && (env.ctor.initial == Suspended && env.resume.Throws? ==> call.outcome == Rejected(env.resume.thrown))
    ensures env.inBrowser && s.current.None? && env.ctor.Constructs? && env.ctor.initial != Suspended ==>
      var built := Context(s.constructed, env.ctor.initial);
      call == Call(Returned(built), Singleton(Some(built), s.constructed + 1))
    ensures env.inBrowser && s.current.None? && env.ctor == Constructs(Suspended) && env.resume == Done ==>
      var resumed := Context(s.constructed, Running);
      call == Call(Returned(resumed), Singleton(Some(resumed), s.constructed + 1))
    ensures env.inBrowser && s.current.None? && env.ctor == Constructs(Suspended) && env.resume.Throws? ==>
      call == Call(Rejected(env.resume.thrown), Singleton(Some(Context(s.constructed, Suspended)), s.constructed + 1))
    ensures s.current.None? && !env.ctor.Constructs? ==> call.after == s && call.outcome.Rejected?
    ensures env.inBrowser && s.current.None? && env.ctor.Unavailable? ==>
      call.outcome == Rejected(ErrorValue("AudioContext is not supported in this browser"))
    ensures env.inBrowser && s.current.None? && env.ctor.ConstructorThrows? ==>
      call == Call(Rejected(env.ctor.thrown), s)
  {
    if !env.inBrowser then Call(Rejected(ErrorValue(NotInBrowser)), s)
    else if s.current.Some? then ResumeIfSuspended(s.current.value, s, env.resume)
    else
      match env.ctor
      case Unavailable => Call(Rejected(ErrorValue(NotSupported)), s)
      case ConstructorThrows(t) => Call(Rejected(t), s)
      case Constructs(initial) =>
        ResumeIfSuspended(Context(s.constructed, initial), s.(constructed := s.constructed + 1), env.resume)
  }

  /**
   * The held instance changing state behind the module's back: a caller
   * suspending or closing the context it was handed, or the browser suspending
   * it. `state` is read live, so the next call and the availability check see it.
   */
  function StateChanged(s: Singleton, state: ContextState): (r: Singleton)
    ensures s.current.None? ==> r == s
    ensures s.current.Some? ==> r.current == Some(Context(s.current.value.id, state))
    ensures r.constructed == s.constructed
  {
    if s.current.Some? then s.(current := Some(s.current.value.(state := state))) else s
  }

  function CloseAudioContext(s: Singleton): (r: Singleton)
    ensures r.current.None? && r.constructed == s.constructed
    ensures s.current.None? ==> r == s
  {
    if s.current.Some? then s.(current := None) else s
  }

  function IsAudioContextAvailable(s: Singleton): (available: bool)
    ensures available <==> exists c :: s.current == Some(c) && c.state == Running
  {
    s.current.Some? && s.current.value.state == Running
  }

  // ---------------------------------------------------------------------------
  // Properties

  /** Every held context was constructed earlier, so a context built later has a new identity. */
  predicate Valid(s: Singleton)
  {
    s.current.Some? ==> s.current.value.id < s.constructed
  }

  lemma OperationsPreserveValid(s: Singleton, env: Env)
    requires Valid(s)
    ensures Valid(GetAudioContext(s, env).after)
    ensures Valid(CloseAudioContext(s))
    ensures forall state :: Valid(StateChanged(s, state))
  {
  }

  /** Once a call has returned a context, later calls return that same instance without constructing another. */
  lemma RepeatedCallsShareInstance(s: Singleton, first: Env, second: Env)
    requires GetAudioContext(s, first).outcome.Returned?
    requires second.inBrowser
    ensures var s1 := GetAudioContext(s, first).after;
      var again := GetAudioContext(s1, second);
      && again.after.constructed == s1.constructed
      && (again.outcome.Returned? ==> again.outcome.context.id == GetAudioContext(s, first).outcome.context.id)
  {
  }

  /** A context handed out is never suspended, and if it is running the availability check agrees. */
  lemma ReturnedContextIsUsable(s: Singleton, env: Env)
    requires GetAudioContext(s, env).outcome.Returned?
    ensures GetAudioContext(s, env).outcome.context.state != Suspended
    ensures IsAudioContextAvailable(GetAudioContext(s, env).after)
      <==> GetAudioContext(s, env).outcome.context.state == Running
  {
  }

  /** Closing is idempotent, leaves nothing available, and the next successful call builds a fresh context. */
  lemma CloseThenGetBuildsFresh(s: Singleton, env: Env)
    requires Valid(s) && s.current.Some?
    requires env.inBrowser && env.ctor.Constructs?
    ensures CloseAudioContext(CloseAudioContext(s)) == CloseAudioContext(s)
    ensures !IsAudioContextAvailable(CloseAudioContext(s))
    ensures var call := GetAudioContext(CloseAudioContext(s), env);
      call.after.current.Some? && call.after.current.value.id != s.current.value.id
  {
  }

  /** A held context the browser suspended is resumed, as the same instance, by the next call. */
  lemma SuspendedInstanceResumedByNextCall(s: Singleton, env: Env)
    requires s.current.Some? && env.inBrowser && env.resume == Done
    ensures var call := GetAudioContext(StateChanged(s, Suspended), env);
      && call.outcome == Returned(Context(s.current.value.id, Running))
      && IsAudioContextAvailable(call.after)
  {
  }

  /**
   * A context closed by a caller stays held: it is not available, yet the next
   * call hands the same closed instance back and constructs nothing.
   */
  lemma ClosedInstanceStillReturned(s: Singleton, env: Env)
    requires s.current.Some? && env.inBrowser
    ensures !IsAudioContextAvailable(StateChanged(s, Closed))
    ensures var call := GetAudioContext(StateChanged(s, Closed), env);
      && call.outcome == Returned(Context(s.current.value.id, Closed))
      && call.after.constructed == s.constructed
  {
  }
}
