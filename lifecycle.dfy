/**
 The model-lifecycle state machine of `PneumoniaModel`
 (src/services/modelService.ts:6-49) as pure functions over its three fields.

 `loadModel` is asynchronous: the guard and `isLoading = true` run at once,
 and the rest runs later, when the awaited load settles. The model therefore
 has two steps, `BeginLoad` and `FinishLoad`. Whatever else happens
 meanwhile is an `Event` of the environment. A trace of events drives the
 state, and `isModelReady`'s polling wait consumes one event per interval.
 */
module Lifecycle {
  import opened Detection

  /** Identity of a loaded model (the tfjs LayersModel object). */
  datatype ModelHandle = ModelHandle(id: nat)

  /** The Error object kept in `loadError`. */
  datatype LoadError = LoadError(message: string)

  /** What the awaited model load produced: a model, a thrown Error, or some other thrown value. */
  datatype LoadOutcome = Loaded(handle: ModelHandle) | ThrewError(message: string) | ThrewOther

  /** The message of the Error that replaces a thrown value that is not an Error. */
  const UnknownLoadErrorMessage: string := "Unknown error loading model"

  /** The fields `model`, `isLoading` and `loadError`; `None` stands for null. */
  datatype ModelState = ModelState(model: Option<ModelHandle>, isLoading: bool, loadError: Option<LoadError>)

  /** The field initialisers: no model, not loading, no error. */
  const Initial: ModelState := ModelState(None, false, None)

  /** What can happen between two observations of the state:
      nothing, a call of `loadModel`, or the pending load settling. */
  datatype Event = Idle | CallLoadModel | LoadSettles(outcome: LoadOutcome)

  /** The negation of the early-return guard of `loadModel`; `loadError` is not consulted. */
  predicate LoadCanStart(s: ModelState)
  {
    s.model.None? && !s.isLoading
  }

  /** The error the catch block records. */
  function RecordedError(o: LoadOutcome): (e: LoadError)
    requires !o.Loaded?
  {
    if o.ThrewError? then LoadError(o.message) else LoadError(UnknownLoadErrorMessage)
  }

  /** The synchronous part of `loadModel`, up to the awaited load. */
  function BeginLoad(s: ModelState): (t: ModelState)
    ensures LoadCanStart(s) ==> t == s.(isLoading := true)
    ensures !LoadCanStart(s) ==> t == s
  {
    if LoadCanStart(s) then s.(isLoading := true) else s
  }

  /** The continuation of `loadModel` once the awaited load settled:
      the try, catch and finally blocks. */
  function FinishLoad(s: ModelState, o: LoadOutcome): (t: ModelState)
    ensures !t.isLoading
    ensures o.Loaded? ==> t.model == Some(o.handle) && t.loadError == s.loadError
    ensures !o.Loaded? ==> t.model == s.model && t.loadError == Some(RecordedError(o))
  {
    match o
    case Loaded(h) => s.(model := Some(h), isLoading := false)
    case _ => s.(loadError := Some(RecordedError(o)), isLoading := false)
  }

  /** One `loadModel` call during which nothing else happens. */
  function LoadModel(s: ModelState, o: LoadOutcome): (t: ModelState)
    ensures !LoadCanStart(s) ==> t == s
    ensures LoadCanStart(s) ==> !t.isLoading
    ensures LoadCanStart(s) && o.Loaded? ==> t.model == Some(o.handle) && t.loadError == s.loadError
    ensures LoadCanStart(s) && !o.Loaded? ==> t.model.None? && t.loadError == Some(RecordedError(o))
  {
    if LoadCanStart(s) then FinishLoad(BeginLoad(s), o) else s
  }

  /** The effect of one event. A settle event with no load pending has nothing to resume. */
  function Step(s: ModelState, e: Event): (t: ModelState)
  {
    match e
    case Idle => s
    case CallLoadModel => BeginLoad(s)
    case LoadSettles(o) => if s.isLoading then FinishLoad(s, o) else s
  }

  /** The state after a whole trace of events. */
  function Run(s: ModelState, evs: seq<Event>): (t: ModelState)
    decreases |evs|
  {
    if evs == [] then s else Run(Step(s, evs[0]), evs[1..])
  }

  /** With no load pending, an undisturbed `loadModel` call is a call event followed
      by the settle of the load it started. */
  lemma LoadModelIsCallThenSettle(s: ModelState, o: LoadOutcome)
    requires !s.isLoading
    ensures Run(s, [CallLoadModel, LoadSettles(o)]) == LoadModel(s, o)
  {
    var evs := [CallLoadModel, LoadSettles(o)];
    assert evs[1..] == [LoadSettles(o)];
    assert evs[1..][1..] == [];
    var t := Step(s, CallLoadModel);
    assert Run(s, evs) == Run(t, [LoadSettles(o)]);
    assert Run(t, [LoadSettles(o)]) == Step(t, LoadSettles(o));
  }

  /** Number of loads the trace starts (calls that pass the guard). */
  function LoadsStarted(s: ModelState, evs: seq<Event>): (n: nat)
    decreases |evs|
  {
    if evs == [] then 0
    else (if evs[0].CallLoadModel? && LoadCanStart(s) then 1 else 0) + LoadsStarted(Step(s, evs[0]), evs[1..])
  }

  /** Number of pending loads the trace settles. */
  function LoadsSettled(s: ModelState, evs: seq<Event>): (n: nat)
    decreases |evs|
  {
    if evs == [] then 0
    else (if evs[0].LoadSettles? && s.isLoading then 1 else 0) + LoadsSettled(Step(s, evs[0]), evs[1..])
  }

  /** The state invariant: no load is in progress while a model is held. */
  predicate Inv(s: ModelState)
  {
    s.isLoading ==> s.model.None?
  }

  /** Every trace keeps the invariant. */
  lemma {:induction false} RunKeepsInv(s: ModelState, evs: seq<Event>)
    requires Inv(s)
    ensures Inv(Run(s, evs))
    decreases |evs|
  {
    if evs != [] {
      RunKeepsInv(Step(s, evs[0]), evs[1..]);
    }
  }

  /** A held model is final: once `model` is set, no trace changes any field,
      a stale `loadError` included. */
  lemma {:induction false} HeldModelIsFinal(s: ModelState, evs: seq<Event>)
    requires Inv(s) && s.model.Some?
    ensures Run(s, evs) == s
    decreases |evs|
  {
    if evs != [] {
      HeldModelIsFinal(Step(s, evs[0]), evs[1..]);
    }
  }

  /** Load accounting: every load a trace starts is either settled in that
      trace or still in flight at its end, so at most one load is ever in flight. */
  lemma {:induction false} LoadAccounting(s: ModelState, evs: seq<Event>)
    ensures LoadsStarted(s, evs) + (if s.isLoading then 1 else 0)
         == LoadsSettled(s, evs) + (if Run(s, evs).isLoading then 1 else 0)
    decreases |evs|
  {
    if evs != [] {
      LoadAccounting(Step(s, evs[0]), evs[1..]);
    }
  }

  /** `n` calls of `loadModel` that overlap, with no load settling in between. */
  function ConcurrentCalls(n: nat): (evs: seq<Event>)
    ensures |evs| == n
    ensures forall i :: 0 <= i < n ==> evs[i] == CallLoadModel
  {
    seq(n, _ => CallLoadModel)
  }

  /** Once the guard is closed, further overlapping calls start nothing. */
  lemma {:induction false} ClosedGuardStartsNothing(s: ModelState, n: nat)
    requires !LoadCanStart(s)
    ensures LoadsStarted(s, ConcurrentCalls(n)) == 0
    decreases n
  {
    if n > 0 {
      var evs := ConcurrentCalls(n);
      assert evs[1..] == ConcurrentCalls(n - 1);
      ClosedGuardStartsNothing(Step(s, evs[0]), n - 1);
    }
  }

  /** Idempotency: any number of overlapping `loadModel` calls start exactly one load
      when the guard lets the first through, and none otherwise. */
  lemma ConcurrentCallsStartOneLoad(s: ModelState, n: nat)
    requires n >= 1
    ensures LoadsStarted(s, ConcurrentCalls(n)) == (if LoadCanStart(s) then 1 else 0)
  {
    var evs := ConcurrentCalls(n);
    assert evs[1..] == ConcurrentCalls(n - 1);
    ClosedGuardStartsNothing(Step(s, evs[0]), n - 1);
  }

  /** A failure is not terminal: because the guard ignores `loadError`, the next
      `loadModel` after a failed load starts a fresh load. */
  lemma FailedLoadIsRetried(s: ModelState, o: LoadOutcome)
    requires LoadCanStart(s) && !o.Loaded?
    ensures LoadCanStart(LoadModel(s, o))
    ensures LoadsStarted(LoadModel(s, o), [CallLoadModel]) == 1
    ensures Step(LoadModel(s, o), CallLoadModel).isLoading
  {
  }

  /** The first check of `isModelReady`: an answer at once, or the wait. */
  datatype Readiness = Immediate(ready: bool) | AwaitLoad

  /** The checks of `isModelReady` before its wait loop, in source order. */
  function ReadinessCheck(s: ModelState): (r: Readiness)
    ensures r.Immediate? ==> (r.ready <==> s.model.Some?)
    ensures r.AwaitLoad? <==> s.model.None? && s.loadError.None? && s.isLoading
  {
    if s.model.Some? then Immediate(true)
    else if s.loadError.Some? then Immediate(false)
    else if s.isLoading then AwaitLoad
    else Immediate(s.model.Some?)
  }

  /** The polling wait: one event per interval, until `isLoading` is seen false
      or the trace ends. A wait still loading at the end saw no settle event. */
  function AfterWait(s: ModelState, env: seq<Event>): (t: ModelState)
    ensures t.isLoading ==> s.isLoading && forall k :: 0 <= k < |env| ==> !env[k].LoadSettles?
    decreases |env|
  {
    if !s.isLoading || env == [] then s
    else
      var t := AfterWait(Step(s, env[0]), env[1..]);
      assert env == [env[0]] + env[1..];
      t
  }

  /** A wait that ends at the first settle event: events before it change
      nothing, and the state left is the settled one. */
  lemma {:induction false} WaitEndsAtFirstSettle(s: ModelState, env: seq<Event>, j: nat)
    requires s.isLoading
    requires j < |env| && env[j].LoadSettles?
    requires forall k :: 0 <= k < j ==> !env[k].LoadSettles?
    ensures AfterWait(s, env) == FinishLoad(s, env[j].outcome)
    decreases j
  {
    if j > 0 {
      assert !env[0].LoadSettles?;
      assert Step(s, env[0]) == s;
      WaitEndsAtFirstSettle(s, env[1..], j - 1);
    }
  }

  /** No premature answer: without a settle event the wait never ends. */
  lemma {:induction false} WaitWithoutSettleNeverEnds(s: ModelState, env: seq<Event>)
    requires s.isLoading
    requires forall k :: 0 <= k < |env| ==> !env[k].LoadSettles?
    ensures AfterWait(s, env) == s
    decreases |env|
  {
    if env != [] {
      assert Step(s, env[0]) == s;
      WaitWithoutSettleNeverEnds(s, env[1..]);
    }
  }

  /** Outcome of one `isModelReady` call: the answer (`None` while it is still
      waiting when the trace ends) and the state at that moment. */
  datatype ReadyQuery = ReadyQuery(answer: Option<bool>, after: ModelState)

  /** `isModelReady` over an environment trace. */
  function IsModelReady(s: ModelState, env: seq<Event>): (q: ReadyQuery)
    ensures q.answer.Some? ==> (q.answer.value <==> q.after.model.Some?)
    ensures q.answer.None? ==> q.after.isLoading && ReadinessCheck(s).AwaitLoad?
    ensures ReadinessCheck(s).Immediate? ==> q == ReadyQuery(Some(ReadinessCheck(s).ready), s)
    ensures ReadinessCheck(s).AwaitLoad? && q.answer.Some? ==> !q.after.isLoading
  {
    match ReadinessCheck(s)
    case Immediate(b) => ReadyQuery(Some(b), s)
    case AwaitLoad =>
      var t := AfterWait(s, env);
      if t.isLoading then ReadyQuery(None, t) else ReadyQuery(Some(t.model.Some?), t)
  }

  /** When the only pending load settles during the wait, `isModelReady` answers
      exactly whether that load produced a model. */
  lemma WaitAnswersWithLoadOutcome(s: ModelState, env: seq<Event>, j: nat)
    requires s.model.None? && s.loadError.None? && s.isLoading
    requires j < |env| && env[j].LoadSettles?
    requires forall k :: 0 <= k < j ==> !env[k].LoadSettles?
    ensures IsModelReady(s, env).answer == Some(env[j].outcome.Loaded?)
    ensures IsModelReady(s, env).after == FinishLoad(s, env[j].outcome)
  {
    WaitEndsAtFirstSettle(s, env, j);
  }

  /** A stale error answers false at once, even while a later call's load is in flight. */
  lemma StaleErrorAnswersFalseDuringRetry(o: LoadOutcome, env: seq<Event>)
    requires !o.Loaded?
    ensures var s := Step(LoadModel(Initial, o), CallLoadModel);
      s.isLoading && IsModelReady(s, env) == ReadyQuery(Some(false), s)
  {
  }

  /** A later successful call leaves the earlier error in place, and `isModelReady`
      still answers true because it checks `model` first. */
  lemma SuccessfulRetryKeepsStaleError(o: LoadOutcome, h: ModelHandle, env: seq<Event>)
    requires !o.Loaded?
    ensures var s := LoadModel(LoadModel(Initial, o), Loaded(h));
      s.model == Some(h) && s.loadError == Some(RecordedError(o)) && IsModelReady(s, env).answer == Some(true)
  {
  }

  /** `loadError` is never cleared: once an error is recorded, it stays recorded
      along every trace, later successful calls included. */
  lemma {:induction false} ErrorPersists(s: ModelState, evs: seq<Event>)
    requires s.loadError.Some?
    ensures Run(s, evs).loadError.Some?
    decreases |evs|
  {
    if evs != [] {
      ErrorPersists(Step(s, evs[0]), evs[1..]);
    }
  }
}
