/**
 The `PneumoniaModel` class of src/services/modelService.ts: three fields
 updated in place, and methods whose new state and results are tied to the
 pure functions of `Lifecycle` and `Inference`. The environment of each
 asynchronous wait (what happens during each polling interval), the outcome
 of the awaited load, the outcome of preprocessing plus inference and the
 fallback's two random draws are parameters.
 */
module ModelService {
  import opened Detection
  import opened Lifecycle
  import opened Inference

  class PneumoniaModel {
    var model: Option<ModelHandle>
    var isLoading: bool
    var loadError: Option<LoadError>

    /** The three fields as a value. */
    function State(): (s: ModelState)
      reads this
    {
      ModelState(model, isLoading, loadError)
    }

    /** A fresh service: no model, not loading, no error. */
    constructor ()
      ensures State() == Initial
    {
      model := None;
      isLoading := false;
      loadError := None;
    }

    /** `loadModel` up to its await: the guard, then `isLoading = true`.
        Reports whether a load was started. */
    method BeginLoad() returns (started: bool)
      modifies this
      ensures started == LoadCanStart(old(State()))
      ensures State() == Lifecycle.BeginLoad(old(State()))
    {
      if model.Some? || isLoading {
        return false;
      }
      isLoading := true;
      return true;
    }

    /** `loadModel` after its await: store the model or the error, then clear `isLoading`. */
    method FinishLoad(outcome: LoadOutcome)
      requires isLoading
      modifies this
      ensures State() == Lifecycle.FinishLoad(old(State()), outcome)
    {
      match outcome {
        case Loaded(h) =>
          model := Some(h);
        case _ =>
          loadError := Some(RecordedError(outcome));
      }
      isLoading := false;
    }

    /** A whole `loadModel` call during which nothing else happens. */
    method LoadModel(outcome: LoadOutcome)
      modifies this
      ensures State() == Lifecycle.LoadModel(old(State()), outcome)
      ensures !LoadCanStart(old(State())) ==> State() == old(State())
      ensures LoadCanStart(old(State())) ==> !isLoading
      ensures LoadCanStart(old(State())) && outcome.Loaded? ==>
                model == Some(outcome.handle) && loadError == old(loadError)
      ensures LoadCanStart(old(State())) && !outcome.Loaded? ==>
                model.None? && loadError == Some(RecordedError(outcome))
    {
      var started := BeginLoad();
      if started {
        FinishLoad(outcome);
      }
    }

    /** One event of the environment. */
    method Step(e: Event)
      modifies this
      ensures State() == Lifecycle.Step(old(State()), e)
    {
      match e {
        case Idle =>
        case CallLoadModel =>
          var _ := BeginLoad();
        case LoadSettles(o) =>
          if isLoading {
            FinishLoad(o);
          }
      }
    }

    /** `isModelReady`: answer from `model`, then from `loadError`; while a load is
        in progress, poll `isLoading` once per interval, `env[i]` happening during
        interval `i`. `None` means the trace ended while it was still waiting. */
    method IsModelReady(env: seq<Event>) returns (ready: Option<bool>)
      modifies this
      ensures ReadyQuery(ready, State()) == Lifecycle.IsModelReady(old(State()), env)
    {
      if model.Some? {
        return Some(true);
      }
      if loadError.Some? {
        return Some(false);
      }
      if isLoading {
        var i := 0;
        while isLoading && i < |env|
          invariant 0 <= i <= |env|
          invariant AfterWait(State(), env[i..]) == AfterWait(old(State()), env)
          decreases |env| - i
        {
          Step(env[i]);
          i := i + 1;
        }
        if isLoading {
          return None;
        }
      }
      return Some(model.Some?);
    }

    /** `predict`: wait for readiness, then fall back to the mock when the model is not
        ready or absent, or when preprocessing or inference throws; otherwise decode
        the score. `None` means the readiness wait had not ended when the trace did. */
    method Predict(env: seq<Event>, inference: InferenceOutcome, r1: real, r2: real)
      returns (res: Option<DetectionResult>)
      modifies this
      ensures var q := Lifecycle.IsModelReady(old(State()), env);
        && State() == q.after
        && (q.answer.None? ==> res.None?)
        && (q.answer.Some? ==> res == Some(Decide(q.answer.value, q.after.model.Some?, inference, r1, r2)))
    {
      var isReady := IsModelReady(env);
      if isReady.None? {
        return None;
      }
      if !isReady.value || model.None? {
        return Some(MockPrediction(r1, r2));
      }
      match inference {
        case Threw =>
          return Some(MockPrediction(r1, r2));
        case Score(s) =>
          return Some(Decode(s));
      }
    }
  }

  /** A load that succeeds and a score of 0.82 give PNEUMONIA with confidence 0.82. */
  method ScenarioLoadSucceeds(h: ModelHandle, r1: real, r2: real) returns (res: Option<DetectionResult>)
    ensures res == Some(DetectionResult(Pneumonia, 0.82, None))
  {
    var service := new PneumoniaModel();
    service.LoadModel(Loaded(h));
    res := service.Predict([], Score(0.82), r1, r2);
  }

  /** A load that fails: `isModelReady` answers false and `predict` still
      returns the fallback result, whatever the model would have scored. */
  method ScenarioLoadFails(o: LoadOutcome, inference: InferenceOutcome, r1: real, r2: real)
    returns (ready: Option<bool>, res: Option<DetectionResult>)
    requires !o.Loaded?
    ensures ready == Some(false)
    ensures res == Some(MockPrediction(r1, r2))
  {
    var service := new PneumoniaModel();
    service.LoadModel(o);
    ready := service.IsModelReady([]);
    res := service.Predict([], inference, r1, r2);
  }

  /** A second `loadModel` while the first is in flight starts nothing; a `predict`
      issued meanwhile waits through idle intervals and uses the model once it lands. */
  method ScenarioPredictDuringLoad(h: ModelHandle, r1: real, r2: real)
    returns (first: bool, second: bool, res: Option<DetectionResult>)
    ensures first && !second
    ensures res == Some(DetectionResult(Normal, 0.9, None))
  {
    var service := new PneumoniaModel();
    first := service.BeginLoad();
    second := service.BeginLoad();
    var env := [Idle, CallLoadModel, LoadSettles(Loaded(h))];
    WaitAnswersWithLoadOutcome(service.State(), env, 2);
    res := service.Predict(env, Score(0.1), r1, r2);
  }
}
