# Pneumonia model service, modelled in Dafny

This project models the `PneumoniaModel` service of the pneumonia-detection web app. The service loads an image-classification model in the browser. It reports whether that model is ready. It turns the model's raw score for a chest X-ray into a `DetectionResult`. Whenever the model is unavailable or inference throws, it falls back to a random mock result.

Modules:

- `Detection` (detection.dfy): the result type of src/types/index.ts. It holds the class (`Pneumonia` or `Normal`), the confidence, and an optional heatmap. It also defines the probability a raw score assigns to each class.
- `Lifecycle` (lifecycle.dfy): the state machine over the three fields `model`, `isLoading` and `loadError`, written as pure functions.
  - `loadModel` is asynchronous, so it is split in two. `BeginLoad` is the guard plus `isLoading = true`. `FinishLoad` is the continuation once the awaited load settles.
  - The environment is a trace of `Event`s: nothing happens, `loadModel` is called again, or the pending load settles with an outcome.
  - `isModelReady`'s 100 ms polling wait takes one event per interval.
  - Lemmas cover the invariant, held models being final, load accounting, idempotency of overlapping calls, a fresh load after a failure, and the readiness answers.
- `Inference` (inference.dfy): score decoding, the fallback `mockPrediction`, and the decision tree of `predict` once readiness is known.
- `ModelService` (model_service.dfy): the class `PneumoniaModel`. It has the three fields and the methods `BeginLoad`, `FinishLoad`, `LoadModel`, `Step`, `IsModelReady` (with its polling loop) and `Predict`.
  - Each method's `ensures` ties its new state and its result to the `Lifecycle` and `Inference` functions.
  - Three client scenario methods show what callers can conclude from those contracts alone.

External inputs are parameters:

- the outcome of `tf.loadLayersModel` (`LoadOutcome`: a model handle, a thrown `Error` with its message, or some other thrown value);
- the outcome of preprocessing plus inference (`InferenceOutcome`: the first output value, or an exception);
- the two `Math.random()` draws of the fallback (reals, in `[0, 1)` where a lemma needs it);
- the events that happen during each polling interval.

A wait that has not ended when its event trace ends returns `None`. The source has no timeout, so it would simply keep waiting.

Three behaviours of the code that the model keeps:

- A failed load is not terminal for the class: the guard at src/services/modelService.ts:15 ignores `loadError`, so a later `loadModel` call starts a fresh load (`Lifecycle.FailedLoadIsRetried`). Nothing in the repository makes such a call (the constructor at src/services/modelService.ts:11 is the only call site), so in the app a failure stays and every `isModelReady` answers false.
- The code never clears `loadError`; along every trace a recorded error stays recorded (`Lifecycle.ErrorPersists`).
  - After a later successful call, the service holds a model and a stale error, and `isModelReady` answers true (`Lifecycle.SuccessfulRetryKeepsStaleError`).
  - While a later call's load is in flight, `isModelReady` answers false at once instead of waiting (`Lifecycle.StaleErrorAnswersFalseDuringRetry`).
- Tensor disposal is partial. src/services/modelService.ts:87 frees only `processedImage` and `predictions`, and only on the success path. The intermediate tensors of `preprocessImage` (src/services/modelService.ts:53-62: the `fromPixels` result, the resized tensor, `grayscale`, `tf.scalar(255)` and `normalized`) are freed on no path. Tensor memory is not modelled (see below).

## Model

| member | source | states |
|---|---|---|
| Lifecycle.BeginLoad | src/services/modelService.ts:15-17 | when neither a model is held nor a load is in progress, only `isLoading` becomes true; otherwise nothing changes |
| Lifecycle.FinishLoad | src/services/modelService.ts:18-29 | afterwards `isLoading` is false; success stores the handle and leaves `loadError` alone; failure leaves `model` alone and stores the recorded error (the thrown message, or "Unknown error loading model") |
| Lifecycle.LoadModel | src/services/modelService.ts:14-30 | a whole call is a no-op under the guard; otherwise it ends not loading, with the handle stored and the error untouched, or with no model and the recorded error (the thrown message, or "Unknown error loading model") |
| Lifecycle.LoadModelIsCallThenSettle | src/services/modelService.ts:14-30 | with no load pending, an undisturbed call equals a call event followed by the settle of its load |
| Lifecycle.RunKeepsInv | src/services/modelService.ts:15-29 | every event trace keeps "no load in progress while a model is held" |
| Lifecycle.HeldModelIsFinal | src/services/modelService.ts:15 | once a model is held, no event trace changes any field, a stale error included |
| Lifecycle.LoadAccounting | src/services/modelService.ts:15-29 | loads started plus one pending at the start equal loads settled plus one pending at the end, so at most one load is ever in flight |
| Lifecycle.ClosedGuardStartsNothing | src/services/modelService.ts:15 | once the guard is closed, any number of further calls start no load |
| Lifecycle.ConcurrentCallsStartOneLoad | src/services/modelService.ts:15-17 | n >= 1 overlapping calls start exactly one load when the guard is open, and none otherwise |
| Lifecycle.FailedLoadIsRetried | src/services/modelService.ts:15 | after a failed load the guard is open again, and the next call starts a fresh load |
| Lifecycle.ReadinessCheck | src/services/modelService.ts:33-35 | an immediate answer is exactly "a model is held"; the call waits exactly when there is no model, no error and a load in progress |
| Lifecycle.AfterWait | src/services/modelService.ts:37-46 | the wait leaves a load in progress only if one was in progress when it began and no settle event occurred during it |
| Lifecycle.WaitEndsAtFirstSettle | src/services/modelService.ts:37-46 | the wait ends at the first settle event; events before it change nothing, and the state left is that settle's result |
| Lifecycle.WaitWithoutSettleNeverEnds | src/services/modelService.ts:37-46 | without a settle event a wait that began while loading never ends: no premature answer |
| Lifecycle.IsModelReady | src/services/modelService.ts:32-49 | every answer is exactly "a model is held" at the time of answering; no answer means still loading; immediate cases leave the state alone; an answer after the wait comes only once loading has stopped |
| Lifecycle.WaitAnswersWithLoadOutcome | src/services/modelService.ts:35-48 | when the pending load settles during the wait, the answer is exactly whether that load produced a model |
| Lifecycle.StaleErrorAnswersFalseDuringRetry | src/services/modelService.ts:34 | after a failure and with a later call's load still in flight, the answer is false at once |
| Lifecycle.ErrorPersists | src/services/modelService.ts:15-29 | once `loadError` is set, no event trace clears it |
| Lifecycle.SuccessfulRetryKeepsStaleError | src/services/modelService.ts:21-33 | after a failure and a later successful call, the model is held, the old error remains, and the answer is true |
| Inference.Decode | src/services/modelService.ts:91-96 | PNEUMONIA iff score > 0.5; the confidence is the predicted class's probability and at least the other class's; no heatmap |
| Inference.DecodeConfidenceIsMax | src/services/modelService.ts:95 | the confidence is max(s, 1 - s), hence at least 0.5 |
| Inference.DecodeConfidenceRange | src/services/modelService.ts:95 | a score in [0, 1] yields a confidence in [0.5, 1] |
| Inference.DecodeAtThreshold | src/services/modelService.ts:94-95 | a score of 0.5 is NORMAL with confidence 0.5 |
| Inference.DecodeIsTheDescription | src/services/modelService.ts:94-95 | a result is the decoded one iff it names the more probable class (NORMAL on a tie), with that class's probability and no heatmap |
| Inference.DecodeHighScore | src/services/modelService.ts:94-95 | 0.82 decodes to PNEUMONIA with confidence 0.82 |
| Inference.DecodeLowScore | src/services/modelService.ts:94-95 | 0.10 decodes to NORMAL with confidence 0.90 |
| Inference.MockPrediction | src/services/modelService.ts:104-113 | PNEUMONIA iff the first draw > 0.5; a second draw in [0, 1) gives a confidence in [0.7, 0.95); no heatmap |
| Inference.MockConfidenceIncreasing | src/services/modelService.ts:107 | a larger second draw gives a strictly larger confidence |
| Inference.MockReachesEveryResult | src/services/modelService.ts:106-107 | every class and every confidence in [0.7, 0.95) comes from some draws in [0, 1) |
| Inference.MockWellFormed | src/services/modelService.ts:107-112 | the fallback confidence is a probability |
| Inference.Decide | src/services/modelService.ts:71-99 | the fallback exactly when the model is not ready or absent or inference throws; the decoded score otherwise |
| Inference.DecideWellFormed | src/services/modelService.ts:68-101 | with draws in [0, 1) and a score in [0, 1], every branch yields a well-formed result with confidence at least 0.5 |
| ModelService.PneumoniaModel.constructor | src/services/modelService.ts:6-8 | starts with no model, not loading, no error |
| ModelService.PneumoniaModel.BeginLoad | src/services/modelService.ts:15-17 | reports whether the guard let the call through; the new state is `Lifecycle.BeginLoad` of the old |
| ModelService.PneumoniaModel.FinishLoad | src/services/modelService.ts:18-29 | the new state is `Lifecycle.FinishLoad` of the old |
| ModelService.PneumoniaModel.LoadModel | src/services/modelService.ts:14-30 | a no-op under the guard; otherwise ends not loading, with the handle stored and `loadError` untouched, or with no model and the recorded error |
| ModelService.PneumoniaModel.Step | src/services/modelService.ts:14-29 | one environment event changes the fields as `Lifecycle.Step` does |
| ModelService.PneumoniaModel.IsModelReady | src/services/modelService.ts:32-49 | the answer and the state it leaves are those of `Lifecycle.IsModelReady`; the polling loop consumes events until `isLoading` is false |
| ModelService.PneumoniaModel.Predict | src/services/modelService.ts:68-101 | waits as `IsModelReady` does, then returns `Inference.Decide` of the answer, the held model and the inference outcome; no error escapes |
| ModelService.ScenarioLoadSucceeds | src/services/modelService.ts:68-96 | after a successful load, a score of 0.82 yields PNEUMONIA with confidence 0.82 |
| ModelService.ScenarioLoadFails | src/services/modelService.ts:23-34 | after a failed load, readiness is false and `predict` returns the fallback, whatever inference would give |
| ModelService.ScenarioPredictDuringLoad | src/services/modelService.ts:15-48 | a second call during a load starts nothing; a `predict` issued meanwhile waits and then uses the model |

## Left out

- `preprocessImage` (src/services/modelService.ts:51-66), `this.model.predict`, `predictions.data()` and `tf.dispose` are tfjs calls. Together they are one `InferenceOutcome`: a score or an exception. Tensor shapes and values are not modelled. The score is the first output value, which src/services/modelService.ts:91 reads as `pneumoniaScore`; the comment at src/services/modelService.ts:90 says index 0 is NORMAL and index 1 is PNEUMONIA, so the code and its comment disagree, and the model follows the code.
- Tensor disposal: src/services/modelService.ts:87 frees `processedImage` and `predictions` on the success path only. A throw at `predictions.data()` (src/services/modelService.ts:84) leaves both allocated; a throw at `this.model.predict` (src/services/modelService.ts:81) leaves `processedImage` allocated, since `predictions` is never assigned; a throw inside `preprocessImage` leaves only its intermediates. The tensors created at src/services/modelService.ts:53-62 (the `fromPixels` result, the resized tensor, `grayscale`, `tf.scalar(255)`, `normalized`) are never freed. Memory is not part of the model.
- Timing of the asynchronous wait: the 100 ms `setTimeout` in `isModelReady` is one `Event` per polling interval. That granularity does not cover several events inside one interval, such as a settle followed by a new `loadModel` call before the next poll.
- Promises and the event loop: the model has no concurrency of its own. An interleaving is an event trace. `predict`'s `await` of `isModelReady` runs its wait inline.
- Inference.MockPrediction: the draws are parameters, so the uniform distributions of `Math.random()` are not modelled. The property that both classes occur over many calls appears only as reachability (`MockReachesEveryResult`).
- Floating point: scores and confidences are reals. IEEE rounding, NaN scores and the `Math.round(confidence * 100)` display (src/components/Results.tsx:16) are not modelled.
- Console logging throughout the service.
- The module-level singleton (src/services/modelService.ts:117) and the constructor's kick-off load (src/services/modelService.ts:10-12). The modelled constructor only sets the field initialisers; callers start a load explicitly.
- The `useModelStatus` hook (src/hooks/useModelStatus.tsx) is React state plus `setTimeout` re-polling. Note that it re-polls whenever `isReady` is false, including after a failed load (src/hooks/useModelStatus.tsx:22-25), so it keeps polling after a failure for as long as the component stays mounted (the reschedule sits inside the `isMounted` check at src/hooks/useModelStatus.tsx:18, which the cleanup at src/hooks/useModelStatus.tsx:37-39 clears).
- `analyzeLungImage` and `fileToDataUrl` (src/services/imageService.ts) are a delayed copy of the mock logic and `FileReader` I/O.
- The React components, pages and route guard are presentation, navigation and `localStorage` handling.
