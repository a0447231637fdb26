# Fruit-inspection coordinator: trigger state machine and scan orchestration

This project models the decision logic of the coordinator of a fruit-inspection line. It has three parts.

- **The weight-triggered scan state machine** (`WeightStateMachine`).
  - It keeps a time window of weight readings and prunes old readings from the front.
  - It derives a stable weight from that window: the mean, when the window holds at least two readings whose spread is within the noise epsilon.
  - It runs an IDLE/ACTIVE machine. The machine requests a scan when a fruit settles on the scale, and again when the settled weight moves by a significant delta.
  - Every scan request is gated on a cooldown since the last one.
- **The scan orchestrator** (`BrainOrchestrator.execute_scan` and its helpers).
  - A scan captures an image and runs the primary fruit detector.
  - It filters the detections, first by box area and then by a per-class confidence threshold.
  - It decides by a three-reason priority rule whether to discard them and ask the fallback detector instead.
  - It analyses every kept detection for defects. A failed defect call gives an empty defect list; a failed crop drops the fruit.
  - It publishes the result to the UI, and to the main server when that is enabled.
- **The value types** shared by both: bounding boxes (which can be built from four-element lists), detections, defects, weight readings, camera capture responses and scan decisions, with the field bounds their validators enforce.

Modelling choices:
- Weights and thresholds are `real`. Timestamps are `int` milliseconds.
- The state machine is a pure function from a state record and a reading to a new record and a decision.
- Each collaborator's answer is an input that may be a `Failure`: the camera, the image download and decode, the primary and fallback detectors, and the per-fruit crop and defect call.

Modules, each in its own file:
- `Results`: `Option`, `Result`.
- `Numeric`: Python's `int()` truncation, `abs`, `min`/`max`, sum and mean over reals.
- `Seqs`: an order-preserving filter with its subsequence and multiplicity contract.
- `Settings`: the configuration record, its bounds and its defaults.
- `Common`: app/models/common.py.
- `StateMachine`: app/core/state_machine.py.
- `Orchestrator`: app/core/orchestrator.py.

Behaviours of the code that the model follows, some of which a reader might expect to be otherwise:

- **Stable weight.**
  - A window needs at least two readings; otherwise there is no stable weight.
  - A single reading never yields a stable weight, and an empty window yields none rather than 0.
- **Cooldown.**
  - The cooldown lives in the state machine (`_scan_interval_respected`).
  - The orchestrator has no cooldown or single-in-flight guard of its own.
  - The manual trigger calls `execute_scan` directly and bypasses both.
- **IDLE to ACTIVE.** The machine becomes ACTIVE on a heavy stable weight even when the cooldown blocks the scan.
- **Negative weights** are rejected by the reading's validator; they are not clamped to "below minimum".
- **Failed defect call.** The fruit keeps an empty defect list; no per-fruit error field exists.
- **Failed crop.** A crop that raises drops that fruit from the result. Crops are not clamped to the frame.
- **Boxes** are `x_min, y_min, x_max, y_max`. The validators do not enforce `min <= max`.
- **Empty detector response.** Under a weight at or above the minimum, an empty primary response sends the scan to the fallback detector. The scan is still published with no fruits when the filtered fallback response is empty too.
- **Scan weight.** The scan carries the grams of the single reading that triggered it, not the stable weight.
- **Publishing.** Both publish calls are awaited together, and a failing one is logged as a failed scan.

The orchestrator test's camera stub (tests/test_orchestrator.py:49) takes no argument, while `execute_scan` passes one. `Orchestrator.SinglePayloadScenario` models the scenario that test evidently intends.

## Model

| member | source | states |
|---|---|---|
| Numeric.Trunc | app/core/orchestrator.py:372 | `int()` on a float truncates toward zero: for non-negative input the result is the floor, for negative input the ceiling |
| Numeric.MaxOf | app/core/state_machine.py:72 | `max`: an element of the list that no element exceeds |
| Numeric.MinOf | app/core/state_machine.py:72 | `min`: an element of the list that exceeds no element |
| Numeric.TruncAtLeast | app/core/orchestrator.py:372-375 | for a whole bound of at least one, the truncated value reaches it exactly when the real value does |
| Numeric.Mean | app/core/state_machine.py:74 | the mean of a non-empty list lies between its minimum and its maximum |
| Numeric.SpreadIsPairwise | app/core/state_machine.py:72 | `max - min <= eps` holds exactly when every pair of values differs by at most eps |
| Seqs.FilterCompose | app/core/orchestrator.py:124-135 | filtering by one predicate and then by another equals one filter by their conjunction |
| Settings.DefaultConfig | app/config.py:31-67 | the default settings (30 g minimum, 20 g delta, 5 g epsilon, 400 ms window, 2000 ms cooldown, guard 0.30, area ratio 0.001, 100 g per fruit, apple/banana/tomato thresholds) satisfy the loader's bounds |
| Common.CoerceSequence | app/models/common.py:22-41 | strings, bytes, dictionaries and non-sequences pass through unchanged; a sequence fails unless it has exactly four elements, which map positionally to x_min, y_min, x_max, y_max |
| Common.ParseBox | app/models/common.py:17-41 | a parsed box meets the field bounds; a sequence of the wrong length and a string, bytes, number or null are rejected; a four-element list yields its elements in order |
| Common.ParseBoxItemsRoundTrip | app/models/common.py:17-40 | a box written as a four-element list parses back to itself exactly when it meets the field bounds, and fails with the bounds error otherwise |
| Common.ParseBoxListMatchesDict | app/models/common.py:29-40 | the list form and the dictionary form of the same four values give the same outcome |
| Common.InvertedBoxAccepted | app/models/common.py:17-20 | a box with x_min greater than x_max is accepted: no ordering is enforced |
| Common.AsTuple | app/models/common.py:43-51 | for a box within bounds, every component c' of the integer tuple satisfies 0 <= c' <= c < c' + 1 |
| Common.ParseDetection | app/models/common.py:68-76 | a detection is built exactly when its confidence lies in [0, 1] and its box parses; every detection built is valid (confidence in [0, 1], box within the field bounds) |
| Common.ParseDetectionRoundTrip | app/models/common.py:68-76 | a detection whose box is sent as a four-element list is rebuilt as itself exactly when it is valid |
| Common.ParseDefect | app/models/common.py:60-65 | a defect is built exactly when its confidence lies in [0, 1], keeping its type and confidence |
| Common.BuiltDefectsValid | app/models/common.py:60-65 | a defect list whose every entry can be built from its own fields has every confidence in [0, 1], the premise `Orchestrator.AnalyzedDefectsValid` needs |
| Common.ParseReading | app/models/common.py:94-98 | a weight reading is built exactly when its grams are non-negative, keeping grams and timestamp |
| Common.ResolvedPath | app/models/common.py:146-153 | a non-empty image path wins, then a non-empty URL; it fails exactly when neither is given; a result is never empty |
| Common.TransitionLabel | app/models/common.py:113 | the label is one of the three literals, and "NONE" exactly for no state change |
| Common.DefaultDecision | app/models/common.py:108-113 | a decision built from a state alone requests no scan, and its label is the field's default literal "NONE" |
| StateMachine.Prune | app/core/state_machine.py:63-66 | the pruned window is a suffix of the history; every dropped reading is older than the window and the first kept one is not |
| StateMachine.PruneKeepsNewest | app/core/state_machine.py:30-31 | with a non-negative window, the reading just appended (stamped "now") survives pruning as the last element |
| StateMachine.StableWeight | app/core/state_machine.py:68-74 | a stable weight exists exactly when the window holds at least two readings that pairwise differ by at most the noise epsilon |
| StateMachine.StableWeightNearReadings | app/core/state_machine.py:68-74 | the stable weight lies between the window's lightest and heaviest reading, so within epsilon of each reading |
| StateMachine.StableWeightNonNegative | app/core/state_machine.py:68-74 | a window of readings that could all be built (non-negative grams) never has a negative stable weight |
| StateMachine.SignificantDelta | app/core/state_machine.py:76-77 | the delta is significant exactly when the weight is at least `significant_delta` above or below the last scan's weight |
| StateMachine.CooldownStaysElapsed | app/core/state_machine.py:78-82 | with no scan recorded the cooldown never blocks, and once elapsed it stays elapsed at every later time |
| StateMachine.Process | app/core/state_machine.py:27-61 | the decision reports the new state; a scan request implies ACTIVE, an elapsed cooldown and a recorded scan time and weight; without a request the scan record is untouched; the label matches the state change; the new window is the pruned window ending with the reading |
| StateMachine.Decide | app/core/state_machine.py:33-61 | the same guarantees stated for a given window and stable weight |
| StateMachine.UnstableReadingIsNoOp | app/core/state_machine.py:33-35 | without a stable weight only the window changes, and the decision is the one built from the state alone (`DefaultDecision`) |
| StateMachine.IdleBelowMinimumIsNoOp | app/core/state_machine.py:37-61 | IDLE with a stable weight below the minimum changes only the window; no scan, no transition |
| StateMachine.IdleActivation | app/core/state_machine.py:40-43 | IDLE with a stable weight at or above the minimum becomes ACTIVE with IDLE->ACTIVE; a scan is requested exactly when the cooldown allows, and only then is it recorded |
| StateMachine.ActiveRelease | app/core/state_machine.py:45-48 | ACTIVE below the minimum returns to IDLE with ACTIVE->IDLE, no scan, scan record untouched |
| StateMachine.ActiveRetrigger | app/core/state_machine.py:49-52 | ACTIVE at or above the minimum stays ACTIVE, and rescans exactly when the weight moved by the significant delta and the cooldown elapsed, recording time and weight |
| StateMachine.ProcessConsecutiveScansSpaced | app/core/state_machine.py:78-89 | over any sequence of readings, two consecutive scan requests are at least `min_scan_interval_ms` apart |
| StateMachine.ProcessAllScansSpaced | app/core/state_machine.py:78-89 | with a non-negative cooldown, any two scan requests of a run are at least the cooldown apart |
| StateMachine.FirstScanRespectsCooldown | app/core/state_machine.py:78-89 | for any step that only scans once the cooldown since the recorded scan has elapsed, the first scan of a run is at least the cooldown after the scan the machine started with |
| StateMachine.ConsecutiveScansSpaced | app/core/state_machine.py:78-89 | for any such step, two consecutive scan requests of a run are at least the cooldown apart |
| StateMachine.AllScansSpaced | app/core/state_machine.py:78-89 | for any such step and a non-negative cooldown, any two scan requests of a run are at least the cooldown apart |
| StateMachine.ScanOnlyWhenActive | app/core/state_machine.py:40-61 | over any run, a decision that requests a scan reports ACTIVE |
| StateMachine.InitialTransitionTriggersScan | tests/test_state_machine.py:24-32 | 35 g at 0 ms and 100 ms gives ACTIVE with a scan |
| StateMachine.SignificantDeltaRescansAfterInterval | tests/test_state_machine.py:35-44 | 32/33 g, then 60/62 g at 3100/3300 ms, gives a second scan |
| StateMachine.RemovalReturnsToIdle | tests/test_state_machine.py:47-57 | after activating, 0 g at 3500/3600 ms gives IDLE |
| Orchestrator.FilterByClassThreshold | app/core/orchestrator.py:249-290 | the result is a subsequence holding exactly the detections whose confidence reaches their class's threshold (the guard for unlisted classes), each as often as in the input; empty gives empty |
| Orchestrator.ClassFilterIdempotent | app/core/orchestrator.py:260-272 | applying the class filter twice is applying it once |
| Orchestrator.FilterByBoxArea | app/core/orchestrator.py:292-339 | the result is a subsequence holding exactly the detections whose box area reaches image area times the minimum ratio, each as often as in the input; empty gives empty |
| Orchestrator.AreaFilterIdempotent | app/core/orchestrator.py:304-319 | applying the area filter twice is applying it once |
| Orchestrator.HalfInvertedBoxDropped | app/core/orchestrator.py:311-319 | a box inverted along exactly one axis, x or y, has negative area and never passes the area filter under valid settings |
| Orchestrator.FilterDetections | app/core/orchestrator.py:124-135 | the area filter followed by the class filter keeps exactly the detections that pass both, in input order |
| Orchestrator.ExpectedCountCondition | app/core/orchestrator.py:370-375 | "expected at least two and got fewer than expected minus one" holds exactly when the weight covers two more fruits than were detected |
| Orchestrator.ShouldFallback | app/core/orchestrator.py:341-386 | a heavy weight with no filtered detections always gives the first reason; the second reason exactly when the first does not apply and every raw confidence is below the guard; the third exactly when neither applies and the weight covers two more fruits than detected; none otherwise |
| Orchestrator.SelectDetections | app/core/orchestrator.py:119-166 | without a fallback reason the analysed detections are the filtered primary ones; with a reason they are the filtered fallback ones, or the scan fails when the fallback call fails; all are admissible |
| Orchestrator.FallbackUnusedWithoutReason | app/core/orchestrator.py:137-145 | without a fallback reason the fallback response does not influence the selection |
| Orchestrator.PrimaryDiscardedOnFallback | app/core/orchestrator.py:145-166 | with a fallback reason every selected detection comes from the fallback response |
| Orchestrator.AnalyzeFruits | app/core/orchestrator.py:202-247 | no detections give no summaries; never more summaries than detections |
| Orchestrator.AnalyzeKeepsCropped | app/core/orchestrator.py:238-247 | the summaries are those of exactly the detections whose crop succeeded, in input order, each copying its detection and carrying the detector's defects or none when that call raised |
| Orchestrator.AnalyzeAllCropped | app/core/orchestrator.py:216-247 | when every crop succeeds there is one summary per detection, position by position |
| Orchestrator.PartialDefectFailure | app/core/orchestrator.py:218-236 | three detections whose second defect call fails give three summaries in order, the second with no defects |
| Orchestrator.AnalyzedFruitsValid | app/core/orchestrator.py:230-236 | summaries of valid detections keep confidences in [0, 1] and boxes within bounds |
| Orchestrator.AnalyzedDefectsValid | app/core/orchestrator.py:218-236 | when every defect list the detector answers is valid, as building each defect guarantees, every published summary carries only valid defects |
| Orchestrator.Summarize | app/core/orchestrator.py:230-236 | a summary copies its detection's id, class, confidence and box, and carries the detector's defects, or none when the defect call raised |
| Orchestrator.PublishTargets | app/core/orchestrator.py:192-197 | the UI is always the first target; the main server is a target exactly when enabled; no target is repeated |
| Orchestrator.ExecuteScan | app/core/orchestrator.py:102-200 | a failed capture aborts; a scan is published exactly when every call it needs succeeds; a published result carries the reading's grams, the capture's image id and the publish targets |
| Orchestrator.PublishedFruitsCharacterised | app/core/orchestrator.py:119-190 | the published fruits are the summaries of exactly the detections of the used response that pass both filters and whose crop succeeded, in detector order |
| Orchestrator.EmptyPrimaryResponse | app/core/orchestrator.py:125-197 | an empty primary response has a fallback reason exactly at or above the minimum weight; below it an empty scan is published; when the fallback response is empty too, the scan is still published with no fruits |
| Orchestrator.SinglePayloadScenario | tests/test_orchestrator.py:111-133 | one 0.95 apple on a 128x128 frame at 120 g, with a bruise defect, publishes one fruit with that defect and the reading's weight to the UI |

## Left out

- `DefectInfo`'s optional segmentation mask (`segmentation`, a polygon) is not modelled; the code copies it unchanged from the defect detector's answer into the published defects.

- Asynchronous machinery: `start`, `shutdown`, the polling loop, in-flight task tracking, `asyncio.gather` and `to_thread`. The per-fruit analysis is modelled as a sequential map.
- The HTTP clients (app/services) and the FastAPI wiring. Collaborator answers are `Result` inputs; the camera resolution and detector image-size arguments are not modelled.
- Image decoding, cropping and JPEG encoding (app/core/image_ops.py). A frame is its width and height; a crop either succeeds or raises.
- Settings loading from the environment. The loader's bounds appear as `Settings.ValidConfig`, used only where a property needs them.
- Session ids, wall-clock timestamps and logging.
- Float rounding. Arithmetic is exact over reals: `fmean`, the `total_seconds() * 1000` interval and `int()` on a float quotient are exact here.
- Publishing failures. A failing publish call makes the real scan log an error after the result may already have reached the other target; the model treats publication as delivering to every target.
- Orchestrator.AnalyzeFruits: the per-detection outcome is a function of the detection, so two identical detections in one response get the same outcome.
- Common.ParseBox: numeric strings and booleans, which pydantic's lax mode converts to floats, count as non-numeric; a `bytearray` is treated like `bytes` although the coercion would treat it as a sequence.
- StateMachine.Process: the new reading is shown to end the window only for a non-negative `stable_window_ms`. A negative window, which the settings do not forbid, prunes the new reading as well.
- StateMachine.ProcessAllScansSpaced: requires a non-negative cooldown. With a negative one only consecutive requests are related (`ProcessConsecutiveScansSpaced`).
