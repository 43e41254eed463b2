# Eyelid engine: metrics, calibration and debounce

This project models the core of `EyelidEngine._loop` in `src/face/backend_cv.py`. For every camera frame in which the face-mesh detector finds a face, the loop does the following:

- It pushes each eye's raw iris radius into a three-slot deque.
- It takes twice the median of the deque as the iris diameter (`iris_metrics`).
- It divides that diameter by the eye's lid gap, giving the eye closure ratio (ECR). The frame's ECR is the larger ratio of the two eyes.
- It averages the lid-to-brow gaps of both eyes (BLG) and computes the mouth aspect ratio (MAR, `mouth_ar`).
- It collects brow gaps during the first 1.5 s. It then latches a baseline once: the median of the collected gaps, or the current gap if none were collected.
- It runs three debounce timers: moderate closure (ECR ≥ 1.30 held 0.20 s), a second closure timer (ECR ≥ 1.15 held 0.50 s) and mouth open (MAR > 0.35 held 0.50 s). Each timer is started by Python's `t = t or now`.
- It raises the alert when any timer has run for its duration.

A frame without a face reports zeros and touches nothing.

The model is split into these modules:

- `Config`: the constants.
- `Stats`: the median used by `statistics.median` and `np.median`. It is built from an insertion sort, which is proved to be a sorted permutation.
- `Smoothing`: `deque(maxlen=...)`. It has a `BoundedDeque` class and the `Window`/`PushAll` functions that specify it.
- `Geometry`: the ratios, and `IrisMetrics` as a method that mutates the deque.
- `Calibration`: the brow-baseline latch and `cheat_brow`.
- `Debounce`: a timer as an optional start time, and the timer over a run of ticks.
- `Engine`: the per-frame state machine.
  - `FrameStep` is the functional specification, made of the `FaceMetrics` and `Advance` stages.
  - `Run` folds `FrameStep` over the frames.
  - The `EyelidEngine` class holds the state of `_loop` as fields. It has the methods `Step`, `Measure` and `Update`, and each is proved against the specification.
  - `RunLoop` drives the loop over the frames the camera delivers.
- `Behaviour`: what holds over whole runs of frames.

Two consequences of the code worth stating:

- A faceless frame does not reset the timers. `_loop` assigns `t1`, `t2` and `tM` only inside `if res.multi_face_landmarks:`, so a faceless frame leaves them, the queues and the calibration untouched (`Behaviour.NoFaceRunIsInert`, `Behaviour.FaceLossIsTransparent`).
- The moderate condition is `ecr >= 1.30 or (ecr >= 1.40 and cheat_brow)`. Because 1.40 ≥ 1.30 the brow clause never changes its value, and `Debounce.Moderate` proves that the condition is just `ecr >= 1.30`.

## Model

| member | source | states |
|---|---|---|
| Stats.Sort | src/face/backend_cv.py:26 | the sorting step inside `statistics.median` keeps the number of values (sortedness and permutation in `Stats.SortSorts`) |
| Stats.Median | src/face/backend_cv.py:26 | `statistics.median` (and `np.median` at line 88): the middle of the sorted values, or the mean of the two middle ones; characterised by `Stats.MedianViaSorted` |
| Stats.InsertSorted | src/face/backend_cv.py:26 | inserting into a sorted list keeps it sorted, adds exactly the new element, and puts the smaller of it and the old head first |
| Stats.SortSorts | src/face/backend_cv.py:26 | the sort used by the median yields a sorted permutation of its input |
| Stats.SortedUnique | src/face/backend_cv.py:26 | two sorted lists with the same elements are equal, so the sorted order the median reads is unique |
| Stats.MedianViaSorted | src/face/backend_cv.py:26 | the median is the middle (or mean of the two middles) of any sorted rearrangement of the data |
| Stats.MedianOfPermutation | src/face/backend_cv.py:26 | the median does not depend on the order of the deque's contents |
| Stats.MedianOfSorted | src/face/backend_cv.py:26 | on sorted data the median is the middle element, or the mean of the two middle ones for an even count |
| Stats.MedianWithin | src/face/backend_cv.py:88 | the median lies within any bounds all the samples respect |
| Stats.MedianOfOne | src/face/backend_cv.py:26 | the median of one value is that value |
| Stats.MedianOfTwo | src/face/backend_cv.py:26 | the median of two values is their mean |
| Stats.MedianOfThree | src/face/backend_cv.py:26 | the median of three values is their middle value (independent definition `Mid3`) |
| Smoothing.LastN | src/face/backend_cv.py:64 | the last `n` values of `s` number `n`, or all of `s` when it is shorter |
| Smoothing.Window | src/face/backend_cv.py:25 | appending to a deque of capacity `cap` grows the deque by one until it holds `cap` values and puts the new value last |
| Smoothing.WindowKeepsNewest | src/face/backend_cv.py:25 | appending keeps the newest old values in order, dropping the oldest first |
| Smoothing.PushAll | src/face/backend_cv.py:25 | the deque after a sequence of appends never exceeds its capacity and ends with the last value appended |
| Smoothing.PushAllKeepsLast | src/face/backend_cv.py:64 | a deque holding at most `cap` values holds, after any appends, exactly the last `cap` of everything given to it, oldest first |
| Smoothing.PushAllFromEmpty | src/face/backend_cv.py:64 | a fresh deque holds the last min(n, cap) appended values |
| Smoothing.BoundedDeque.constructor | src/face/backend_cv.py:64 | a new deque is empty with the given `maxlen` |
| Smoothing.BoundedDeque.Append | src/face/backend_cv.py:25 | `append` changes the contents to `Window(old contents, maxlen, x)` and keeps the length within `maxlen` |
| Geometry.MouthAspectRatio | src/face/backend_cv.py:19-20 | with a zero corner distance the ratio is the lip distance itself (the divisor is replaced by 1) |
| Geometry.MouthRatioInverts | src/face/backend_cv.py:20 | ratio times a non-zero corner distance gives back the lip distance; non-negative for distances |
| Geometry.LidGap | src/face/backend_cv.py:26 | the gap is zero when both lid landmarks coincide |
| Geometry.LidGapSign | src/face/backend_cv.py:26 | for a positive frame height the gap is positive exactly when the lower lid lies below the upper |
| Geometry.EyeRatio | src/face/backend_cv.py:82 | an eye whose lid gap is zero has closure ratio 0 |
| Geometry.EyeRatioInverts | src/face/backend_cv.py:82 | ratio times a non-zero gap gives back the diameter; non-negative for non-negative inputs |
| Geometry.Ecr | src/face/backend_cv.py:82 | the frame's ECR is at least each eye's ratio and equal to one of them (the maximum) |
| Geometry.BrowGap | src/face/backend_cv.py:84-85 | the averaged lid-to-brow gap is zero when both brows sit on their lids or the frame has no height |
| Geometry.BrowGapBetween | src/face/backend_cv.py:84-85 | the brow gap lies between the two eyes' lid-to-brow gaps and equals them when they agree |
| Geometry.IrisMetrics | src/face/backend_cv.py:22-27 | appends the radius to the eye's deque and returns twice the median of the new contents and the lid gap |
| Geometry.SmoothedDiameter | src/face/backend_cv.py:25-26 | after pushes into a fresh three-slot deque the diameter is twice the middle of the last three radii, the sum of two, or twice the only one |
| Geometry.DiameterExample | src/face/backend_cv.py:25-26 | pushing 10, 12, 11 gives diameter 22 |
| Calibration.Latch | src/face/backend_cv.py:86-88 | a set baseline never changes; the baseline is set after the frame iff it was set or the window has ended; samples only grow by appending |
| Calibration.LatchCollects | src/face/backend_cv.py:87 | inside the window an unset baseline stays unset and the gap is appended |
| Calibration.LatchFreezes | src/face/backend_cv.py:88 | at or after the window the baseline becomes the median of the samples, or the current gap when there are none, and that gap is not appended |
| Calibration.CheatBrow | src/face/backend_cv.py:89 | a brow raise needs a set, non-zero baseline; a zero baseline never counts as one |
| Debounce.StartOr | src/face/backend_cv.py:92 | `t or now` keeps a non-zero start and replaces a missing or zero start by `now` |
| Debounce.ZeroStartRestarts | src/face/backend_cv.py:92 | a timer started at 0.0 restarts at `now` |
| Debounce.Arm | src/face/backend_cv.py:91-95 | after a face frame the timer runs exactly when its condition held |
| Debounce.Moderate | src/face/backend_cv.py:91 | the moderate-closure condition holds iff `ecr >= 1.30`, whatever the brow state |
| Debounce.Sustained | src/face/backend_cv.py:93 | a timer contributes to the alert once `now - start` reaches its duration (the checks at lines 93, 99 and 107) |
| Debounce.Closure2 | src/face/backend_cv.py:97 | the second closure condition `ecr >= ECR_T2` |
| Debounce.MouthOpen | src/face/backend_cv.py:105 | the mouth-open condition `mar > MAR_TH` |
| Debounce.TimerRun | src/face/backend_cv.py:91-109 | the timer over a run of face frames runs after the last frame exactly when its condition held on that frame, and is untouched by an empty run |
| Debounce.TimerRunAppend | src/face/backend_cv.py:91-109 | the timer over `a + b` is the timer over `b` started from the timer over `a` |
| Debounce.HeldKeepsStart | src/face/backend_cv.py:92 | while the condition keeps holding a non-zero start never moves |
| Debounce.HeldSinceFirst | src/face/backend_cv.py:91-92 | from idle, a condition held on every tick leaves the timer started at the first tick |
| Debounce.ReleaseResets | src/face/backend_cv.py:94-95 | one tick where the condition fails erases all history before it |
| Debounce.SustainedIffHeldLongEnough | src/face/backend_cv.py:93 | from idle with the condition held throughout, the timer is sustained at the last tick iff the duration has elapsed since the first |
| Engine.FaceMetrics | src/face/backend_cv.py:80-85 | the metric stage keeps both queues within three slots |
| Engine.Advance | src/face/backend_cv.py:86-109 | the calibration and debounce stage keeps the new queues and the start time |
| Engine.FrameStep | src/face/backend_cv.py:75-109 | one iteration preserves well-formedness (queues within three) and the start time |
| Engine.Run | src/face/backend_cv.py:68-109 | one output per frame; the start time never changes |
| Engine.Emitted | src/face/backend_cv.py:128-130 | the callback receives at most one output per frame: all of them when every frame encoded, none when none did |
| Engine.EyelidEngine.constructor | src/face/backend_cv.py:64-66 | the engine starts with empty queues, no baseline, no samples and idle timers |
| Engine.EyelidEngine.Step | src/face/backend_cv.py:75-109 | the new fields and the reported `(ecr, blg, mar, alert)` are exactly `FrameStep` of the old fields |
| Engine.EyelidEngine.Measure | src/face/backend_cv.py:80-85 | the two `iris_metrics` calls, ECR, BLG and MAR are exactly `FaceMetrics` of the old queues |
| Engine.EyelidEngine.Update | src/face/backend_cv.py:86-109 | the latch, the three timers and the alert are exactly `Advance` of the old fields |
| Engine.UpdateTimer | src/face/backend_cv.py:91-95 | the timer becomes `Arm(t, cond, now)` and the alert fires iff that timer has run for its duration |
| Engine.RunLoop | src/face/backend_cv.py:58-130 | nothing is emitted when the camera does not open; otherwise the callback receives exactly the outputs of `Run` for the frames that encoded |
| Behaviour.FaceFrameQueues | src/face/backend_cv.py:80-81 | a face frame appends each eye's radius to that eye's queue |
| Behaviour.FaceFrameCalibration | src/face/backend_cv.py:84-88 | a face frame reports its brow gap and latches the baseline with it |
| Behaviour.FaceFrameTimers | src/face/backend_cv.py:91-109 | a face frame re-arms each timer on `ecr >= 1.30`, `ecr >= 1.15`, `mar > 0.35` |
| Behaviour.RunAppend | src/face/backend_cv.py:68-109 | running `a` then `b` is running `a + b`, with the outputs concatenated |
| Behaviour.NoFaceRunIsInert | src/face/backend_cv.py:75-77 | faceless frames leave the whole state unchanged and each reports zeros and no alert |
| Behaviour.FaceLossIsTransparent | src/face/backend_cv.py:77 | a stretch of faceless frames leaves the later state as if it never happened |
| Behaviour.RunStaysWellFormed | src/face/backend_cv.py:64 | the queues stay within three slots over any run |
| Behaviour.QueueIsPushAll | src/face/backend_cv.py:80-81 | each queue after a run is the initial queue with that eye's face-frame radii appended |
| Behaviour.QueuesHoldLastRadii | src/face/backend_cv.py:25 | each queue holds exactly the last three of its initial contents and its face-frame radii, oldest first |
| Behaviour.BaselineSettled | src/face/backend_cv.py:86 | once the baseline is set no frame changes it or the samples |
| Behaviour.WindowPassedSnoc | src/face/backend_cv.py:87-88 | a run has passed the window iff its prefix has or its last frame is a face frame past the window |
| Behaviour.BaselineSetIffWindowPassed | src/face/backend_cv.py:86-88 | the baseline is set after a run iff it was set or some face frame came at or after 1.5 s |
| Behaviour.CollectingSamples | src/face/backend_cv.py:87 | while all face frames are inside the window the baseline stays unset and their gaps are collected in order |
| Behaviour.BaselineLatchesOnce | src/face/backend_cv.py:86-88 | the first face frame past the window freezes the baseline to the median of the collected gaps (its own gap if none) and it stays so for ever |
| Behaviour.TimerFollowsTicks | src/face/backend_cv.py:91-109 | each engine timer is the debounce timer driven by its own condition on the face frames, faceless frames skipped |
| Behaviour.AllFaceTicks | src/face/backend_cv.py:91-109 | on a run of face frames the ticks are the frames' conditions and times, one for one |
| Behaviour.FrameAlert | src/face/backend_cv.py:93 | a frame's alert is raised iff it has a face and some timer has run for its duration |
| Behaviour.LastFrameAlert | src/face/backend_cv.py:93 | the alert of a run's last frame in terms of the timers after the run |
| Behaviour.HeldConditionTimer | src/face/backend_cv.py:91-93 | from an idle timer with the condition held on every face frame, the timer starts at the first frame and is sustained at the last iff its duration has elapsed |
| Behaviour.HeldConditionRaisesAlert | src/face/backend_cv.py:91-109 | such a run raises the alert on its last frame once the duration has elapsed |

## Left out

- Camera capture is not modelled: opening the camera, its buffer size, `cap.read` and `release`. Whether the camera opened is a boolean input of `RunLoop`. The frames it read before a read failed, or before a stop, are a sequence input.
- The MediaPipe face mesh is an external detector. Its result is an optional `FaceInput`.
- Landmark pixel coordinates, `np.hypot`, `np.mean` and `np.linalg.norm` are not modelled. The iris radius and the two lip distances are real inputs; only the lid and brow y-coordinates and the frame height are kept, so the gap formulas are modelled as written.
- Drawing (`cv2.circle`, `putText`, `rectangle`) is a pixel side effect and is not modelled. JPEG encoding is only its outcome, a boolean per frame.
- The callback receives the frame bytes, ECR, BLG and MAR. The model emits the alert as well (the code uses it only to colour the drawing) and leaves out the bytes.
- Threading, `start`/`stop`, the stop event and `time.sleep(FPS_INTERVAL)` are concurrency and timing. `now` is a parameter, and `FPS_INTERVAL` is not modelled.
- Floating point is modelled as exact real arithmetic, so rounding is not captured.
- The landmark indices and colours of the `EyelidEngine` class are not modelled; they only select landmarks and paint.
- `src/face/app.py` (the UI and its polled hand-off slot) is not part of this model.
- `src/face/backend_ios.py` (a placeholder image emitter) is not part of this model.
