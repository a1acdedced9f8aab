# Global gesture detector — a Dafny model

`GlobalGestureDetector` watches global pointer movement and reports when
the recent motion traces a circle. Pointer samples arrive one at a time
through `mouse_event_callback`. Each sample passes an admission gate:
tracking must be on, the event must be a mouse move, more than 50 ms must
have passed since the last admitted sample, and, unless no sample has
been admitted yet, the pointer must have moved more than 5 px in x or in
y. An admitted sample is appended to a buffer, which is then trimmed
to the samples younger than 3 seconds. When the buffer holds more than 30
samples and the 2-second cooldown has passed, `detect_circular_gesture`
runs on it. On a detection the buffer length is reported, the buffer is
cleared and the cooldown restarts.

`detect_circular_gesture` needs at least 25 samples and looks at the last
30 (or fewer). It rejects motion whose mean distance from the centroid is
below 50 px. Otherwise it adds up the absolute angle steps around the
centroid, each corrected once by a whole turn towards [-pi, pi], and
reports a circle when the total exceeds 1.6 pi.

The project has two modules:

- `Geometry` (geometry.dfy) holds the circular-motion test.
  - `IsCircular` is the test as a specification function over the buffer.
  - `DetectCircularGesture` is the test as the source runs it. Its loops
    (`RadialDistances`, `PolarAngles`, `TotalAngleChange`) are each proved
    to compute the specification.
  - The lemmas state what the gates guarantee about the window, the
    centroid, the radius and the accumulated turning.
- `Detector` (detector.dfy) holds the per-sample step.
  - `Transition` is the step as a function of the detector's fields.
  - The class `GlobalGestureDetector` holds those fields. Its
    `MouseEventCallback` updates them in place and is proved to perform
    `Transition`.
  - `Run` replays any interleaving of samples and start/stop commands. The
    lemmas about it state what holds across many steps: admitted samples
    are spaced apart, detections respect the cooldown, and the invariant
    `Inv` is kept.

Numbers are reals, and time is in seconds. The square root, the
two-argument arctangent and pi are fields of a `MathLib` value. Only the
following facts are assumed of them (`ValidMath`):

- pi is positive;
- the square root of 0 is 0, and the square root of a non-negative number
  is non-negative;
- every arctangent lies in [-pi, pi].

The clock reading `time.time()` and the event's location and type are
parameters of the step: `now`, `x`, `y` and `kind`.

## Model

| member | source | states |
|---|---|---|
| Geometry.Centroid | electron_project/gesture_detector.py:62-63 | no contract of its own; the mean of the window's x and of its y; characterised by `CentroidInBox` and `CentroidOfCoincident` |
| Geometry.Distance | electron_project/gesture_detector.py:68 | no contract of its own; the square root of the squared offsets from the centroid; characterised by `MeanRadiusNonNegative` and `DistancesToOwnPosition` |
| Geometry.Angle | electron_project/gesture_detector.py:79 | no contract of its own; the arctangent of the offsets from the centroid, y first; characterised by `AnglesInRange` |
| Geometry.EvaluationWindow | electron_project/gesture_detector.py:59 | the window is the last 30 samples, or all of them when there are fewer, and it is a suffix of the buffer |
| Geometry.NormaliseDelta | electron_project/gesture_detector.py:85-91 | the corrected step differs from the raw one by 0 or one whole turn; an in-range step is left alone; the difference of two angles in [-pi, pi] lands in [-pi, pi] |
| Geometry.AngleSum | electron_project/gesture_detector.py:83-93 | the accumulated turning is never negative |
| Geometry.IsCircular | electron_project/gesture_detector.py:55-96 | a buffer of fewer than 25 samples is never a circle |
| Geometry.OnlyWindowMatters | electron_project/gesture_detector.py:59 | on a buffer of 30 or more samples, the test gives the same answer on its evaluation window alone |
| Geometry.DetectCircularGesture | electron_project/gesture_detector.py:55-96 | the looping test returns exactly `IsCircular` of the buffer; it takes the buffer as a value and changes no detector field |
| Geometry.RadialDistances | electron_project/gesture_detector.py:66-69 | the distance loop yields each window sample's distance from the centroid, in window order |
| Geometry.PolarAngles | electron_project/gesture_detector.py:77-80 | the angle loop yields each window sample's polar angle around the centroid, in window order |
| Geometry.TotalAngleChange | electron_project/gesture_detector.py:83-93 | the accumulation loop returns `AngleSum` of the angles; its invariant is the turning of the angles seen so far |
| Geometry.MeanWithin | electron_project/gesture_detector.py:62-63 | a mean lies between any lower and upper bound of its terms |
| Geometry.MeanBelow | electron_project/gesture_detector.py:70 | a mean of terms all below a bound is below that bound |
| Geometry.CentroidInBox | electron_project/gesture_detector.py:62-63 | the centroid lies in every axis-aligned box that holds the window |
| Geometry.MeanRadiusNonNegative | electron_project/gesture_detector.py:66-70 | the mean distance from the centroid is never negative |
| Geometry.CircularNeedsFarPoint | electron_project/gesture_detector.py:70-74 | when the test fires, some window sample is at least 50 px from the centroid |
| Geometry.CentroidOfCoincident | electron_project/gesture_detector.py:62-63 | samples that all sit at one position have that position as their centroid |
| Geometry.DistancesToOwnPosition | electron_project/gesture_detector.py:66-69 | samples that all sit at one position are at distance 0 from it |
| Geometry.CoincidentNeverCircular | electron_project/gesture_detector.py:55-74 | a buffer whose samples all sit at one position is never a circle |
| Geometry.WindowStepsWithinHalfTurn | electron_project/gesture_detector.py:77-91 | every corrected step between neighbouring polar angles of the window lies in [-pi, pi] |
| Geometry.AngleSumMonotone | electron_project/gesture_detector.py:83-93 | the turning of a prefix of the angles is at most the turning of any longer prefix |
| Geometry.AngleSumAtMostHalfTurns | electron_project/gesture_detector.py:83-93 | n angles in [-pi, pi] add up to at most n - 1 half-turns, counted by repeated addition |
| Geometry.AngleSumBounded | electron_project/gesture_detector.py:83-93 | n angles in [-pi, pi] turn through at most (n - 1) pi |
| Geometry.AnglesInRange | electron_project/gesture_detector.py:77-80 | every polar angle around the centroid lies in [-pi, pi] |
| Geometry.WindowTurningBounded | electron_project/gesture_detector.py:77-96 | the turning of a window of n samples is at most (n - 1) pi |
| Geometry.ReversalsCountAsTurning | electron_project/gesture_detector.py:83-93 | the turning is unsigned: n angles swinging between 0 and pi add up to n - 1 half-turns |
| Geometry.ReversalsPassTurningTest | electron_project/gesture_detector.py:93-96 | 30 angles swinging between 0 and pi pass the 1.6 pi threshold |
| Geometry.BackAndForthIsCircular | electron_project/gesture_detector.py:55-96 | a buffer whose window angles swing between 0 and pi, with mean radius at least 50, passes the whole test |
| Geometry.SteadyTurning | electron_project/gesture_detector.py:83-93 | angles that advance by the same step of at most half a turn, wrapping once across the +-pi seam where they reach it, turn through one step per neighbour pair |
| Geometry.FullRevolutionIsCircular | electron_project/gesture_detector.py:55-96 | a buffer whose window angles advance steadily by a thirtieth of a turn, wrapping at the seam, with mean radius at least 50, passes the whole test: a full revolution is detected |
| Geometry.SeamCrossingIsSmall | electron_project/gesture_detector.py:85-93 | a step across the +-pi seam, from 3 to -3 radians, counts as 2 pi - 6, not as 6 |
| Detector.Initial | electron_project/gesture_detector.py:10-18 | no contract of its own; the fields `__init__` sets; characterised by `InitialInv` |
| Detector.MovedEnough | electron_project/gesture_detector.py:32-34 | no contract of its own; no last position, or a move of more than 5 px in x or in y |
| Detector.Admits | electron_project/gesture_detector.py:21-34 | no contract of its own; tracking on, a mouse move, more than 0.05 s since the last check, and `MovedEnough`; characterised by `TransitionGate` |
| Detector.Transition | electron_project/gesture_detector.py:20-53 | no contract of its own; one callback step as a function of the fields; characterised by `TransitionGate` and `TransitionBuffer`, and performed by `MouseEventCallback` |
| Detector.Recent | electron_project/gesture_detector.py:41 | the retention window never grows the buffer |
| Detector.RecentMembers | electron_project/gesture_detector.py:41 | a sample survives the retention window if and only if it was buffered and is younger than 3 seconds |
| Detector.RecentNoneBefore | electron_project/gesture_detector.py:41 | on a time-ordered buffer whose newest sample has expired, nothing survives |
| Detector.RecentIsSuffix | electron_project/gesture_detector.py:41 | on a time-ordered buffer, what survives is a suffix of the buffer |
| Detector.RecentDistributes | electron_project/gesture_detector.py:41 | filtering a concatenation is concatenating the filtered parts, so the relative order of kept samples is preserved |
| Detector.TransitionGate | electron_project/gesture_detector.py:21-38 | a dropped sample (tracking off, not a move, throttled, or not moved enough) changes nothing and reports nothing; an admitted one becomes the last position and the last check time, also when a detection follows; the last detection time changes only with a detection |
| Detector.TransitionBuffer | electron_project/gesture_detector.py:36-51 | without a detection the buffer is the unexpired old samples in order, then the new one; a detection happens exactly when that buffer is longer than 30, the cooldown of 2 seconds has passed and the buffer is a circle; a detection reports that buffer's length, clears the buffer and sets the last detection time to now |
| Detector.TransitionKeepsOnlyRecent | electron_project/gesture_detector.py:36-41 | a step brings in no sample other than the new one, and after an admission every buffered sample is younger than 3 seconds |
| Detector.AdmissionEvictsOldest | electron_project/gesture_detector.py:36-41 | from an invariant state, an admission without a detection leaves a suffix of the old buffer followed by the new sample: eviction happens only at the oldest end |
| Detector.ThrottleIsStrict | electron_project/gesture_detector.py:31 | a mouse move exactly 0.05 s after the last check is dropped and changes nothing: the throttle comparison is strict |
| Detector.InitialInv | electron_project/gesture_detector.py:10-18 | a fresh detector satisfies the invariant `Inv` |
| Detector.AdmitKeepsInv | electron_project/gesture_detector.py:31-41 | admitting a sample keeps the invariant: neighbouring samples are apart, the newest is the last position at the last check time, nothing is older than 3 seconds |
| Detector.TransitionPreservesInv | electron_project/gesture_detector.py:20-53 | every step keeps the invariant |
| Detector.GlobalGestureDetector.constructor | electron_project/gesture_detector.py:10-18 | a new detector has an empty buffer, tracking off, no last position and both clocks at 0, and satisfies the invariant |
| Detector.GlobalGestureDetector.MouseEventCallback | electron_project/gesture_detector.py:20-53 | the new fields and the reported event are exactly those of `Transition`, and the invariant is kept |
| Detector.GlobalGestureDetector.Record | electron_project/gesture_detector.py:36-41 | the sample is appended, becomes the last position and check time, and the buffer is trimmed to the retention window |
| Detector.GlobalGestureDetector.CheckForGesture | electron_project/gesture_detector.py:44-51 | the buffer is reported and cleared, and the cooldown restarted, exactly when it is longer than 30, the cooldown has passed and it is a circle; otherwise nothing changes |
| Detector.GlobalGestureDetector.Start | electron_project/gesture_detector.py:143-144 | the `start` command turns tracking on and changes nothing else |
| Detector.GlobalGestureDetector.Stop | electron_project/gesture_detector.py:145-146 | the `stop` command turns tracking off and changes nothing else; the buffer is kept |
| Detector.Extend | electron_project/gesture_detector.py:20-53 | no contract of its own; one more sample (a callback step) or start/stop command (a tracking setter); characterised by `ExtendAdmissions` and `ExtendDetections` |
| Detector.Run | electron_project/gesture_detector.py:139-146 | replays an interleaving of samples and start/stop commands; a run admits no more samples and reports no more detections than it has inputs (the per-input fact is `ExtendAdmissions` and `ExtendDetections`) |
| Detector.ExtendAdmissions | electron_project/gesture_detector.py:31-38 | one input admits at most one sample, which becomes the last position and check time; otherwise both stay as they were |
| Detector.AdmissionsApart | electron_project/gesture_detector.py:31-38 | across any run, including start and stop commands, two samples admitted one after the other are more than 0.05 s apart and more than 5 px apart in x or in y |
| Detector.ExtendDetections | electron_project/gesture_detector.py:44-51 | one input adds at most one detection, which comes more than 2 s after the last one and becomes the last detection time |
| Detector.DetectionsApart | electron_project/gesture_detector.py:44-51 | across any run, consecutive detections are more than 2 s apart, the first more than 2 s after the starting last detection time, and the last detection time is the latest detection |
| Detector.RunPreservesInv | electron_project/gesture_detector.py:20-53 | every state reached by a run from an invariant state satisfies the invariant |

## Left out

- `start_monitoring` is not modelled. It creates the Quartz event tap, runs the run loop and reports permission failures, which is all operating-system I/O. Only the `is_tracking = True` it performs has a counterpart, `Start`.
- The stdin command thread is modelled only as the `Start` and `Stop` setters and, for runs, as `SetTracking` inputs. JSON parsing, `quit` and the thread itself are not modelled. Its concurrency with the callback is modelled as an arbitrary sequential interleaving (`Run`).
- JSON printing and `sys.stdout.flush` are not modelled. A detection is returned as `Some(length)` instead of being printed.
- Floating-point semantics of `math.sqrt`, `math.atan2` and `math.pi` are not modelled. They are abstract (`MathLib`), constrained only by `ValidMath`. Rounding is not modelled either: all arithmetic is exact real arithmetic.
- Geometry.IsCircular: circular motion is shown to be detected only at the level of polar angles (`FullRevolutionIsCircular`). No lemma starts from concrete sample positions on a circle, because with an abstract arctangent the model cannot compute their angles.
- `gesture_start_time` is dropped, because it is written once and never read.
- The callback's Quartz arguments (`proxy`, `refcon`, the returned event object) are not modelled. The event object is passed through unchanged.
- electron_project/python_mcp/dedalus_client.py is not part of this model. It is a network client with no algorithm of its own.
