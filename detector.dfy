/**
 * The gesture detector's per-sample step: the admission gate (tracking flag,
 * 50 ms throttle, 5 px movement threshold), the 3-second retention window,
 * and the detection attempt with its 2-second cooldown.
 *
 * `Transition` is the step as a function of the detector state;
 * `GlobalGestureDetector` is the object whose fields the step updates in
 * place, and its `MouseEventCallback` is proved to perform `Transition`.
 * `Run` replays an interleaving of samples and start/stop commands, and the
 * lemmas about it state what holds across many steps.
 */
module Detector {
  import opened Geometry

  datatype Option<T> = None | Some(value: T)

  /** The kind of a pointer event: only mouse moves are considered. */
  datatype EventKind = MouseMoved | OtherEvent

  /** A sample must move further than this in x or in y (pixels). */
  const MovementThreshold: real := 5.0
  /** A sample no more than this long after the last admitted one is dropped (seconds). */
  const ThrottleInterval: real := 0.05
  /** Samples at least this old are evicted from the buffer (seconds). */
  const WindowAge: real := 3.0
  /** A detection must come more than this long after the previous one (seconds). */
  const DetectionCooldown: real := 2.0
  /** Detection is attempted only on a buffer longer than this. */
  const DetectionMinBuffer: nat := 30

  /** The detector's fields. */
  datatype State = State(
    points: seq<Point>,
    tracking: bool,
    lastPos: Option<Pos>,
    lastCheckTime: real,
    lastDetectionTime: real)

  /** The state of a fresh detector: empty buffer, not tracking, clocks at zero. */
  function Initial(): State
  {
    State([], false, None, 0.0, 0.0)
  }

  /** The movement gate: no previous position, or far enough from it on one axis. */
  predicate MovedEnough(last: Option<Pos>, x: real, y: real)
  {
    last.None? || Abs(x - last.value.x) > MovementThreshold || Abs(y - last.value.y) > MovementThreshold
  }

  /** Whether the step admits the sample `(x, y)` taken at time `now`. */
  predicate Admits(s: State, kind: EventKind, x: real, y: real, now: real)
  {
    && s.tracking
    && kind == MouseMoved
    && now - s.lastCheckTime > ThrottleInterval
    && MovedEnough(s.lastPos, x, y)
  }

  /**
   * The retention window: the samples younger than `WindowAge` at time `now`,
   * in their original order.
   */
  function Recent(points: seq<Point>, now: real): (kept: seq<Point>)
    ensures |kept| <= |points|
  {
    if points == [] then []
    else
      var last := points[|points| - 1];
      Recent(points[..|points| - 1], now) + (if now - last.time < WindowAge then [last] else [])
  }

  /** Exactly the unexpired samples survive the retention window. */
  lemma {:induction false} RecentMembers(points: seq<Point>, now: real)
    ensures forall p {:trigger p in Recent(points, now)} {:trigger p in points} ::
      p in Recent(points, now) <==> p in points && now - p.time < WindowAge
  {
    if points != [] {
      var init := points[..|points| - 1];
      RecentMembers(init, now);
      assert points == init + [points[|points| - 1]];
    }
  }

  /** The new state and the event, if any, that one step produces. */
  datatype StepResult = StepResult(next: State, event: Option<nat>)

  /** One call of the mouse-event callback, as a function of the state. */
  function Transition(m: MathLib, s: State, kind: EventKind, x: real, y: real, now: real): StepResult
  {
    if !Admits(s, kind, x, y, now) then StepResult(s, None)
    else
      var kept := Recent(s.points + [Point(x, y, now)], now);
      var admitted := s.(points := kept, lastPos := Some(Pos(x, y)), lastCheckTime := now);
      if |kept| > DetectionMinBuffer && now - s.lastDetectionTime > DetectionCooldown && IsCircular(m, kept)
      then StepResult(admitted.(points := [], lastDetectionTime := now), Some(|kept|))
      else StepResult(admitted, None)
  }

  /**
   * The gate of one step: a dropped sample changes nothing; an admitted one
   * becomes the last position and the last check time; the last detection
   * time moves only with a detection.
   */
  lemma TransitionGate(m: MathLib, s: State, kind: EventKind, x: real, y: real, now: real)
    ensures var r := Transition(m, s, kind, x, y, now);
      !Admits(s, kind, x, y, now) ==> r == StepResult(s, None)
    ensures var r := Transition(m, s, kind, x, y, now);
      Admits(s, kind, x, y, now) ==>
        && r.next.lastPos == Some(Pos(x, y))
        && r.next.lastCheckTime == now
        && r.next.tracking == s.tracking
    ensures var r := Transition(m, s, kind, x, y, now);
      r.event.None? ==> r.next.lastDetectionTime == s.lastDetectionTime
  {
  }

  /**
   * The buffer after one step. Without a detection it holds the unexpired old
   * samples in order, then the new one. A detection happens exactly when that
   * buffer is longer than `DetectionMinBuffer`, the cooldown has passed and
   * the buffer traces a circle; it reports the buffer's length, clears it and
   * restarts the cooldown.
   */
  lemma TransitionBuffer(m: MathLib, s: State, kind: EventKind, x: real, y: real, now: real)
    ensures var r := Transition(m, s, kind, x, y, now);
      Admits(s, kind, x, y, now) && r.event.None? ==>
        r.next.points == Recent(s.points, now) + [Point(x, y, now)]
    ensures var r := Transition(m, s, kind, x, y, now);
      r.event.Some? ==>
        && Admits(s, kind, x, y, now)
        && r.event.value == |Recent(s.points, now)| + 1
        && r.event.value > DetectionMinBuffer
        && now - s.lastDetectionTime > DetectionCooldown
        && IsCircular(m, Recent(s.points, now) + [Point(x, y, now)])
        && r.next.points == []
        && r.next.lastDetectionTime == now
    ensures Admits(s, kind, x, y, now)
      && |Recent(s.points, now)| + 1 > DetectionMinBuffer
      && now - s.lastDetectionTime > DetectionCooldown
      && IsCircular(m, Recent(s.points, now) + [Point(x, y, now)])
      ==> Transition(m, s, kind, x, y, now).event.Some?
  {
    var sample := Point(x, y, now);
    assert (s.points + [sample])[..|s.points|] == s.points;
  }

  /**
   * A step never brings in a sample other than the new one, and the buffer
   * it leaves behind holds only samples younger than the window.
   */
  lemma TransitionKeepsOnlyRecent(m: MathLib, s: State, kind: EventKind, x: real, y: real, now: real)
    ensures var next := Transition(m, s, kind, x, y, now).next;
      forall p :: p in next.points ==> p in s.points || p == Point(x, y, now)
    ensures Admits(s, kind, x, y, now) ==>
      forall p {:trigger p in Transition(m, s, kind, x, y, now).next.points} ::
        p in Transition(m, s, kind, x, y, now).next.points ==> now - p.time < WindowAge
  {
    RecentMembers(s.points + [Point(x, y, now)], now);
  }

  // ---------------------------------------------------------------------
  // The invariant every reachable state keeps

  /** Two samples admitted one after the other: throttled and moved. */
  predicate Apart(p: Point, q: Point)
  {
    q.time - p.time > ThrottleInterval
    && (Abs(q.x - p.x) > MovementThreshold || Abs(q.y - p.y) > MovementThreshold)
  }

  ghost predicate Spaced(points: seq<Point>)
  {
    forall i :: 0 < i < |points| ==> Apart(points[i - 1], points[i])
  }

  ghost predicate Increasing(points: seq<Point>)
  {
    forall i :: 0 < i < |points| ==> points[i - 1].time < points[i].time
  }

  /**
   * Neighbouring buffered samples are apart, the newest one is the last
   * position at the last check time, nothing in the buffer is older than the
   * window as of the last check, and the last detection is no later than it.
   */
  ghost predicate Inv(s: State)
  {
    && Spaced(s.points)
    && (|s.points| > 0 ==>
          var newest := s.points[|s.points| - 1];
          s.lastPos == Some(Pos(newest.x, newest.y)) && newest.time == s.lastCheckTime)
    && (forall i :: 0 <= i < |s.points| ==> s.lastCheckTime - s.points[i].time < WindowAge)
    && s.lastDetectionTime <= s.lastCheckTime
  }

  lemma InitialInv()
    ensures Inv(Initial())
  {
  }

  lemma IncreasingPrefix(points: seq<Point>)
    requires Increasing(points) && points != []
    ensures Increasing(points[..|points| - 1])
  {
    var init := points[..|points| - 1];
    forall i | 0 < i < |init|
      ensures init[i - 1].time < init[i].time
    {
      assert init[i - 1] == points[i - 1] && init[i] == points[i];
    }
  }

  /** On a time-ordered buffer, once one sample has expired so have all before it. */
  lemma {:induction false} RecentNoneBefore(points: seq<Point>, now: real)
    requires Increasing(points)
    requires points != [] && now - points[|points| - 1].time >= WindowAge
    ensures Recent(points, now) == []
  {
    var n := |points|;
    if n > 1 {
      IncreasingPrefix(points);
      RecentNoneBefore(points[..n - 1], now);
    }
  }

  /**
   * On a time-ordered buffer the retention window only ever evicts from the
   * oldest end: what it keeps is a suffix.
   */
  lemma {:induction false} RecentIsSuffix(points: seq<Point>, now: real)
    requires Increasing(points)
    ensures Recent(points, now) == points[|points| - |Recent(points, now)|..]
  {
    if points != [] {
      var init := points[..|points| - 1];
      IncreasingPrefix(points);
      RecentIsSuffix(init, now);
      if now - points[|points| - 1].time >= WindowAge {
        RecentNoneBefore(points, now);
      } else {
        RecentGrowsSuffix(points, now);
      }
    }
  }

  /** The inductive step of `RecentIsSuffix` when the newest sample is kept. */
  lemma RecentGrowsSuffix(points: seq<Point>, now: real)
    requires points != [] && now - points[|points| - 1].time < WindowAge
    requires var init := points[..|points| - 1];
      Recent(init, now) == init[|init| - |Recent(init, now)|..]
    ensures Recent(points, now) == points[|points| - |Recent(points, now)|..]
  {
    var n := |points|;
    var init := points[..n - 1];
    var k := |Recent(init, now)|;
    assert Recent(points, now) == Recent(init, now) + [points[n - 1]];
    SuffixThenLast(points, k);
  }

  lemma SuffixThenLast<T>(xs: seq<T>, k: nat)
    requires k < |xs|
    ensures xs[..|xs| - 1][|xs| - 1 - k..] + [xs[|xs| - 1]] == xs[|xs| - 1 - k..]
  {
  }

  /** The retention window keeps the relative order of the samples it keeps. */
  lemma {:induction false} RecentDistributes(a: seq<Point>, b: seq<Point>, now: real)
    ensures Recent(a + b, now) == Recent(a, now) + Recent(b, now)
  {
    if b != [] {
      var n := |b|;
      RecentDistributes(a, b[..n - 1], now);
      assert (a + b)[..|a + b| - 1] == a + b[..n - 1];
    } else {
      assert a + b == a;
    }
  }

  lemma SpacedSuffix(points: seq<Point>, k: nat)
    requires Spaced(points) && k <= |points|
    ensures Spaced(points[k..])
  {
    forall i | 0 < i < |points[k..]|
      ensures Apart(points[k..][i - 1], points[k..][i])
    {
      assert points[k..][i - 1] == points[k + i - 1];
    }
  }

  lemma SpacedAppend(points: seq<Point>, q: Point)
    requires Spaced(points)
    requires points != [] ==> Apart(points[|points| - 1], q)
    ensures Spaced(points + [q])
  {
    var grown := points + [q];
    forall i | 0 < i < |grown|
      ensures Apart(grown[i - 1], grown[i])
    {
      if i < |points| {
        assert grown[i - 1] == points[i - 1] && grown[i] == points[i];
      }
    }
  }

  lemma SpacedIsIncreasing(points: seq<Point>)
    requires Spaced(points)
    ensures Increasing(points)
  {
    forall i | 0 < i < |points|
      ensures points[i - 1].time < points[i].time
    {
      assert Apart(points[i - 1], points[i]);
    }
  }

  /** Admitting a sample to an invariant state gives an invariant state. */
  lemma AdmitKeepsInv(s: State, x: real, y: real, now: real)
    requires Inv(s)
    requires now - s.lastCheckTime > ThrottleInterval && MovedEnough(s.lastPos, x, y)
    ensures Inv(s.(points := Recent(s.points + [Point(x, y, now)], now),
                   lastPos := Some(Pos(x, y)), lastCheckTime := now))
  {
    var q := Point(x, y, now);
    var n := |s.points|;
    assert (s.points + [q])[..n] == s.points;
    assert Recent(s.points + [q], now) == Recent(s.points, now) + [q];
    SpacedIsIncreasing(s.points);
    RecentIsSuffix(s.points, now);
    RecentMembers(s.points, now);
    var old_kept := Recent(s.points, now);
    SpacedSuffix(s.points, n - |old_kept|);
    if old_kept != [] {
      assert old_kept[|old_kept| - 1] == s.points[n - 1];
      assert Apart(s.points[n - 1], q);
    }
    SpacedAppend(old_kept, q);
    var kept := old_kept + [q];
    forall i | 0 <= i < |kept|
      ensures now - kept[i].time < WindowAge
    {
      if i < |old_kept| {
        assert old_kept[i] in old_kept;
      }
    }
  }

  /**
   * Eviction happens only at the oldest end: from an invariant state, an
   * admission without a detection leaves a suffix of the old buffer followed
   * by the new sample.
   */
  lemma AdmissionEvictsOldest(m: MathLib, s: State, kind: EventKind, x: real, y: real, now: real)
    requires Inv(s) && Admits(s, kind, x, y, now)
    ensures var r := Transition(m, s, kind, x, y, now);
      var grown := s.points + [Point(x, y, now)];
      r.event.None? ==> r.next.points == grown[|grown| - |r.next.points|..]
  {
    var r := Transition(m, s, kind, x, y, now);
    if r.event.None? {
      TransitionBuffer(m, s, kind, x, y, now);
      SpacedIsIncreasing(s.points);
      RecentIsSuffix(s.points, now);
      SuffixAppend(s.points, |Recent(s.points, now)|, Point(x, y, now));
    }
  }

  lemma SuffixAppend<T>(xs: seq<T>, k: nat, q: T)
    requires k <= |xs|
    ensures (xs + [q])[|xs + [q]| - (k + 1)..] == xs[|xs| - k..] + [q]
  {
  }

  /** The throttle is strict: a move exactly `ThrottleInterval` after the last check is dropped. */
  lemma ThrottleIsStrict(m: MathLib, s: State, x: real, y: real)
    ensures Transition(m, s, MouseMoved, x, y, s.lastCheckTime + ThrottleInterval) == StepResult(s, None)
  {
  }

  /** Every step keeps the invariant. */
  lemma TransitionPreservesInv(m: MathLib, s: State, kind: EventKind, x: real, y: real, now: real)
    requires Inv(s)
    ensures Inv(Transition(m, s, kind, x, y, now).next)
  {
    if Admits(s, kind, x, y, now) {
      AdmitKeepsInv(s, x, y, now);
    }
  }

  /**
   * `TransitionPreservesInv` for a state already named `next`; kept apart so
   * that `MouseEventCallback`'s proof stays within the solver's budget.
   */
  lemma StepKeepsInv(m: MathLib, s: State, kind: EventKind, x: real, y: real, now: real, next: State)
    requires next == Transition(m, s, kind, x, y, now).next
    ensures Inv(s) ==> Inv(next)
  {
    if Inv(s) {
      TransitionPreservesInv(m, s, kind, x, y, now);
    }
  }

  // ---------------------------------------------------------------------
  // The detector object

  class GlobalGestureDetector {
    var gesturePoints: seq<Point>
    var isTracking: bool
    var lastPos: Option<Pos>
    var lastCheckTime: real
    var lastDetectionTime: real
    /** The numeric primitives the circular-motion test uses. */
    const math: MathLib

    function Snapshot(): State
      reads this
    {
      State(gesturePoints, isTracking, lastPos, lastCheckTime, lastDetectionTime)
    }

    ghost predicate Valid()
      reads this
    {
      Inv(Snapshot())
    }

    constructor (math: MathLib)
      ensures Snapshot() == Initial() && this.math == math
      ensures Valid()
    {
      gesturePoints := [];
      isTracking := false;
      lastPos := None;
      lastCheckTime := 0.0;
      lastDetectionTime := 0.0;
      this.math := math;
    }

    /**
     * Handle one pointer event observed at time `now`; returns the number of
     * buffered points when a circular gesture is detected.
     */
    method MouseEventCallback(kind: EventKind, x: real, y: real, now: real) returns (event: Option<nat>)
      modifies this
      ensures StepResult(Snapshot(), event) == Transition(math, old(Snapshot()), kind, x, y, now)
      ensures old(Valid()) ==> Valid()
    {
      ghost var before := Snapshot();
      event := None;
      if isTracking && kind == MouseMoved {
        if now - lastCheckTime > ThrottleInterval
          && (lastPos.None?
              || Abs(x - lastPos.value.x) > MovementThreshold
              || Abs(y - lastPos.value.y) > MovementThreshold)
        {
          Record(x, y, now);
          event := CheckForGesture(now);
        }
      }
      StepKeepsInv(math, before, kind, x, y, now, Snapshot());
    }

    /**
     * Append the sample, make it the last position and check time, then drop
     * expired samples. A step of `MouseEventCallback` only, taken after its
     * gate: called on its own it may break `Valid()`.
     */
    method Record(x: real, y: real, now: real)
      modifies this
      ensures Snapshot() == old(Snapshot()).(points := Recent(old(gesturePoints) + [Point(x, y, now)], now),
                                              lastPos := Some(Pos(x, y)), lastCheckTime := now)
    {
      gesturePoints := gesturePoints + [Point(x, y, now)];
      lastPos := Some(Pos(x, y));
      lastCheckTime := now;
      gesturePoints := Recent(gesturePoints, now);
    }

    /**
     * Report and clear the buffer if it is long enough, the cooldown has
     * passed and it traces a circle. A step of `MouseEventCallback` only,
     * taken after `Record`.
     */
    method CheckForGesture(now: real) returns (event: Option<nat>)
      modifies this
      ensures var fire := |old(gesturePoints)| > DetectionMinBuffer
                          && now - old(lastDetectionTime) > DetectionCooldown
                          && IsCircular(math, old(gesturePoints));
        && event == (if fire then Some(|old(gesturePoints)|) else None)
        && Snapshot() == if fire then old(Snapshot()).(points := [], lastDetectionTime := now) else old(Snapshot())
    {
      event := None;
      if |gesturePoints| > DetectionMinBuffer && now - lastDetectionTime > DetectionCooldown {
        var circular := DetectCircularGesture(math, gesturePoints);
        if circular {
          event := Some(|gesturePoints|);
          gesturePoints := [];
          lastDetectionTime := now;
        }
      }
    }

    /** The `start` command: turn tracking on; the buffer is kept. */
    method Start()
      modifies this`isTracking
      ensures Snapshot() == old(Snapshot()).(tracking := true)
      ensures old(Valid()) ==> Valid()
    {
      isTracking := true;
    }

    /** The `stop` command: turn tracking off; the buffer is kept. */
    method Stop()
      modifies this`isTracking
      ensures Snapshot() == old(Snapshot()).(tracking := false)
      ensures old(Valid()) ==> Valid()
    {
      isTracking := false;
    }
  }

  // ---------------------------------------------------------------------
  // Many steps

  /** A pointer event at time `now`, or a start/stop command. */
  datatype Input =
    | Sample(kind: EventKind, x: real, y: real, now: real)
    | SetTracking(on: bool)

  /** Where a run ends, the samples it admitted and the times it detected a gesture. */
  datatype Trace = Trace(final: State, admitted: seq<Point>, detections: seq<real>)

  /** The trace after one more input. */
  function Extend(m: MathLib, t: Trace, input: Input): Trace
  {
    match input
    case SetTracking(on) => t.(final := t.final.(tracking := on))
    case Sample(kind, x, y, now) =>
      var r := Transition(m, t.final, kind, x, y, now);
      Trace(r.next,
            if Admits(t.final, kind, x, y, now) then t.admitted + [Point(x, y, now)] else t.admitted,
            if r.event.Some? then t.detections + [now] else t.detections)
  }

  /**
   * The trace of replaying `inputs` from `s`: each input admits at most one
   * sample and adds at most one detection.
   */
  function Run(m: MathLib, s: State, inputs: seq<Input>): (t: Trace)
    ensures |t.admitted| <= |inputs| && |t.detections| <= |inputs|
  {
    if inputs == [] then Trace(s, [], [])
    else Extend(m, Run(m, s, inputs[..|inputs| - 1]), inputs[|inputs| - 1])
  }

  /**
   * Any two samples admitted one after the other, across start and stop
   * commands, are more than the throttle interval apart in time and more than
   * the movement threshold apart on one axis.
   */
  lemma {:induction false} AdmissionsApart(m: MathLib, s: State, inputs: seq<Input>)
    ensures var t := Run(m, s, inputs);
      && Spaced(t.admitted)
      && (|t.admitted| > 0 ==>
            var newest := t.admitted[|t.admitted| - 1];
            t.final.lastPos == Some(Pos(newest.x, newest.y)) && t.final.lastCheckTime == newest.time)
      && (|t.admitted| == 0 ==> t.final.lastPos == s.lastPos && t.final.lastCheckTime == s.lastCheckTime)
  {
    if inputs != [] {
      var prefix := inputs[..|inputs| - 1];
      AdmissionsApart(m, s, prefix);
      var t := Run(m, s, prefix);
      var input := inputs[|inputs| - 1];
      assert Run(m, s, inputs) == Extend(m, t, input);
      ExtendAdmissions(m, t, input);
      if input.Sample? && Admits(t.final, input.kind, input.x, input.y, input.now) {
        SpacedAppend(t.admitted, Point(input.x, input.y, input.now));
      }
    }
  }

  /**
   * One input admits at most one sample; an admitted sample becomes the last
   * position and the last check time, which otherwise stay as they were.
   */
  lemma ExtendAdmissions(m: MathLib, t: Trace, input: Input)
    ensures var t' := Extend(m, t, input);
      if input.Sample? && Admits(t.final, input.kind, input.x, input.y, input.now) then
        && t'.admitted == t.admitted + [Point(input.x, input.y, input.now)]
        && t'.final.lastPos == Some(Pos(input.x, input.y))
        && t'.final.lastCheckTime == input.now
      else
        && t'.admitted == t.admitted
        && t'.final.lastPos == t.final.lastPos
        && t'.final.lastCheckTime == t.final.lastCheckTime
  {
    if input.Sample? {
      TransitionGate(m, t.final, input.kind, input.x, input.y, input.now);
    }
  }

  /**
   * One input adds at most one detection; a new detection comes more than the
   * cooldown after the last one and becomes the last detection time, which
   * otherwise stays as it was.
   */
  lemma ExtendDetections(m: MathLib, t: Trace, input: Input)
    ensures var t' := Extend(m, t, input);
      && (t'.detections == t.detections || t'.detections == t.detections + [t'.final.lastDetectionTime])
      && (t'.detections == t.detections ==> t'.final.lastDetectionTime == t.final.lastDetectionTime)
      && (t'.detections != t.detections ==>
            t'.final.lastDetectionTime - t.final.lastDetectionTime > DetectionCooldown)
  {
    match input
    case SetTracking(on) =>
    case Sample(kind, x, y, now) =>
      TransitionGate(m, t.final, kind, x, y, now);
  }

  /**
   * Detection times `ds` respect the cooldown from a start at which the last
   * detection time was `start`: the first comes more than the cooldown after
   * `start`, each later one more than the cooldown after the one before, and
   * `last`, the last detection time now, is the latest of them (or `start`).
   */
  ghost predicate CooldownRespected(ds: seq<real>, start: real, last: real)
  {
    && (forall i :: 0 < i < |ds| ==> ds[i] - ds[i - 1] > DetectionCooldown)
    && (|ds| > 0 ==> ds[0] - start > DetectionCooldown && last == ds[|ds| - 1])
    && (|ds| == 0 ==> last == start)
  }

  lemma CooldownRespectedStep(ds: seq<real>, ds': seq<real>, start: real, last: real, last': real)
    requires CooldownRespected(ds, start, last)
    requires ds' == ds || (ds' == ds + [last'] && last' - last > DetectionCooldown)
    requires ds' == ds ==> last' == last
    ensures CooldownRespected(ds', start, last')
  {
    if ds' != ds {
      forall i | 0 < i < |ds'|
        ensures ds'[i] - ds'[i - 1] > DetectionCooldown
      {
        if i < |ds| {
          assert ds'[i] == ds[i] && ds'[i - 1] == ds[i - 1];
        }
      }
    }
  }

  /**
   * Two detections are always more than the cooldown apart, and the last
   * detection time changes only on a detection.
   */
  lemma {:induction false} DetectionsApart(m: MathLib, s: State, inputs: seq<Input>)
    ensures CooldownRespected(Run(m, s, inputs).detections, s.lastDetectionTime, Run(m, s, inputs).final.lastDetectionTime)
  {
    if inputs != [] {
      var prefix := inputs[..|inputs| - 1];
      DetectionsApart(m, s, prefix);
      var t := Run(m, s, prefix);
      ExtendDetections(m, t, inputs[|inputs| - 1]);
      var t' := Extend(m, t, inputs[|inputs| - 1]);
      CooldownRespectedStep(t.detections, t'.detections, s.lastDetectionTime,
                            t.final.lastDetectionTime, t'.final.lastDetectionTime);
    }
  }

  /** Every state a run reaches from an invariant state keeps the invariant. */
  lemma {:induction false} RunPreservesInv(m: MathLib, s: State, inputs: seq<Input>)
    requires Inv(s)
    ensures Inv(Run(m, s, inputs).final)
  {
    if inputs != [] {
      var prefix := inputs[..|inputs| - 1];
      RunPreservesInv(m, s, prefix);
      match inputs[|inputs| - 1]
      case SetTracking(on) =>
      case Sample(kind, x, y, now) =>
        TransitionPreservesInv(m, Run(m, s, prefix).final, kind, x, y, now);
    }
  }
}
