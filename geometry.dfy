/**
 * The circular-motion test of the gesture detector: given the buffered
 * pointer samples, decide whether the most recent ones wind around their
 * centroid far enough to count as a circle.
 *
 * Floating point is not modelled: coordinates and angles are reals, and the
 * square root, the two-argument arctangent and pi are supplied as a `MathLib`
 * value about which only a few facts are assumed (see `ValidMath`).
 */
module Geometry {

  /** One admitted pointer sample: screen position and timestamp (seconds). */
  datatype Point = Point(x: real, y: real, time: real)

  /** A bare screen position (the detector's last position, a centroid). */
  datatype Pos = Pos(x: real, y: real)

  /** The numeric primitives the test relies on, left abstract. */
  datatype MathLib = MathLib(pi: real, sqrt: real -> real, atan2: (real, real) -> real)

  /** The only facts assumed of the primitives. */
  ghost predicate ValidMath(m: MathLib)
  {
    && 0.0 < m.pi
    && m.sqrt(0.0) == 0.0
    && (forall v: real :: 0.0 <= v ==> 0.0 <= m.sqrt(v))
    && (forall dy: real, dx: real :: -m.pi <= m.atan2(dy, dx) <= m.pi)
  }

  /** Fewer buffered samples than this never make a circle. */
  const MinPoints: nat := 25
  /** The test looks at no more than this many of the latest samples. */
  const WindowSize: nat := 30
  /** Smallest mean distance to the centroid that can make a circle (pixels). */
  const MinRadius: real := 50.0
  /** Fraction of pi the unsigned turning must exceed: 1.6 pi is 80% of a turn. */
  const TurnFactor: real := 1.6

  function Abs(r: real): (a: real)
    ensures 0.0 <= a && (a == r || a == -r)
  {
    if r < 0.0 then -r else r
  }

  function Sum(xs: seq<real>): real
  {
    if xs == [] then 0.0 else Sum(xs[..|xs| - 1]) + xs[|xs| - 1]
  }

  function Mean(xs: seq<real>): real
    requires |xs| > 0
  {
    Sum(xs) / (|xs| as real)
  }

  /**
   * The evaluation window: the last `WindowSize` samples, or all of them when
   * there are fewer.
   */
  function EvaluationWindow(points: seq<Point>): (w: seq<Point>)
    ensures |w| == if |points| < WindowSize then |points| else WindowSize
    ensures points == points[..|points| - |w|] + w
  {
    if |points| <= WindowSize then points else points[|points| - WindowSize..]
  }

  function Xs(w: seq<Point>): (xs: seq<real>)
    ensures |xs| == |w|
  {
    seq(|w|, i requires 0 <= i < |w| => w[i].x)
  }

  function Ys(w: seq<Point>): (ys: seq<real>)
    ensures |ys| == |w|
  {
    seq(|w|, i requires 0 <= i < |w| => w[i].y)
  }

  /** The arithmetic mean of the window's positions. */
  function Centroid(w: seq<Point>): Pos
    requires |w| > 0
  {
    Pos(Mean(Xs(w)), Mean(Ys(w)))
  }

  function Square(r: real): (s: real)
    ensures 0.0 <= s
  {
    r * r
  }

  /** Euclidean distance from a sample to the centroid. */
  function Distance(m: MathLib, p: Point, c: Pos): real
  {
    m.sqrt(Square(p.x - c.x) + Square(p.y - c.y))
  }

  function Distances(m: MathLib, w: seq<Point>, c: Pos): (ds: seq<real>)
    ensures |ds| == |w|
  {
    seq(|w|, i requires 0 <= i < |w| => Distance(m, w[i], c))
  }

  /** Polar angle of a sample around the centroid. */
  function Angle(m: MathLib, p: Point, c: Pos): real
  {
    m.atan2(p.y - c.y, p.x - c.x)
  }

  function Angles(m: MathLib, w: seq<Point>, c: Pos): (angles: seq<real>)
    ensures |angles| == |w|
  {
    seq(|w|, i requires 0 <= i < |w| => Angle(m, w[i], c))
  }

  /**
   * One correction by a whole turn towards [-pi, pi]. The result differs from
   * `d` by a multiple of 2 pi, leaves an in-range difference alone, and lands
   * in [-pi, pi] whenever `d` is a difference of two in-range angles.
   */
  function NormaliseDelta(pi: real, d: real): (r: real)
    ensures r == d || r == d - 2.0 * pi || r == d + 2.0 * pi
    ensures -pi <= d <= pi ==> r == d
    ensures 0.0 <= pi && -2.0 * pi <= d <= 2.0 * pi ==> -pi <= r <= pi
  {
    if d > pi then d - 2.0 * pi
    else if d < -pi then d + 2.0 * pi
    else d
  }

  /**
   * Unsigned turning of an angle sequence: the sum of the absolute normalised
   * differences between neighbours.
   */
  function AngleSum(pi: real, angles: seq<real>): (total: real)
    ensures 0.0 <= total
  {
    if |angles| < 2 then 0.0
    else
      AngleSum(pi, angles[..|angles| - 1])
        + Abs(NormaliseDelta(pi, angles[|angles| - 1] - angles[|angles| - 2]))
  }

  /** The circular-motion test, as a specification. */
  function IsCircular(m: MathLib, points: seq<Point>): (r: bool)
    ensures |points| < MinPoints ==> !r
  {
    if |points| < MinPoints then false
    else
      var recent := EvaluationWindow(points);
      var center := Centroid(recent);
      if Mean(Distances(m, recent, center)) < MinRadius then false
      else AngleSum(m.pi, Angles(m, recent, center)) > m.pi * TurnFactor
  }

  /**
   * Only the evaluation window matters: on a buffer of at least `WindowSize`
   * samples the test gives the same answer on the window alone.
   */
  lemma OnlyWindowMatters(m: MathLib, points: seq<Point>)
    requires |points| >= WindowSize
    ensures IsCircular(m, points) == IsCircular(m, EvaluationWindow(points))
  {
    var w := EvaluationWindow(points);
    assert EvaluationWindow(w) == w;
  }

  /**
   * The test as the detector runs it: distances, angles and the accumulated
   * turning are built up by loops over the evaluation window.
   */
  method DetectCircularGesture(m: MathLib, points: seq<Point>) returns (detected: bool)
    ensures detected == IsCircular(m, points)
  {
    if |points| < MinPoints {
      return false;
    }
    var recent := EvaluationWindow(points);
    var center := Centroid(recent);

    var distances := RadialDistances(m, recent, center);
    var avgRadius := Sum(distances) / (|distances| as real);
    if avgRadius < MinRadius {
      return false;
    }
    var angles := PolarAngles(m, recent, center);
    var total := TotalAngleChange(m.pi, angles);
    detected := total > m.pi * TurnFactor;
  }

  /** The distance loop of the test: each window sample's distance from the centroid, in order. */
  method RadialDistances(m: MathLib, recent: seq<Point>, center: Pos) returns (distances: seq<real>)
    ensures distances == Distances(m, recent, center)
  {
    distances := [];
    var i := 0;
    while i < |recent|
      invariant 0 <= i <= |recent|
      invariant distances == Distances(m, recent, center)[..i]
    {
      distances := distances + [Distance(m, recent[i], center)];
      i := i + 1;
    }
  }

  /** The angle loop of the test: each window sample's polar angle around the centroid, in order. */
  method PolarAngles(m: MathLib, recent: seq<Point>, center: Pos) returns (angles: seq<real>)
    ensures angles == Angles(m, recent, center)
  {
    angles := [];
    var i := 0;
    while i < |recent|
      invariant 0 <= i <= |recent|
      invariant angles == Angles(m, recent, center)[..i]
    {
      angles := angles + [Angle(m, recent[i], center)];
      i := i + 1;
    }
  }

  /**
   * The accumulation loop of the test: add up the absolute normalised
   * differences of neighbouring angles.
   */
  method TotalAngleChange(pi: real, angles: seq<real>) returns (total: real)
    ensures total == AngleSum(pi, angles)
  {
    total := 0.0;
    if |angles| == 0 {
      return;
    }
    var j := 1;
    while j < |angles|
      invariant 1 <= j <= |angles|
      invariant total == AngleSum(pi, angles[..j])
    {
      var diff := angles[j] - angles[j - 1];
      if diff > pi {
        diff := diff - 2.0 * pi;
      } else if diff < -pi {
        diff := diff + 2.0 * pi;
      }
      total := total + Abs(diff);
      assert angles[..j + 1][..j] == angles[..j];
      j := j + 1;
    }
    assert angles[..j] == angles;
  }

  // ---------------------------------------------------------------------
  // Means

  lemma {:induction false} SumAtLeast(xs: seq<real>, lo: real)
    requires forall i :: 0 <= i < |xs| ==> lo <= xs[i]
    ensures (|xs| as real) * lo <= Sum(xs)
  {
    if xs != [] {
      var n := |xs|;
      SumAtLeast(xs[..n - 1], lo);
      assert ((n - 1) as real) * lo + lo == (n as real) * lo;
    }
  }

  lemma {:induction false} SumAtMost(xs: seq<real>, hi: real)
    requires forall i :: 0 <= i < |xs| ==> xs[i] <= hi
    ensures Sum(xs) <= (|xs| as real) * hi
  {
    if xs != [] {
      var n := |xs|;
      SumAtMost(xs[..n - 1], hi);
      assert ((n - 1) as real) * hi + hi == (n as real) * hi;
    }
  }

  lemma {:induction false} SumBelow(xs: seq<real>, hi: real)
    requires |xs| > 0
    requires forall i :: 0 <= i < |xs| ==> xs[i] < hi
    ensures Sum(xs) < (|xs| as real) * hi
  {
    var n := |xs|;
    if n > 1 {
      SumBelow(xs[..n - 1], hi);
      assert ((n - 1) as real) * hi + hi == (n as real) * hi;
    }
  }

  lemma DivideBounds(s: real, n: real, lo: real)
    requires 0.0 < n
    ensures n * lo <= s ==> lo <= s / n
    ensures s <= n * lo ==> s / n <= lo
    ensures s < n * lo ==> s / n < lo
  {
  }

  /** A mean lies between any bounds of its terms. */
  lemma MeanWithin(xs: seq<real>, lo: real, hi: real)
    requires |xs| > 0
    requires forall i :: 0 <= i < |xs| ==> lo <= xs[i] <= hi
    ensures lo <= Mean(xs) <= hi
  {
    SumAtLeast(xs, lo);
    SumAtMost(xs, hi);
    DivideBounds(Sum(xs), |xs| as real, lo);
    DivideBounds(Sum(xs), |xs| as real, hi);
  }

  /** A mean of terms all below a bound is below it. */
  lemma MeanBelow(xs: seq<real>, hi: real)
    requires |xs| > 0
    requires forall i :: 0 <= i < |xs| ==> xs[i] < hi
    ensures Mean(xs) < hi
  {
    SumBelow(xs, hi);
    DivideBounds(Sum(xs), |xs| as real, hi);
  }

  // ---------------------------------------------------------------------
  // The centroid and the radius gate

  /** The centroid lies in every axis-aligned box that holds the window. */
  lemma CentroidInBox(w: seq<Point>, lo: Pos, hi: Pos)
    requires |w| > 0
    requires forall i :: 0 <= i < |w| ==> lo.x <= w[i].x <= hi.x && lo.y <= w[i].y <= hi.y
    ensures lo.x <= Centroid(w).x <= hi.x && lo.y <= Centroid(w).y <= hi.y
  {
    MeanWithin(Xs(w), lo.x, hi.x);
    MeanWithin(Ys(w), lo.y, hi.y);
  }

  /** The mean radius is never negative. */
  lemma MeanRadiusNonNegative(m: MathLib, w: seq<Point>, c: Pos)
    requires ValidMath(m)
    requires |w| > 0
    ensures 0.0 <= Mean(Distances(m, w, c))
  {
    var ds := Distances(m, w, c);
    forall i | 0 <= i < |ds|
      ensures 0.0 <= ds[i]
    {
      assert 0.0 <= Square(w[i].x - c.x) + Square(w[i].y - c.y);
    }
    SumAtLeast(ds, 0.0);
    DivideBounds(Sum(ds), |ds| as real, 0.0);
  }

  /**
   * Radius gate: when the test fires, some sample of the evaluation window is
   * at least `MinRadius` away from the centroid.
   */
  lemma CircularNeedsFarPoint(m: MathLib, points: seq<Point>)
    requires IsCircular(m, points)
    ensures var w := EvaluationWindow(points);
      exists i :: 0 <= i < |w| && Distance(m, w[i], Centroid(w)) >= MinRadius
  {
    var w := EvaluationWindow(points);
    var ds := Distances(m, w, Centroid(w));
    if forall i :: 0 <= i < |w| ==> Distance(m, w[i], Centroid(w)) < MinRadius {
      MeanBelow(ds, MinRadius);
      assert false;
    }
  }

  /** Samples that all sit at one position have that position as centroid. */
  lemma CentroidOfCoincident(w: seq<Point>, at: Pos)
    requires |w| > 0
    requires forall i :: 0 <= i < |w| ==> w[i].x == at.x && w[i].y == at.y
    ensures Centroid(w) == at
  {
    CentroidInBox(w, at, at);
  }

  lemma DistancesToOwnPosition(m: MathLib, w: seq<Point>, at: Pos)
    requires ValidMath(m)
    requires forall i :: 0 <= i < |w| ==> w[i].x == at.x && w[i].y == at.y
    ensures forall i :: 0 <= i < |w| ==> Distances(m, w, at)[i] == 0.0
  {
    forall i | 0 <= i < |w|
      ensures Distances(m, w, at)[i] == 0.0
    {
      assert Square(w[i].x - at.x) + Square(w[i].y - at.y) == 0.0;
    }
  }

  /**
   * Samples that all sit at one position never make a circle: the centroid is
   * that position and every distance to it is zero.
   */
  lemma CoincidentNeverCircular(m: MathLib, points: seq<Point>, at: Pos)
    requires ValidMath(m)
    requires forall i :: 0 <= i < |points| ==> points[i].x == at.x && points[i].y == at.y
    ensures !IsCircular(m, points)
  {
    if |points| >= MinPoints {
      var w := EvaluationWindow(points);
      assert forall i :: 0 <= i < |w| ==> w[i] == points[|points| - |w| + i];
      CentroidOfCoincident(w, at);
      DistancesToOwnPosition(m, w, at);
      MeanBelow(Distances(m, w, at), MinRadius);
    }
  }

  // ---------------------------------------------------------------------
  // Angle accumulation

  /** The accumulated turning never decreases as angles are added. */
  lemma {:induction false} AngleSumMonotone(pi: real, angles: seq<real>, i: nat, j: nat)
    requires i <= j <= |angles|
    ensures AngleSum(pi, angles[..i]) <= AngleSum(pi, angles[..j])
    decreases j - i
  {
    if i < j {
      AngleSumMonotone(pi, angles, i, j - 1);
      if j >= 2 {
        assert angles[..j][..j - 1] == angles[..j - 1];
      }
    }
  }

  /** `k` copies of `c` added up. */
  function Times(k: nat, c: real): real
  {
    if k == 0 then 0.0 else Times(k - 1, c) + c
  }

  lemma {:induction false} TimesIsProduct(k: nat, c: real)
    ensures Times(k, c) == (k as real) * c
  {
    if k > 0 {
      TimesIsProduct(k - 1, c);
    }
  }

  /**
   * The bound of `AngleSumBounded`, with the product counted by repeated
   * addition: the induction stays linear, which keeps the solver fast.
   */
  lemma {:induction false} AngleSumAtMostHalfTurns(pi: real, angles: seq<real>)
    requires 0.0 < pi
    requires |angles| > 0
    requires forall i :: 0 <= i < |angles| ==> -pi <= angles[i] <= pi
    ensures AngleSum(pi, angles) <= Times(|angles| - 1, pi)
  {
    var n := |angles|;
    if n >= 2 {
      AngleSumAtMostHalfTurns(pi, angles[..n - 1]);
    }
  }

  /** With every angle in [-pi, pi], n angles turn through at most (n - 1) pi. */
  lemma AngleSumBounded(pi: real, angles: seq<real>)
    requires 0.0 < pi
    requires |angles| > 0
    requires forall i :: 0 <= i < |angles| ==> -pi <= angles[i] <= pi
    ensures AngleSum(pi, angles) <= ((|angles| - 1) as real) * pi
  {
    AngleSumAtMostHalfTurns(pi, angles);
    BelowProduct(AngleSum(pi, angles), |angles| - 1, pi);
  }

  /** Turns the repeated-addition bound into a product, in a small proof context. */
  lemma BelowProduct(a: real, k: nat, c: real)
    requires a <= Times(k, c)
    ensures a <= (k as real) * c
  {
    TimesIsProduct(k, c);
  }

  /** Every polar angle around the centroid lies in [-pi, pi]. */
  lemma AnglesInRange(m: MathLib, w: seq<Point>, c: Pos)
    requires ValidMath(m)
    ensures forall i :: 0 <= i < |w| ==> -m.pi <= Angles(m, w, c)[i] <= m.pi
  {
    forall i | 0 <= i < |w|
      ensures -m.pi <= Angles(m, w, c)[i] <= m.pi
    {
      assert Angles(m, w, c)[i] == m.atan2(w[i].y - c.y, w[i].x - c.x);
    }
  }

  /** Each normalised step between neighbouring polar angles is at most half a turn. */
  lemma WindowStepsWithinHalfTurn(m: MathLib, w: seq<Point>, c: Pos)
    requires ValidMath(m)
    ensures var angles := Angles(m, w, c);
      forall i :: 0 < i < |angles| ==> -m.pi <= NormaliseDelta(m.pi, angles[i] - angles[i - 1]) <= m.pi
  {
    AnglesInRange(m, w, c);
  }

  /** The window's turning is at most (n - 1) half-turns. */
  lemma WindowTurningBounded(m: MathLib, w: seq<Point>, c: Pos)
    requires ValidMath(m)
    requires |w| > 0
    ensures AngleSum(m.pi, Angles(m, w, c)) <= ((|w| - 1) as real) * m.pi
  {
    AnglesInRange(m, w, c);
    TurningOfAnglesInRange(m, w, c);
  }

  /**
   * `WindowTurningBounded` once the angles are known to be in range; kept
   * apart so that the arithmetic is proved without the `ValidMath`
   * quantifiers in scope, which keeps the solver fast.
   */
  lemma TurningOfAnglesInRange(m: MathLib, w: seq<Point>, c: Pos)
    requires 0.0 < m.pi
    requires |w| > 0
    requires forall i :: 0 <= i < |w| ==> -m.pi <= Angles(m, w, c)[i] <= m.pi
    ensures AngleSum(m.pi, Angles(m, w, c)) <= ((|w| - 1) as real) * m.pi
  {
    AngleSumBounded(m.pi, Angles(m, w, c));
  }

  /** Angles that swing back and forth between 0 and pi, `n` of them. */
  function BackAndForth(pi: real, n: nat): (angles: seq<real>)
    ensures |angles| == n
  {
    seq(n, i requires 0 <= i < n => if i % 2 == 0 then 0.0 else pi)
  }

  /**
   * The turning is unsigned: every reversal between opposite sides of the
   * centroid adds half a turn, so n such samples add up to n - 1 half-turns.
   */
  lemma {:induction false} ReversalsCountAsTurning(pi: real, n: nat)
    requires 0.0 < pi && n > 0
    ensures AngleSum(pi, BackAndForth(pi, n)) == Times(n - 1, pi)
  {
    if n >= 2 {
      var angles := BackAndForth(pi, n);
      assert angles[..n - 1] == BackAndForth(pi, n - 1);
      ReversalsCountAsTurning(pi, n - 1);
      assert Abs(NormaliseDelta(pi, angles[n - 1] - angles[n - 2])) == pi;
    }
  }

  /** A full window of such reversals passes the turning threshold. */
  lemma ReversalsPassTurningTest(pi: real)
    requires 0.0 < pi
    ensures AngleSum(pi, BackAndForth(pi, WindowSize)) > pi * TurnFactor
  {
    ReversalsCountAsTurning(pi, WindowSize);
    TimesIsProduct(WindowSize - 1, pi);
  }

  /**
   * Samples whose polar angles around the centroid swing back and forth
   * between 0 and pi across a full window pass the test once their mean
   * radius clears the gate.
   */
  lemma BackAndForthIsCircular(m: MathLib, points: seq<Point>)
    requires 0.0 < m.pi
    requires |points| >= WindowSize
    requires var w := EvaluationWindow(points);
      && Angles(m, w, Centroid(w)) == BackAndForth(m.pi, WindowSize)
      && Mean(Distances(m, w, Centroid(w))) >= MinRadius
    ensures IsCircular(m, points)
  {
    ReversalsPassTurningTest(m.pi);
  }

  /**
   * Steady rotation: when every step between neighbours advances by the same
   * `delta`, possibly wrapping once across the +-pi seam, the turning is one
   * `delta` per step.
   */
  lemma {:induction false} SteadyTurning(pi: real, angles: seq<real>, delta: real)
    requires 0.0 < delta <= pi
    requires |angles| > 0
    requires forall i :: 0 < i < |angles| ==>
      angles[i] - angles[i - 1] == delta || angles[i] - angles[i - 1] == delta - 2.0 * pi
    ensures AngleSum(pi, angles) == Times(|angles| - 1, delta)
  {
    var n := |angles|;
    if n >= 2 {
      var prefix := angles[..n - 1];
      SteadyTurning(pi, prefix, delta);
      assert Abs(NormaliseDelta(pi, angles[n - 1] - angles[n - 2])) == delta;
    }
  }

  /**
   * A full revolution is detected: samples whose polar angles around the
   * centroid advance steadily by a thirtieth of a turn across a full window,
   * wrapping across the +-pi seam where they reach it, pass the test once
   * their mean radius clears the gate.
   */
  lemma FullRevolutionIsCircular(m: MathLib, points: seq<Point>)
    requires 0.0 < m.pi
    requires |points| >= WindowSize
    requires var w := EvaluationWindow(points);
      var angles := Angles(m, w, Centroid(w));
      && (forall i :: 0 < i < |angles| ==>
            angles[i] - angles[i - 1] == m.pi / 15.0
            || angles[i] - angles[i - 1] == m.pi / 15.0 - 2.0 * m.pi)
      && Mean(Distances(m, w, Centroid(w))) >= MinRadius
    ensures IsCircular(m, points)
  {
    var w := EvaluationWindow(points);
    var angles := Angles(m, w, Centroid(w));
    SteadyTurning(m.pi, angles, m.pi / 15.0);
    TimesIsProduct(WindowSize - 1, m.pi / 15.0);
  }

  /**
   * Crossing the seam at +-pi counts as a small step: going from 3.0 to -3.0
   * radians turns through 2 pi - 6, not through 6.
   */
  lemma SeamCrossingIsSmall(pi: real)
    requires 3.14 < pi < 3.15
    ensures 0.28 < NormaliseDelta(pi, -3.0 - 3.0) < 0.3
    ensures 0.56 < AngleSum(pi, [3.0, -3.0, 3.0]) < 0.6
  {
    var a := [3.0, -3.0, 3.0];
    assert a[..2] == [3.0, -3.0];
    assert [3.0, -3.0][..1] == [3.0];
    assert AngleSum(pi, [3.0, -3.0]) == Abs(NormaliseDelta(pi, -3.0 - 3.0));
    assert AngleSum(pi, a) == AngleSum(pi, [3.0, -3.0]) + Abs(NormaliseDelta(pi, 3.0 - -3.0));
  }
}
