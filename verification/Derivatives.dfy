/** Pressure derivatives over the last ten samples. */
module Derivatives {
  import opened Reals
  import opened LeastSquares
  import opened Threat

  /** One pressure reading; the timestamp is in nanoseconds. */
  datatype Sample = Sample(timestamp: int, pressure: real, temperature: real, vaporFlux: real)

  const WINDOW: nat := 10

  function Window(s: seq<Sample>): (w: seq<Sample>)
    ensures |w| == if |s| < WINDOW then |s| else WINDOW
  {
    if |s| <= WINDOW then s else s[|s| - WINDOW..]
  }

  function ToPoint(start: Sample, s: Sample): (p: Point) {
    Point(Seconds(s.timestamp - start.timestamp), s.pressure)
  }

  /** Pressures against seconds since the first sample of the window. */
  function Points(w: seq<Sample>): (p: seq<Point>)
    ensures |p| == |w|
    ensures forall i :: 0 <= i < |w| ==> p[i] == ToPoint(w[0], w[i])
  {
    seq(|w|, i requires 0 <= i < |w| => ToPoint(w[0], w[i]))
  }

  function FirstDerivative(s: seq<Sample>): (d: real) {
    if |s| < 2 then 0.0 else Slope(Points(Window(s)))
  }

  /** Slope from one sample to the next. */
  function Step(a: Sample, b: Sample): (d: real)
    requires Seconds(b.timestamp - a.timestamp) > 0.0
  {
    (b.pressure - a.pressure) / Seconds(b.timestamp - a.timestamp)
  }

  /** The step slopes, skipping steps whose clock did not advance. */
  function Steps(w: seq<Sample>): (d: seq<real>)
    ensures |d| <= |w|
  {
    if |w| < 2 then []
    else
      var a, b := w[|w| - 2], w[|w| - 1];
      Steps(w[..|w| - 1]) + if Seconds(b.timestamp - a.timestamp) <= 0.0 then [] else [Step(a, b)]
  }

  lemma {:induction false} StepsGrow(w: seq<Sample>, k: nat)
    requires 1 <= k < |w|
    ensures var dt := Seconds(w[k].timestamp - w[k - 1].timestamp);
      Steps(w[..k + 1]) == Steps(w[..k]) + if dt <= 0.0 then [] else [Step(w[k - 1], w[k])]
  {
    assert w[..k + 1][..k] == w[..k];
  }

  /** Values against their own index. */
  function Indexed(d: seq<real>): (p: seq<Point>)
    ensures |p| == |d|
    ensures forall i :: 0 <= i < |d| ==> p[i] == Point(i as real, d[i])
  {
    seq(|d|, i requires 0 <= i < |d| => Point(i as real, d[i]))
  }

  function SecondDerivative(s: seq<Sample>): (d: real) {
    if |s| < 3 then 0.0
    else
      var steps := Steps(Window(s));
      if |steps| < 2 then 0.0 else Slope(Indexed(steps))
  }

  /** Both derivatives, zero until enough samples have arrived. */
  function Both(minSamples: int, s: seq<Sample>): (d: (real, real)) {
    if |s| < minSamples then (0.0, 0.0) else (FirstDerivative(s), SecondDerivative(s))
  }

  method ComputeFirstDerivative(s: seq<Sample>) returns (slope: real)
    ensures slope == FirstDerivative(s)
  {
    var n := |s|;
    if n < 2 {
      return 0.0;
    }
    var windowSize := if n < 10 then n else 10;
    var start := n - windowSize;
    ghost var w := Window(s);
    assert w == s[start..];
    var points: seq<Point> := [];
    for i := start to n
      invariant points == Points(w)[..i - start]
    {
      points := points + [ToPoint(s[start], s[i])];
    }
    assert points == Points(w);
    slope := Fit(points);
  }

  method ComputeSecondDerivative(s: seq<Sample>) returns (slope: real)
    ensures slope == SecondDerivative(s)
  {
    var n := |s|;
    if n < 3 {
      return 0.0;
    }
    var windowSize := if n < 10 then n else 10;
    var start := n - windowSize;
    ghost var w := Window(s);
    assert w == s[start..];
    var firstDerivs: seq<real> := [];
    for i := start + 1 to n
      invariant firstDerivs == Steps(w[..i - start])
    {
      var dt := Seconds(s[i].timestamp - s[i - 1].timestamp);
      assert s[i] == w[i - start] && s[i - 1] == w[i - 1 - start];
      StepsGrow(w, i - start);
      if dt > 0.0 {
        firstDerivs := firstDerivs + [Step(s[i - 1], s[i])];
      }
    }
    assert w[..n - start] == w;
    if |firstDerivs| < 2 {
      return 0.0;
    }
    slope := Fit(Indexed(firstDerivs));
  }

  // ----- the division guard

  lemma {:induction false} SecondsOfDifference(a: int, b: int, c: int)
    ensures Seconds(b - c) - Seconds(a - c) == Seconds(b - a)
  {
    DivideTimes((b - c) as real, NANOS);
    DivideTimes((a - c) as real, NANOS);
    DivideTimes((b - a) as real, NANOS);
  }

  /** Stamps a nanosecond apart are far above the guard. */
  lemma {:induction false} DistinctStamps(n: int)
    requires n != 0
    ensures Seconds(n) * Seconds(n) >= LeastSquares.TINY
  {
    var s := Seconds(n);
    DivideTimes(n as real, NANOS);
    if n >= 1 {
      CancelLeq(0.000000001, s, NANOS);
      SquareAtLeast(0.000000001, s);
    } else {
      CancelLeq(s, -0.000000001, NANOS);
      SquareAtLeast(0.000000001, -s);
      assert (-s) * (-s) == s * s;
    }
  }

  lemma {:induction false} SquareAtLeast(a: real, s: real)
    requires 0.0 <= a <= s
    ensures a * a <= s * s
  {
    MulLeq(a, s, a);
    MulLeq(a, s, s);
    assert s * a == a * s;
  }

  predicate SameStamps(w: seq<Sample>) {
    forall i, j :: 0 <= i < j < |w| ==> w[i].timestamp == w[j].timestamp
  }

  lemma {:induction false} RunOfStamps(w: seq<Sample>, i: nat, j: nat)
    requires i < j < |w|
    ensures Run(Points(w)[i], Points(w)[j])
         == Seconds(w[j].timestamp - w[i].timestamp) * Seconds(w[j].timestamp - w[i].timestamp)
  {
    SecondsOfDifference(w[i].timestamp, w[j].timestamp, w[0].timestamp);
  }

  lemma {:induction false} SumToZero(f: (Point, Point) -> real, s: seq<Point>, b: Point)
    requires forall i :: 0 <= i < |s| ==> f(s[i], b) == 0.0
    ensures SumTo(f, s, b) == 0.0
  {
    if s != [] {
      SumToZero(f, s[..|s| - 1], b);
    }
  }

  lemma {:induction false} PairSumZero(f: (Point, Point) -> real, s: seq<Point>)
    requires forall i, j :: 0 <= i < j < |s| ==> f(s[i], s[j]) == 0.0
    ensures PairSum(f, s) == 0.0
  {
    if s != [] {
      PairSumZero(f, s[..|s| - 1]);
      SumToZero(f, s[..|s| - 1], s[|s| - 1]);
    }
  }

  lemma {:induction false} SameGivesZero(w: seq<Sample>)
    requires SameStamps(w)
    ensures PairRun(Points(w)) == 0.0
  {
    var p := Points(w);
    forall i, j | 0 <= i < j < |p|
      ensures Run(p[i], p[j]) == 0.0
    {
      RunOfStamps(w, i, j);
    }
    PairSumZero(Run, p);
  }

  lemma {:induction false} DistinctRun(w: seq<Sample>, i: nat, j: nat)
    requires i < j < |w| && w[i].timestamp != w[j].timestamp
    ensures Run(Points(w)[i], Points(w)[j]) >= LeastSquares.TINY
  {
    RunOfStamps(w, i, j);
    DistinctStamps(w[j].timestamp - w[i].timestamp);
  }

  lemma {:induction false} AtLeastEachRun(p: seq<Point>, i: nat, j: nat, bound: real)
    requires i < j < |p| && Run(p[i], p[j]) >= bound
    ensures PairRun(p) >= bound
  {
    RunNonNeg(p);
  }

  lemma {:induction false} DistinctGivesMore(w: seq<Sample>, i: nat, j: nat)
    requires i < j < |w| && w[i].timestamp != w[j].timestamp
    ensures PairRun(Points(w)) >= LeastSquares.TINY
  {
    DistinctRun(w, i, j);
    AtLeastEachRun(Points(w), i, j, LeastSquares.TINY);
  }

  /** The fit is given up exactly when every stamp in the window is the same. */
  lemma {:induction false} GuardFiresIff(w: seq<Sample>)
    ensures PairRun(Points(w)) < LeastSquares.TINY <==> SameStamps(w)
  {
    if SameStamps(w) {
      SameGivesZero(w);
    } else {
      var i, j :| 0 <= i < j < |w| && w[i].timestamp != w[j].timestamp;
      DistinctGivesMore(w, i, j);
    }
  }

  // ----- what the first derivative means

  /** Otherwise the slope lies between the least and the greatest chord slope. */
  lemma {:induction false} FirstDerivativeBetweenChords(s: seq<Sample>, low: real, high: real)
    requires |s| >= 2 && !SameStamps(Window(s))
    requires ChordsAtLeast(Points(Window(s)), low) && ChordsAtMost(Points(Window(s)), high)
    ensures low <= FirstDerivative(s) <= high
  {
    GuardFiresIff(Window(s));
    SlopeBetweenChords(Points(Window(s)), low, high);
  }

  /** A straight line is recovered exactly. */
  lemma {:induction false} FirstDerivativeOfLine(s: seq<Sample>, a: real, b: real)
    requires |s| >= 2 && !SameStamps(Window(s))
    requires forall p :: p in Points(Window(s)) ==> OnLine(p, a, b)
    ensures FirstDerivative(s) == b
  {
    GuardFiresIff(Window(s));
    SlopeOfLine(Points(Window(s)), a, b);
  }

  /** The clock never goes back and the pressure never rises. */
  predicate Settling(w: seq<Sample>) {
    forall i, j :: 0 <= i < j < |w| ==>
      w[i].timestamp <= w[j].timestamp && w[i].pressure >= w[j].pressure
  }

  lemma {:induction false} SettlingChord(w: seq<Sample>, i: nat, j: nat)
    requires Settling(w) && i < j < |w| && Points(w)[i].t != Points(w)[j].t
    ensures Chord(Points(w)[i], Points(w)[j]) <= 0.0
  {
    var a, b := Points(w)[i], Points(w)[j];
    SecondsOfDifference(w[i].timestamp, w[j].timestamp, w[0].timestamp);
    QuotientNonNeg((w[j].timestamp - w[i].timestamp) as real, NANOS);
    var d := b.t - a.t;
    assert AtMostTimes(b.v - a.v, 0.0, d);
    QuotientAtMost(b.v - a.v, d, 0.0);
  }

  lemma {:induction false} SettlingDerivative(s: seq<Sample>)
    requires Settling(Window(s))
    ensures FirstDerivative(s) <= 0.0
  {
    var w := Window(s);
    if |s| >= 2 && !SameStamps(w) {
      GuardFiresIff(w);
      forall i, j | 0 <= i < j < |w| && Points(w)[i].t != Points(w)[j].t
        ensures Chord(Points(w)[i], Points(w)[j]) <= 0.0
      {
        SettlingChord(w, i, j);
      }
      SlopeAtMost(Points(w), 0.0);
    } else {
      GuardFiresIff(w);
    }
  }

  /** A settling window never counts as a surge, so the level depends on the pressure alone, unless the
      largest allowed rise is itself negative: Imminent from the limit on, Elevated from the warning share
      of it on, and otherwise Normal. */
  lemma {:induction false} SettlingLevel(l: Limits, minSamples: int, s: seq<Sample>, pressure: real)
    requires Settling(Window(s))
    ensures var (d, d2) := Both(minSamples, s);
      Classify(l, pressure, d, d2)
        == if pressure >= l.pressureLimit then Imminent
           else if pressure >= l.pressureLimit * l.warningRatio || d > l.maxDerivative then Elevated
           else Normal
  {
    SettlingDerivative(s);
    var (d, d2) := Both(minSamples, s);
    LevelWithoutRise(l, pressure, d, d2);
  }

  // ----- what the second derivative means

  lemma {:induction false} IndexedPrefix(d: seq<real>)
    requires d != []
    ensures Indexed(d)[..|d| - 1] == Indexed(d[..|d| - 1])
  {}

  /** t = k(k-1)/2 and tt = k(k-1)(2k-1)/6. */
  predicate IndexTotals(k: real, t: real, tt: real) {
    2.0 * t == k * (k - 1.0) && 6.0 * tt == k * (k - 1.0) * (2.0 * k - 1.0)
  }

  lemma {:induction false} IndexSums(d: seq<real>)
    ensures IndexTotals(|d| as real, Sum(T, Indexed(d)), Sum(TT, Indexed(d)))
  {
    if d != [] {
      var u := d[..|d| - 1];
      IndexSums(u);
      IndexedPrefix(d);
      var p := Indexed(d)[|d| - 1];
      assert p.t == |u| as real;
      IndexStep(|u| as real, Sum(T, Indexed(u)), Sum(TT, Indexed(u)), TT(p));
    }
  }

  lemma {:induction false} IndexStep(j: real, t: real, tt: real, w: real)
    requires IndexTotals(j, t, tt) && Product(w, j, j)
    ensures IndexTotals(j + 1.0, t + j, tt + w)
  {}

  /** The regression divisor over k indices is k^2 (k^2 - 1) / 12. */
  lemma {:induction false} IndexRun(d: seq<real>)
    ensures var k := |d| as real; 12.0 * PairRun(Indexed(d)) == k * k * (k * k - 1.0)
  {
    IndexSums(d);
    RunIdentity(Indexed(d));
    CountIs(Indexed(d));
    IndexDivisor(|d| as real, PairRun(Indexed(d)), Sum(T, Indexed(d)), Sum(TT, Indexed(d)));
  }

  lemma {:induction false} IndexDivisor(k: real, run: real, t: real, tt: real)
    requires IndexTotals(k, t, tt)
    requires PairSums(run, k, tt, t, t)
    ensures 12.0 * run == k * k * (k * k - 1.0)
  {
    var w := k * (k - 1.0);
    assert 12.0 * (k * tt) == 2.0 * k * (w * (2.0 * k - 1.0)) by {
      assert 6.0 * (k * tt) == k * (6.0 * tt);
    }
    assert 4.0 * (t * t) == w * w by { assert (2.0 * t) * (2.0 * t) == w * w; }
    assert 2.0 * k * (w * (2.0 * k - 1.0)) - 3.0 * (w * w) == k * k * (k * k - 1.0);
  }

  /** So with two or more step slopes the division guard never fires. */
  lemma {:induction false} IndexGuardNeverFires(d: seq<real>)
    requires |d| >= 2
    ensures PairRun(Indexed(d)) >= 1.0
  {
    var k := |d| as real;
    IndexRun(d);
    SquareAtLeast(2.0, k);
    var w := k * k;
    SquareAtLeast(3.0, w - 1.0);
    MulLeq(3.0, w - 1.0, w);
    assert w * 3.0 >= 12.0;
    assert w * (w - 1.0) == (w - 1.0) * w;
  }

  predicate NonDecreasing(d: seq<real>) {
    forall i, j :: 0 <= i < j < |d| ==> d[i] <= d[j]
  }

  lemma {:induction false} IndexChord(d: seq<real>, i: nat, j: nat)
    requires NonDecreasing(d) && i < j < |d|
    ensures 0.0 <= Chord(Indexed(d)[i], Indexed(d)[j])
  {
    var p := Indexed(d);
    assert p[j].t - p[i].t == (j - i) as real;
    QuotientNonNeg(p[j].v - p[i].v, p[j].t - p[i].t);
  }

  /** Step slopes that never fall give an acceleration that is not negative. */
  lemma {:induction false} SpeedingUp(s: seq<Sample>)
    requires NonDecreasing(Steps(Window(s)))
    ensures SecondDerivative(s) >= 0.0
  {
    var d := Steps(Window(s));
    if |s| >= 3 && |d| >= 2 {
      var p := Indexed(d);
      IndexGuardNeverFires(d);
      forall i, j | 0 <= i < j < |p| && p[i].t != p[j].t
        ensures 0.0 <= Chord(p[i], p[j])
      {
        IndexChord(d, i, j);
      }
      SlopeAtLeast(p, 0.0);
    }
  }

  function Parabola(a: real, b: real, c: real, t: real): (v: real) {
    a * (t * t) + b * t + c
  }

  function Instant(i: nat, dt: real): (t: real) {
    i as real * dt
  }

  /** Equally spaced samples of the parabola a t^2 + b t + c. */
  ghost predicate OnParabola(w: seq<Sample>, spacing: int, a: real, b: real, c: real) {
    && spacing > 0
    && (forall i, j :: 0 <= i < j < |w| && j == i + 1 ==> w[j].timestamp - w[i].timestamp == spacing)
    && (forall i :: 0 <= i < |w| ==> w[i].pressure == Parabola(a, b, c, Instant(i, Seconds(spacing))))
  }

  /** Slope of the parabola's chord over the i-th interval. */
  function ChordOn(a: real, b: real, dt: real, i: nat): (d: real) {
    (a * dt + b) + 2.0 * a * dt * (i as real)
  }

  predicate OnChords(d: seq<real>, a: real, b: real, dt: real) {
    forall i :: 0 <= i < |d| ==> d[i] == ChordOn(a, b, dt, i)
  }

  lemma {:induction false} ParabolaStep(a: real, b: real, c: real, i: nat, dt: real)
    requires dt > 0.0
    ensures (Parabola(a, b, c, Instant(i + 1, dt)) - Parabola(a, b, c, Instant(i, dt))) / dt == ChordOn(a, b, dt, i)
  {
    var t, u := Instant(i, dt), Instant(i + 1, dt);
    assert u == t + dt by { assert (i + 1) as real == i as real + 1.0; }
    ParabolaRise(a, b, c, t, dt, u);
    assert 2.0 * a * dt * (i as real) == 2.0 * (a * t);
    QuotientIs(Parabola(a, b, c, u) - Parabola(a, b, c, t), dt, ChordOn(a, b, dt, i));
  }

  lemma {:induction false} ParabolaRise(a: real, b: real, c: real, t: real, dt: real, u: real)
    requires u == t + dt
    ensures Parabola(a, b, c, u) - Parabola(a, b, c, t) == ((a * dt + b) + 2.0 * (a * t)) * dt
  {
    assert u * u == t * t + 2.0 * (t * dt) + dt * dt;
    assert a * (u * u) == a * (t * t) + 2.0 * (a * (t * dt)) + a * (dt * dt);
  }

  lemma {:induction false} SpacingPositive(spacing: int)
    requires spacing > 0
    ensures Seconds(spacing) > 0.0
  {
    QuotientPos(spacing as real, NANOS);
  }

  ghost predicate Ticks(w: seq<Sample>) {
    forall i, j :: 0 <= i < j < |w| && j == i + 1 ==> Seconds(w[j].timestamp - w[i].timestamp) > 0.0
  }

  /** Where every step advances the clock, no slope is skipped. */
  lemma {:induction false} StepsAre(w: seq<Sample>)
    requires |w| >= 1 && Ticks(w)
    ensures |Steps(w)| == |w| - 1
    ensures forall i :: 0 <= i < |w| - 1 ==> Steps(w)[i] == Step(w[i], w[i + 1])
  {
    if |w| >= 2 {
      StepsAre(w[..|w| - 1]);
    }
  }

  lemma {:induction false} ParabolaStepAt(w: seq<Sample>, i: nat, spacing: int, a: real, b: real, c: real)
    requires i + 1 < |w| && OnParabola(w, spacing, a, b, c)
    ensures Seconds(w[i + 1].timestamp - w[i].timestamp) == Seconds(spacing) > 0.0
    ensures Step(w[i], w[i + 1]) == ChordOn(a, b, Seconds(spacing), i)
  {
    SpacingPositive(spacing);
    ParabolaStep(a, b, c, i, Seconds(spacing));
  }

  lemma {:induction false} ParabolaSteps(w: seq<Sample>, spacing: int, a: real, b: real, c: real)
    requires |w| >= 1 && OnParabola(w, spacing, a, b, c)
    ensures |Steps(w)| == |w| - 1
    ensures OnChords(Steps(w), a, b, Seconds(spacing))
  {
    forall i, j | 0 <= i < j < |w| && j == i + 1
      ensures Seconds(w[j].timestamp - w[i].timestamp) > 0.0
    {
      ParabolaStepAt(w, i, spacing, a, b, c);
    }
    StepsAre(w);
    forall i | 0 <= i < |w| - 1 ensures Steps(w)[i] == ChordOn(a, b, Seconds(spacing), i) {
      ParabolaStepAt(w, i, spacing, a, b, c);
    }
  }

  lemma {:induction false} ChordOnLine(a: real, b: real, dt: real, i: nat)
    ensures OnLine(Point(i as real, ChordOn(a, b, dt, i)), a * dt + b, 2.0 * a * dt)
  {}

  lemma {:induction false} StepsOnLine(d: seq<real>, a: real, b: real, dt: real)
    requires |d| >= 2 && OnChords(d, a, b, dt)
    ensures Slope(Indexed(d)) == 2.0 * a * dt
  {
    IndexGuardNeverFires(d);
    forall i | 0 <= i < |d|
      ensures OnLine(Indexed(d)[i], a * dt + b, 2.0 * a * dt)
    {
      ChordOnLine(a, b, dt, i);
    }
    SlopeOfLine(Indexed(d), a * dt + b, 2.0 * a * dt);
  }

  lemma {:induction false} SecondIsSlope(s: seq<Sample>)
    requires |s| >= 3 && |Steps(Window(s))| >= 2
    ensures SecondDerivative(s) == Slope(Indexed(Steps(Window(s))))
  {}

  lemma {:induction false} ParabolaSlope(w: seq<Sample>, spacing: int, a: real, b: real, c: real)
    requires |w| >= 3 && OnParabola(w, spacing, a, b, c)
    ensures |Steps(w)| >= 2 && Slope(Indexed(Steps(w))) == 2.0 * a * Seconds(spacing)
  {
    ParabolaSteps(w, spacing, a, b, c);
    StepsOnLine(Steps(w), a, b, Seconds(spacing));
  }

  /** On equally spaced samples of a parabola the result is exactly 2 a dt, not 2 a: the
      regression runs over the index of the step, not over time. */
  lemma {:induction false} SecondDerivativeOfParabola(s: seq<Sample>, spacing: int, a: real, b: real, c: real)
    requires |s| >= 3 && OnParabola(Window(s), spacing, a, b, c)
    ensures SecondDerivative(s) == 2.0 * a * Seconds(spacing)
  {
    ParabolaSlope(Window(s), spacing, a, b, c);
    SecondIsSlope(s);
  }

  // ----- which samples count

  /** Ten samples suffice: whatever came before them, both derivatives are the same. */
  lemma {:induction false} EleventhForgotten(earlier: seq<Sample>, s: seq<Sample>)
    requires |s| >= 10
    ensures FirstDerivative(earlier + s) == FirstDerivative(s) && SecondDerivative(earlier + s) == SecondDerivative(s)
  {
    assert Window(earlier + s) == Window(s);
  }

  /** A sample whose stamp is not later than the one before adds no slope. */
  lemma {:induction false} StalledSkipped(w: seq<Sample>, x: Sample)
    requires w != [] && x.timestamp <= w[|w| - 1].timestamp
    ensures Steps(w + [x]) == Steps(w)
  {
    SecondsSign(x.timestamp - w[|w| - 1].timestamp);
    assert (w + [x])[..|w|] == w;
  }

  lemma {:induction false} SumsDiffer(f: Point -> real, p: seq<Point>, q: seq<Point>)
    requires |p| == |q| >= 1 && forall i :: 1 <= i < |p| ==> f(q[i]) == f(p[i])
    ensures Sum(f, q) - Sum(f, p) == f(q[0]) - f(p[0])
  {
    if |p| > 1 {
      SumsDiffer(f, p[..|p| - 1], q[..|q| - 1]);
    } else {
      assert p[..0] == [] && q[..0] == [];
    }
  }

  /** The same points, except that the first, at time zero, may have another value. */
  predicate FirstDiffers(p: seq<Point>, q: seq<Point>) {
    |p| == |q| >= 1 && p[0].t == 0.0 && q[0].t == 0.0 && p[1..] == q[1..]
  }

  lemma {:induction false} SameSums(p: seq<Point>, q: seq<Point>)
    requires FirstDiffers(p, q)
    ensures Sum(T, q) == Sum(T, p) && Sum(TT, q) == Sum(TT, p) && Sum(VT, q) == Sum(VT, p)
    ensures Sum(V, q) - Sum(V, p) == q[0].v - p[0].v
  {
    forall i | 1 <= i < |p| ensures p[i] == q[i] {
      assert p[1..][i - 1] == q[1..][i - 1];
    }
    SumsDiffer(T, p, q);
    SumsDiffer(TT, p, q);
    SumsDiffer(VT, p, q);
    SumsDiffer(V, p, q);
  }

  lemma {:induction false} RisesDiffer(r: real, r': real, n: real, vt: real, v: real, v': real, t: real)
    requires t > 0.0 && PairSums(r, n, vt, v, t) && PairSums(r', n, vt, v', t)
    ensures r' == r <==> v' == v
  {
    assert r - r' == (v' - v) * t;
    if r' == r {
      CancelEq(v' - v, 0.0, t);
    }
  }

  lemma {:induction false} SameQuotient(a: real, b: real, d: real)
    requires d > 0.0
    ensures a / d == b / d <==> a == b
  {
    DivideTimes(a, d);
    DivideTimes(b, d);
  }

  /** The value at time zero moves the fitted slope. */
  lemma {:induction false} FirstPointCounts(p: seq<Point>, q: seq<Point>)
    requires FirstDiffers(p, q) && Sum(T, p) > 0.0 && PairRun(p) >= LeastSquares.TINY
    ensures Slope(q) == Slope(p) <==> q[0].v == p[0].v
  {
    SameSums(p, q);
    RiseIdentity(p);
    RiseIdentity(q);
    RunIdentity(p);
    RunIdentity(q);
    CountIs(p);
    CountIs(q);
    PairSumsUnique(PairRun(q), PairRun(p), |p| as real, Sum(TT, p), Sum(T, p), Sum(T, p));
    RisesDiffer(PairRise(p), PairRise(q), |p| as real, Sum(VT, p), Sum(V, p), Sum(V, q), Sum(T, p));
    SameQuotient(PairRise(p), PairRise(q), PairRun(p));
  }

  /** The clock never goes back, and moves at least once. */
  predicate Advancing(w: seq<Sample>) {
    !SameStamps(w) && forall i, j :: 0 <= i < j < |w| ==> w[i].timestamp <= w[j].timestamp
  }

  lemma {:induction false} TimesNonNeg(p: seq<Point>)
    requires forall i :: 0 <= i < |p| ==> p[i].t >= 0.0
    ensures Sum(T, p) >= 0.0 && forall i :: 0 <= i < |p| ==> Sum(T, p) >= p[i].t
  {
    if p != [] {
      var u := p[..|p| - 1];
      assert forall i :: 0 <= i < |u| ==> u[i] == p[i];
      TimesNonNeg(u);
      forall i | 0 <= i < |p| ensures Sum(T, p) >= p[i].t {
        if i < |u| {
          assert Sum(T, u) >= u[i].t;
        }
      }
    }
  }

  lemma {:induction false} TimesPositive(w: seq<Sample>)
    requires Advancing(w)
    ensures Sum(T, Points(w)) > 0.0
  {
    var p := Points(w);
    forall i | 0 <= i < |p| ensures p[i].t >= 0.0 {
      SecondsSign(w[i].timestamp - w[0].timestamp);
    }
    TimesNonNeg(p);
    var i, j :| 0 <= i < j < |w| && w[i].timestamp != w[j].timestamp;
    SecondsSign(w[j].timestamp - w[0].timestamp);
    assert p[j].t > 0.0;
  }

  lemma {:induction false} OldestDiffers(w: seq<Sample>, pressure: real)
    requires |w| >= 1
    ensures FirstDiffers(Points(w), Points(w[0 := w[0].(pressure := pressure)]))
  {
    var x := w[0 := w[0].(pressure := pressure)];
    SecondsSign(0);
    forall i | 1 <= i < |w| ensures Points(x)[i] == Points(w)[i] {
      assert x[i] == w[i] && x[0].timestamp == w[0].timestamp;
    }
  }

  lemma {:induction false} OldestOfWindow(w: seq<Sample>, pressure: real)
    requires Advancing(w)
    ensures |w| >= 2
    ensures Slope(Points(w[0 := w[0].(pressure := pressure)])) == Slope(Points(w)) <==> pressure == w[0].pressure
  {
    OldestDiffers(w, pressure);
    TimesPositive(w);
    GuardFiresIff(w);
    FirstPointCounts(Points(w), Points(w[0 := w[0].(pressure := pressure)]));
  }

  /** Over an advancing clock the oldest pressure of the window counts: no other value gives the same
      first derivative. */
  lemma {:induction false} OldestCounts(s: seq<Sample>, pressure: real)
    requires |s| >= 2 && Advancing(Window(s))
    ensures var k := if |s| <= 10 then 0 else |s| - 10;
      FirstDerivative(s[k := s[k].(pressure := pressure)]) == FirstDerivative(s) <==> pressure == s[k].pressure
  {
    var k := if |s| <= 10 then 0 else |s| - 10;
    var w := Window(s);
    assert Window(s[k := s[k].(pressure := pressure)]) == w[0 := w[0].(pressure := pressure)];
    OldestOfWindow(w, pressure);
  }
}
