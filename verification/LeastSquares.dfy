/** The straight-line fit both pressure derivatives use, and its pairwise form. */
module LeastSquares {
  import opened Reals

  datatype Point = Point(t: real, v: real)

  /** The divisor below which the fit is given up. */
  const TINY: real := 0.000000000000000000000000000001

  // ----- the accumulated sums

  function Sum(f: Point -> real, s: seq<Point>): (r: real) {
    if s == [] then 0.0 else Sum(f, s[..|s| - 1]) + f(s[|s| - 1])
  }

  function One(p: Point): (r: real) { 1.0 }
  function V(p: Point): (r: real) { p.v }
  function T(p: Point): (r: real) { p.t }
  function VT(p: Point): (r: real) ensures Product(r, p.v, p.t) { p.v * p.t }
  function TT(p: Point): (r: real) ensures Product(r, p.t, p.t) { p.t * p.t }

  predicate Product(w: real, x: real, y: real) {
    w == x * y
  }

  // ----- the same numbers over pairs of points

  function Rise(a: Point, b: Point): (r: real)
    ensures Product(r, b.v - a.v, b.t - a.t)
  {
    (b.v - a.v) * (b.t - a.t)
  }

  function Run(a: Point, b: Point): (r: real)
    ensures r >= 0.0 && Product(r, b.t - a.t, b.t - a.t)
  {
    (b.t - a.t) * (b.t - a.t)
  }

  /** Sum over the points a of s of f(a, b). */
  function SumTo(f: (Point, Point) -> real, s: seq<Point>, b: Point): (r: real) {
    if s == [] then 0.0 else SumTo(f, s[..|s| - 1], b) + f(s[|s| - 1], b)
  }

  /** Sum over pairs i < j of f(s_i, s_j). */
  function PairSum(f: (Point, Point) -> real, s: seq<Point>): (r: real) {
    if s == [] then 0.0 else PairSum(f, s[..|s| - 1]) + SumTo(f, s[..|s| - 1], s[|s| - 1])
  }

  /** Sum over pairs i < j of (v_j - v_i)(t_j - t_i). */
  function PairRise(s: seq<Point>): (r: real) {
    PairSum(Rise, s)
  }

  /** Sum over pairs i < j of (t_j - t_i)^2. */
  function PairRun(s: seq<Point>): (r: real) {
    PairSum(Run, s)
  }

  /** The fitted slope, stated over pairs. */
  function Slope(s: seq<Point>): (r: real) {
    if PairRun(s) < TINY then 0.0 else PairRise(s) / PairRun(s)
  }

  /** The fit as the source computes it: four running sums, one guarded division. */
  method Fit(s: seq<Point>) returns (slope: real)
    ensures slope == Slope(s)
  {
    var sumV, sumT, sumVT, sumTT := Accumulate(s);
    var count := |s| as real;
    CountIs(s);
    RunIdentity(s);
    RiseIdentity(s);
    RunNonNeg(s);
    var numer, denom := Cross(count, sumVT, sumV, sumT), Cross(count, sumTT, sumT, sumT);
    PairSumsUnique(numer, PairRise(s), count, sumVT, sumV, sumT);
    PairSumsUnique(denom, PairRun(s), count, sumTT, sumT, sumT);
    slope := Divide(numer, denom);
  }

  lemma {:induction false} PairSumsUnique(r: real, r': real, n: real, ab: real, a: real, b: real)
    requires PairSums(r, n, ab, a, b) && PairSums(r', n, ab, a, b)
    ensures r == r'
  {}

  /** n S_ab - S_a S_b. */
  function Cross(n: real, ab: real, a: real, b: real): (r: real)
    ensures PairSums(r, n, ab, a, b)
  {
    n * ab - a * b
  }

  method Accumulate(s: seq<Point>) returns (sumV: real, sumT: real, sumVT: real, sumTT: real)
    ensures sumV == Sum(V, s) && sumT == Sum(T, s) && sumVT == Sum(VT, s) && sumTT == Sum(TT, s)
  {
    sumV, sumT, sumVT, sumTT := 0.0, 0.0, 0.0, 0.0;
    for i := 0 to |s|
      invariant sumV == Sum(V, s[..i]) && sumT == Sum(T, s[..i])
      invariant sumVT == Sum(VT, s[..i]) && sumTT == Sum(TT, s[..i])
    {
      assert s[..i + 1][..i] == s[..i];
      sumV := sumV + V(s[i]);
      sumT := sumT + T(s[i]);
      sumVT := sumVT + VT(s[i]);
      sumTT := sumTT + TT(s[i]);
    }
    assert s[..|s|] == s;
  }

  method Divide(numer: real, denom: real) returns (q: real)
    requires denom >= 0.0
    ensures q == if denom < TINY then 0.0 else numer / denom
  {
    if (if denom < 0.0 then -denom else denom) < TINY {
      return 0.0;
    }
    return numer / denom;
  }

  // ----- the identity

  /** rises is the sum of rise times run to b over n points with the given sums. */
  predicate ToSums(rises: real, n: real, vt: real, v: real, t: real, bv: real, bt: real) {
    rises == n * (bv * bt) - bv * t - bt * v + vt
  }

  /** rises is the sum over all pairs of n points with the given sums. */
  predicate PairSums(rises: real, n: real, vt: real, v: real, t: real) {
    rises == n * vt - v * t
  }

  /** One more point a joins the sums towards b. */
  lemma {:induction false} ToStep(rises: real, n: real, vt: real, v: real, t: real, bv: real, bt: real,
                                  av: real, at: real, w: real, rise: real)
    requires ToSums(rises, n, vt, v, t, bv, bt)
    requires Product(w, av, at) && Product(rise, bv - av, bt - at)
    ensures ToSums(rises + rise, n + 1.0, vt + w, v + av, t + at, bv, bt)
  {
    var k := bv * bt;
    assert rise == k - bv * at - bt * av + w;
    assert (n + 1.0) * k == n * k + k;
    assert bv * (t + at) == bv * t + bv * at;
    assert bt * (v + av) == bt * v + bt * av;
  }

  /** One more point b joins the pairs. */
  lemma {:induction false} PairStep(rises: real, last: real, n: real, vt: real, v: real, t: real,
                                    bv: real, bt: real, w: real)
    requires PairSums(rises, n, vt, v, t) && ToSums(last, n, vt, v, t, bv, bt) && Product(w, bv, bt)
    ensures PairSums(rises + last, n + 1.0, vt + w, v + bv, t + bt)
  {
    assert (n + 1.0) * (vt + w) == n * vt + n * w + vt + w;
    assert (v + bv) * (t + bt) == v * t + v * bt + bv * t + w;
  }

  lemma {:induction false} RiseToSums(s: seq<Point>, b: Point)
    ensures ToSums(SumTo(Rise, s, b), Sum(One, s), Sum(VT, s), Sum(V, s), Sum(T, s), b.v, b.t)
  {
    if s != [] {
      var u, a := s[..|s| - 1], s[|s| - 1];
      RiseToSums(u, b);
      ToStep(SumTo(Rise, u, b), Sum(One, u), Sum(VT, u), Sum(V, u), Sum(T, u), b.v, b.t, a.v, a.t, VT(a), Rise(a, b));
    }
  }

  lemma {:induction false} RunToSums(s: seq<Point>, b: Point)
    ensures ToSums(SumTo(Run, s, b), Sum(One, s), Sum(TT, s), Sum(T, s), Sum(T, s), b.t, b.t)
  {
    if s != [] {
      var u, a := s[..|s| - 1], s[|s| - 1];
      RunToSums(u, b);
      ToStep(SumTo(Run, u, b), Sum(One, u), Sum(TT, u), Sum(T, u), Sum(T, u), b.t, b.t, a.t, a.t, TT(a), Run(a, b));
    }
  }

  /** n S_vt - S_v S_t is the sum over pairs of (v_j - v_i)(t_j - t_i). */
  lemma {:induction false} RiseIdentity(s: seq<Point>)
    ensures PairSums(PairRise(s), Sum(One, s), Sum(VT, s), Sum(V, s), Sum(T, s))
  {
    if s != [] {
      var u, b := s[..|s| - 1], s[|s| - 1];
      RiseIdentity(u);
      RiseToSums(u, b);
      PairStep(PairRise(u), SumTo(Rise, u, b), Sum(One, u), Sum(VT, u), Sum(V, u), Sum(T, u), b.v, b.t, VT(b));
    }
  }

  /** n S_tt - S_t^2 is the sum over pairs of (t_j - t_i)^2. */
  lemma {:induction false} RunIdentity(s: seq<Point>)
    ensures PairSums(PairRun(s), Sum(One, s), Sum(TT, s), Sum(T, s), Sum(T, s))
  {
    if s != [] {
      var u, b := s[..|s| - 1], s[|s| - 1];
      RunIdentity(u);
      RunToSums(u, b);
      PairStep(PairRun(u), SumTo(Run, u, b), Sum(One, u), Sum(TT, u), Sum(T, u), Sum(T, u), b.t, b.t, TT(b));
    }
  }

  lemma {:induction false} CountIs(s: seq<Point>)
    ensures Sum(One, s) == |s| as real
  {
    if s != [] {
      CountIs(s[..|s| - 1]);
    }
  }

  // ----- sums over pairs

  lemma {:induction false} SumToScaled(f: (Point, Point) -> real, g: (Point, Point) -> real,
                                       s: seq<Point>, b: Point, m: real)
    requires forall i :: 0 <= i < |s| ==> AtMostTimes(f(s[i], b), m, g(s[i], b))
    ensures AtMostTimes(SumTo(f, s, b), m, SumTo(g, s, b))
  {
    if s != [] {
      var u, a := s[..|s| - 1], s[|s| - 1];
      SumToScaled(f, g, u, b, m);
      AddScaled(SumTo(f, u, b), f(a, b), SumTo(g, u, b), g(a, b), m);
    }
  }

  /** If f is at most m g on every pair, so are the sums. */
  lemma {:induction false} PairSumScaled(f: (Point, Point) -> real, g: (Point, Point) -> real, s: seq<Point>, m: real)
    requires forall i, j :: 0 <= i < j < |s| ==> AtMostTimes(f(s[i], s[j]), m, g(s[i], s[j]))
    ensures AtMostTimes(PairSum(f, s), m, PairSum(g, s))
  {
    if s != [] {
      var u, b := s[..|s| - 1], s[|s| - 1];
      PairSumScaled(f, g, u, m);
      SumToScaled(f, g, u, b, m);
      AddScaled(PairSum(f, u), SumTo(f, u, b), PairSum(g, u), SumTo(g, u, b), m);
    }
  }

  lemma {:induction false} SumToNegated(f: (Point, Point) -> real, g: (Point, Point) -> real, s: seq<Point>, b: Point)
    requires forall p, q :: g(p, q) == -f(p, q)
    ensures SumTo(g, s, b) == -SumTo(f, s, b)
  {
    if s != [] {
      SumToNegated(f, g, s[..|s| - 1], b);
    }
  }

  lemma {:induction false} PairSumNegated(f: (Point, Point) -> real, g: (Point, Point) -> real, s: seq<Point>)
    requires forall p, q :: g(p, q) == -f(p, q)
    ensures PairSum(g, s) == -PairSum(f, s)
  {
    if s != [] {
      PairSumNegated(f, g, s[..|s| - 1]);
      SumToNegated(f, g, s[..|s| - 1], s[|s| - 1]);
    }
  }

  lemma {:induction false} SumToNonNeg(f: (Point, Point) -> real, s: seq<Point>, b: Point)
    requires forall i :: 0 <= i < |s| ==> f(s[i], b) >= 0.0
    ensures SumTo(f, s, b) >= 0.0
    ensures forall i :: 0 <= i < |s| ==> SumTo(f, s, b) >= f(s[i], b)
  {
    if s != [] {
      var u := s[..|s| - 1];
      assert forall i :: 0 <= i < |u| ==> u[i] == s[i];
      SumToNonNeg(f, u, b);
      forall i | 0 <= i < |s|
        ensures SumTo(f, s, b) >= f(s[i], b)
      {
        if i < |u| {
          assert SumTo(f, u, b) >= f(u[i], b);
        }
      }
    }
  }

  /** A sum of non-negative terms is at least each of them. */
  lemma {:induction false} PairSumNonNeg(f: (Point, Point) -> real, s: seq<Point>)
    requires forall i, j :: 0 <= i < j < |s| ==> f(s[i], s[j]) >= 0.0
    ensures PairSum(f, s) >= 0.0
    ensures forall i, j :: 0 <= i < j < |s| ==> PairSum(f, s) >= f(s[i], s[j])
  {
    if s != [] {
      var u, b := s[..|s| - 1], s[|s| - 1];
      assert forall i :: 0 <= i < |u| ==> u[i] == s[i];
      forall i, j | 0 <= i < j < |u| ensures f(u[i], u[j]) >= 0.0 {
        assert f(s[i], s[j]) >= 0.0;
      }
      forall i | 0 <= i < |u| ensures f(u[i], b) >= 0.0 {
        assert f(s[i], s[|s| - 1]) >= 0.0;
      }
      PairSumNonNeg(f, u);
      SumToNonNeg(f, u, b);
      forall i, j | 0 <= i < j < |s|
        ensures PairSum(f, s) >= f(s[i], s[j])
      {
        if j < |u| {
          assert PairSum(f, u) >= f(u[i], u[j]);
        } else {
          assert SumTo(f, u, b) >= f(u[i], b);
        }
      }
    }
  }

  lemma {:induction false} RunNonNeg(s: seq<Point>)
    ensures PairRun(s) >= 0.0
    ensures forall i, j :: 0 <= i < j < |s| ==> PairRun(s) >= Run(s[i], s[j])
  {
    PairSumNonNeg(Run, s);
  }

  // ----- bounds by chords

  /** Slope of the chord from a to b. */
  function Chord(a: Point, b: Point): (c: real)
    requires a.t != b.t
  {
    (b.v - a.v) / (b.t - a.t)
  }

  lemma {:induction false} ChordRise(a: Point, b: Point)
    ensures a.t != b.t ==> Product(Rise(a, b), Chord(a, b), Run(a, b))
    ensures a.t == b.t ==> Rise(a, b) == 0.0 && Run(a, b) == 0.0
  {
    if a.t != b.t {
      var d, c := b.t - a.t, Chord(a, b);
      DivideTimes(b.v - a.v, d);
      assert (c * d) * d == c * (d * d);
    }
  }

  lemma {:induction false} ScaledBelow(rise: real, c: real, run: real, m: real)
    requires Product(rise, c, run) && run >= 0.0
    ensures c <= m ==> AtMostTimes(rise, m, run)
    ensures m <= c ==> AtMostTimes(-rise, -m, run)
  {
    if c <= m {
      MulLeq(c, m, run);
    }
    if m <= c {
      MulLeq(-c, -m, run);
      assert (-c) * run == -(c * run);
    }
  }

  function Fall(a: Point, b: Point): (r: real) {
    -Rise(a, b)
  }

  lemma {:induction false} ChordBounds(a: Point, b: Point, m: real)
    ensures (a.t != b.t ==> Chord(a, b) <= m) ==> AtMostTimes(Rise(a, b), m, Run(a, b))
    ensures (a.t != b.t ==> m <= Chord(a, b)) ==> AtMostTimes(Fall(a, b), -m, Run(a, b))
  {
    ChordRise(a, b);
    if a.t != b.t {
      ScaledBelow(Rise(a, b), Chord(a, b), Run(a, b), m);
    }
  }

  predicate ChordsAtMost(s: seq<Point>, m: real) {
    forall i, j :: 0 <= i < j < |s| && s[i].t != s[j].t ==> Chord(s[i], s[j]) <= m
  }

  predicate ChordsAtLeast(s: seq<Point>, m: real) {
    forall i, j :: 0 <= i < j < |s| && s[i].t != s[j].t ==> m <= Chord(s[i], s[j])
  }

  lemma {:induction false} RisesAtMost(s: seq<Point>, m: real)
    requires ChordsAtMost(s, m)
    ensures AtMostTimes(PairRise(s), m, PairRun(s))
  {
    forall i, j | 0 <= i < j < |s|
      ensures AtMostTimes(Rise(s[i], s[j]), m, Run(s[i], s[j]))
    {
      ChordBounds(s[i], s[j], m);
    }
    PairSumScaled(Rise, Run, s, m);
  }

  lemma {:induction false} FallsAtMost(s: seq<Point>, m: real)
    requires ChordsAtLeast(s, m)
    ensures AtMostTimes(-PairRise(s), -m, PairRun(s))
  {
    forall i, j | 0 <= i < j < |s|
      ensures AtMostTimes(Fall(s[i], s[j]), -m, Run(s[i], s[j]))
    {
      ChordBounds(s[i], s[j], m);
    }
    PairSumScaled(Fall, Run, s, -m);
    PairSumNegated(Rise, Fall, s);
  }

  lemma {:induction false} SlopeAtMost(s: seq<Point>, m: real)
    requires PairRun(s) >= TINY && ChordsAtMost(s, m)
    ensures Slope(s) <= m
  {
    RisesAtMost(s, m);
    QuotientAtMost(PairRise(s), PairRun(s), m);
  }

  lemma {:induction false} SlopeAtLeast(s: seq<Point>, m: real)
    requires PairRun(s) >= TINY && ChordsAtLeast(s, m)
    ensures m <= Slope(s)
  {
    FallsAtMost(s, m);
    QuotientAtLeast(PairRise(s), PairRun(s), m);
  }

  /** The fitted slope lies between any bounds on the chord slopes, hence between the
      least and the greatest chord slope. */
  lemma {:induction false} SlopeBetweenChords(s: seq<Point>, low: real, high: real)
    requires PairRun(s) >= TINY
    requires ChordsAtLeast(s, low) && ChordsAtMost(s, high)
    ensures low <= Slope(s) <= high
  {
    SlopeAtMost(s, high);
    SlopeAtLeast(s, low);
  }

  predicate OnLine(p: Point, a: real, b: real) {
    p.v == a + b * p.t
  }

  /** On collinear data the fit is exact. */
  lemma {:induction false} SlopeOfLine(s: seq<Point>, a: real, b: real)
    requires PairRun(s) >= TINY
    requires forall i :: 0 <= i < |s| ==> OnLine(s[i], a, b)
    ensures Slope(s) == b
  {
    forall i, j | 0 <= i < j < |s| && s[i].t != s[j].t
      ensures Chord(s[i], s[j]) == b
    {
      LineChord(s[i], s[j], a, b);
    }
    SlopeBetweenChords(s, b, b);
  }

  lemma {:induction false} LineChord(p: Point, q: Point, a: real, b: real)
    requires OnLine(p, a, b) && OnLine(q, a, b) && p.t != q.t
    ensures Chord(p, q) == b
  {
    var d, c := q.t - p.t, Chord(p, q);
    DivideTimes(q.v - p.v, d);
    assert q.v - p.v == b * d;
    assert (c - b) * d == 0.0;
  }
}
