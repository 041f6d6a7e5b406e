/** Small facts about products and quotients of reals. */
module Reals {

  lemma {:induction false} MulNonNeg(a: real, b: real)
    requires a >= 0.0 && b >= 0.0
    ensures a * b >= 0.0
  {}

  lemma {:induction false} MulPos(a: real, b: real)
    requires a > 0.0 && b > 0.0
    ensures a * b > 0.0
  {}

  lemma {:induction false} MulLeq(a: real, b: real, c: real)
    requires c >= 0.0 && a <= b
    ensures a * c <= b * c
  {
    var d := b - a;
    MulNonNeg(d, c);
    assert d * c == b * c - a * c;
  }

  lemma {:induction false} MulLess(a: real, b: real, c: real)
    requires c > 0.0 && a < b
    ensures a * c < b * c
  {
    var d := b - a;
    MulPos(d, c);
    assert d * c == b * c - a * c;
  }

  lemma {:induction false} CancelLeq(a: real, b: real, c: real)
    requires c > 0.0 && a * c <= b * c
    ensures a <= b
  {
    if b < a {
      MulLess(b, a, c);
    }
  }

  lemma {:induction false} CancelEq(a: real, b: real, c: real)
    requires c > 0.0 && a * c == b * c
    ensures a == b
  {
    CancelLeq(a, b, c);
    CancelLeq(b, a, c);
  }

  lemma {:induction false} DivideTimes(a: real, b: real)
    requires b != 0.0
    ensures a / b * b == a
  {}

  lemma {:induction false} QuotientIs(a: real, b: real, q: real)
    requires b > 0.0 && q * b == a
    ensures a / b == q
  {
    var p := a / b;
    DivideTimes(a, b);
    CancelEq(p, q, b);
  }

  lemma {:induction false} QuotientNonNeg(a: real, b: real)
    requires a >= 0.0 && b > 0.0
    ensures a / b >= 0.0
  {
    var q := a / b;
    DivideTimes(a, b);
    CancelLeq(0.0, q, b);
  }

  lemma {:induction false} QuotientPos(a: real, b: real)
    requires a > 0.0 && b > 0.0
    ensures a / b > 0.0
  {
    var q := a / b;
    DivideTimes(a, b);
    if q <= 0.0 {
      MulLeq(q, 0.0, b);
    }
  }

  predicate AtMostTimes(x: real, m: real, y: real) {
    x <= m * y
  }

  lemma {:induction false} QuotientAtMost(n: real, d: real, m: real)
    requires d > 0.0 && AtMostTimes(n, m, d)
    ensures n / d <= m
  {
    var q := n / d;
    DivideTimes(n, d);
    CancelLeq(q, m, d);
  }

  lemma {:induction false} QuotientAtLeast(n: real, d: real, m: real)
    requires d > 0.0 && AtMostTimes(-n, -m, d)
    ensures m <= n / d
  {
    var q := n / d;
    DivideTimes(n, d);
    assert (-m) * d == -(m * d);
    CancelLeq(m, q, d);
  }

  lemma {:induction false} AddScaled(x: real, y: real, u: real, v: real, m: real)
    requires AtMostTimes(x, m, u) && AtMostTimes(y, m, v)
    ensures AtMostTimes(x + y, m, u + v)
  {
    assert m * (u + v) == m * u + m * v;
  }
}
