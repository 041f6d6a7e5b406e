/** The multiplicative order of x modulo the Modbus generator is 32767.

    The generator is (x + 1)(x^15 + x + 1). Each coefficient of x^e(x + 1) is a
    binary sequence with f(e+15) = f(e+1) + f(e), and squaring the shift operator
    carries that recurrence to f(e+2^k). Three such sums refute the exponents
    32767/7, 32767/31 and 32767/151; the last one gives f(e+32768) = f(e+1). */
module CrcOrder {
  import opened Words
  import opened Register

  const ORDER: nat := 32767

  /** x^0. */
  const ONE: Reg := Zeros(15) + [true]

  /** x + 1. */
  const ROOT: Reg := Zeros(14) + [true, true]

  /** Coefficient of x^(15-i) in x^e(x + 1). */
  function F(i: nat, e: nat): (b: bool)
    requires i < 16
  {
    Ticks(ROOT, e)[i]
  }

  // ----- the recurrence and its squares

  lemma {:induction false} RootVanishes()
    ensures Ticks(ROOT, 15) == XorBits(Tick(ROOT), ROOT)
  {
    var s: seq<bool> := [true, true];
    var r: Reg := s + Zeros(14);
    assert ROOT == Zeros(14) + s;
    TicksMoveUp(s, 14);
    TicksAdd(ROOT, 14, 1);
    FirstTick(r, 0);
    RootRollsOver(r);
    RootMovesUp();
    assert XorBits(Zeros(13) + [true, true, false], ROOT) == Zeros(13) + [true, false, true];
  }

  lemma {:induction false} RootRollsOver(r: Reg)
    requires r == [true, true] + Zeros(14)
    ensures Tick(r) == Zeros(13) + [true, false, true]
  {}

  lemma {:induction false} RootMovesUp()
    ensures Tick(ROOT) == Zeros(13) + [true, true, false]
  {
    TickUp(ROOT);
  }

  lemma {:induction false} Recurrence(i: nat, e: nat)
    requires i < 16
    ensures F(i, e + 15) == (F(i, e + 1) != F(i, e))
  {
    RootVanishes();
    TicksAdd(ROOT, 15, e);
    TicksAdd(ROOT, 1, e);
    assert Ticks(ROOT, 1) == Tick(ROOT);
    TicksLinear(Tick(ROOT), ROOT, e);
  }

  lemma {:induction false} Shift16(i: nat, e: nat)
    requires i < 16
    ensures F(i, e + 16) == (F(i, e + 2) != F(i, e + 1))
  {
    Recurrence(i, e + 1);
  }

  lemma {:induction false} Shift32(i: nat, e: nat)
    requires i < 16
    ensures F(i, e + 32) == (F(i, e + 4) != F(i, e + 2))
  {
    Shift16(i, e + 16);
    Shift16(i, e + 2);
    Shift16(i, e + 1);
  }

  lemma {:induction false} Shift64(i: nat, e: nat)
    requires i < 16
    ensures F(i, e + 64) == (F(i, e + 8) != F(i, e + 4))
  {
    Shift32(i, e + 32);
    Shift32(i, e + 4);
    Shift32(i, e + 2);
  }

  lemma {:induction false} Shift128(i: nat, e: nat)
    requires i < 16
    ensures F(i, e + 128) == (F(i, e + 16) != F(i, e + 8))
  {
    Shift64(i, e + 64);
    Shift64(i, e + 8);
    Shift64(i, e + 4);
  }

  lemma {:induction false} Shift256(i: nat, e: nat)
    requires i < 16
    ensures F(i, e + 256) == (F(i, e + 4) != F(i, e + 1))
  {
    Shift128(i, e + 128);
    Shift128(i, e + 16);
    Shift128(i, e + 8);
    Shift32(i, e);
    Shift16(i, e);
  }

  lemma {:induction false} Shift512(i: nat, e: nat)
    requires i < 16
    ensures F(i, e + 512) == (F(i, e + 8) != F(i, e + 2))
  {
    Shift256(i, e + 256);
    Shift256(i, e + 4);
    Shift256(i, e + 1);
  }

  lemma {:induction false} Shift1024(i: nat, e: nat)
    requires i < 16
    ensures F(i, e + 1024) == ((F(i, e + 4) != F(i, e + 2)) != F(i, e + 1))
  {
    Shift512(i, e + 512);
    Shift512(i, e + 8);
    Shift512(i, e + 2);
    Shift16(i, e);
  }

  lemma {:induction false} Shift2048(i: nat, e: nat)
    requires i < 16
    ensures F(i, e + 2048) == ((F(i, e + 8) != F(i, e + 4)) != F(i, e + 2))
  {
    Shift1024(i, e + 1024);
    Shift1024(i, e + 4);
    Shift1024(i, e + 2);
    Shift1024(i, e + 1);
  }

  lemma {:induction false} Shift4096(i: nat, e: nat)
    requires i < 16
    ensures F(i, e + 4096) == (((F(i, e + 8) != F(i, e + 4)) != F(i, e + 2)) != F(i, e + 1))
  {
    Shift2048(i, e + 2048);
    Shift2048(i, e + 8);
    Shift2048(i, e + 4);
    Shift2048(i, e + 2);
    Shift16(i, e);
  }

  lemma {:induction false} Shift8192(i: nat, e: nat)
    requires i < 16
    ensures F(i, e + 8192) == ((F(i, e + 8) != F(i, e + 4)) != F(i, e + 1))
  {
    Shift4096(i, e + 4096);
    Shift4096(i, e + 8);
    Shift4096(i, e + 4);
    Shift4096(i, e + 2);
    Shift4096(i, e + 1);
    Shift16(i, e);
  }

  lemma {:induction false} Shift16384(i: nat, e: nat)
    requires i < 16
    ensures F(i, e + 16384) == (F(i, e + 8) != F(i, e + 1))
  {
    Shift8192(i, e + 8192);
    Shift8192(i, e + 8);
    Shift8192(i, e + 4);
    Shift8192(i, e + 1);
    Shift16(i, e);
  }

  lemma {:induction false} Shift32768(i: nat, e: nat)
    requires i < 16
    ensures F(i, e + 32768) == F(i, e + 1)
  {
    Shift16384(i, e + 16384);
    Shift16384(i, e + 8);
    Shift16384(i, e + 1);
    Shift16(i, e);
  }

  // ----- x^32767 = 1 and no smaller power

  lemma {:induction false} RootReturns()
    ensures Ticks(ROOT, ORDER) == ROOT
  {
    forall i | 0 <= i < 16
      ensures Ticks(ROOT, 32768)[i] == Tick(ROOT)[i]
    {
      Shift32768(i, 0);
      assert F(i, 1) == Tick(ROOT)[i] by { assert Ticks(ROOT, 1) == Tick(ROOT); }
    }
    TicksAdd(ROOT, 1, ORDER);
    TicksAdd(ROOT, ORDER, 1);
    assert Ticks(ROOT, 1) == Tick(ROOT);
    assert Ticks(Ticks(ROOT, ORDER), 1) == Ticks(ROOT, 1);
    TicksCancel(Ticks(ROOT, ORDER), ROOT, 1);
  }

  /** Coefficient of x^13 in x^e(x + 1), no reduction being needed up to e = 14. */
  lemma {:induction false} LowCoefficient(e: nat)
    requires e <= 14
    ensures F(2, e) == (e == 12 || e == 13)
  {
    var s := Zeros(14 - e) + [true, true];
    assert ROOT == Zeros(e) + s;
    TicksMoveUp(s, e);
  }

  lemma {:induction false} MidCoefficient(e: nat)
    requires e <= 28
    ensures F(2, e) == (e in {12, 13, 26, 28})
  {
    if e <= 14 {
      LowCoefficient(e);
    } else {
      Recurrence(2, e - 15);
      LowCoefficient(e - 15);
      LowCoefficient(e - 14);
    }
  }

  lemma {:induction false} PeriodShift(n: nat, e: nat)
    requires Ticks(ROOT, n) == ROOT
    ensures F(2, e + n) == F(2, e)
  {
    TicksAdd(ROOT, n, e);
  }

  lemma {:induction false} Not217()
    ensures Ticks(ROOT, 217) != ROOT
  {
    if Ticks(ROOT, 217) == ROOT {
      PeriodShift(217, 3);
      PeriodShift(217, 220);
      PeriodShift(217, 437);
      PeriodShift(217, 654);
      PeriodShift(217, 871);
      Shift1024(2, 64);
      Shift64(2, 4);
      Shift64(2, 2);
      Shift64(2, 1);
      MidCoefficient(3);
      MidCoefficient(12);
      MidCoefficient(8);
      MidCoefficient(10);
      MidCoefficient(6);
      MidCoefficient(9);
      MidCoefficient(5);
      assert false;
    }
  }

  lemma {:induction false} Not1057()
    ensures Ticks(ROOT, 1057) != ROOT
  {
    if Ticks(ROOT, 1057) == ROOT {
      PeriodShift(1057, 3);
      Shift1024(2, 36);
      Shift32(2, 8);
      Shift32(2, 6);
      Shift32(2, 5);
      MidCoefficient(3);
      MidCoefficient(12);
      MidCoefficient(10);
      MidCoefficient(8);
      MidCoefficient(9);
      MidCoefficient(7);
      assert false;
    }
  }

  /** x^(e+576) as x^(e+512) x^64. */
  lemma {:induction false} Shift576(e: nat)
    ensures F(2, e + 576) == ((F(2, e + 16) != F(2, e + 12)) != (F(2, e + 10) != F(2, e + 6)))
  {
    Shift512(2, e + 64);
    Shift64(2, e + 8);
    Shift64(2, e + 2);
  }

  lemma {:induction false} Not4681()
    ensures Ticks(ROOT, 4681) != ROOT
  {
    if Ticks(ROOT, 4681) == ROOT {
      PeriodShift(4681, 0);
      Shift4096(2, 585);
      Shift576(17);
      Shift576(13);
      Shift576(11);
      Shift576(10);
      Recurrence(2, 18);
      forall e: nat | e <= 28
        ensures F(2, e) == (e in {12, 13, 26, 28})
      {
        MidCoefficient(e);
      }
      assert false;
    }
  }

  // ----- a little arithmetic

  lemma {:induction false} MulAtLeast(k: int, d: int)
    requires d > 0
    ensures k > 0 ==> k * d >= d
  {
    if k > 0 {
      assert k * d == d + (k - 1) * d;
    }
  }

  lemma {:induction false} QuotientUnique(d: int, q: int, r: int, q': int, r': int)
    requires q * d + r == q' * d + r' && 0 <= r < d && 0 <= r' < d
    ensures q == q' && r == r'
  {
    var k := q' - q;
    assert k * d == q' * d - q * d;
    MulAtLeast(k, d);
    MulAtLeast(-k, d);
  }

  lemma {:induction false} DivModUnique(v: int, d: int, q: int, r: int)
    requires v == q * d + r && 0 <= r < d
    ensures v / d == q && v % d == r
  {
    QuotientUnique(d, q, r, v / d, v % d);
  }

  // ----- from three refuted exponents to the exact order

  ghost predicate Fixes(n: nat) {
    Ticks(ROOT, n) == ROOT
  }

  lemma {:induction false} FixesAdd(m: nat, n: nat)
    requires Fixes(m)
    ensures Fixes(m + n) <==> Fixes(n)
  {
    TicksAdd(ROOT, m, n);
  }

  lemma {:induction false} FixesMultiple(m: nat, k: nat)
    requires Fixes(m)
    ensures Fixes(k * m)
    decreases k
  {
    if k == 0 {
      assert 0 * m == 0;
    } else {
      FixesMultiple(m, k - 1);
      FixesAdd(m, (k - 1) * m);
      assert m + (k - 1) * m == k * m;
    }
  }

  lemma {:induction false} FixesRemainder(m: nat, n: nat)
    requires m > 0 && Fixes(m) && Fixes(n)
    ensures Fixes(n % m)
  {
    FixesMultiple(m, n / m);
    FixesAdd(n / m * m, n % m);
  }

  /** The least positive exponent up to n that fixes ROOT. */
  lemma {:induction false} LeastPeriod(n: nat) returns (o: nat)
    requires n > 0 && Fixes(n)
    ensures 0 < o <= n && Fixes(o)
    ensures forall k :: 0 < k < o ==> !Fixes(k)
    decreases n
  {
    if k :| 0 < k < n && Fixes(k) {
      o := LeastPeriod(k);
    } else {
      o := n;
    }
  }

  ghost predicate Prime(p: nat) {
    p >= 2 && forall d :: 2 <= d < p ==> p % d != 0
  }

  /** A prime that divides a product divides a factor; r is the residue of the other one. */
  lemma {:induction false} PrimeDividesResidue(p: nat, r: nat, b: nat, k: nat)
    requires Prime(p) && 0 < r < p && r * b == p * k
    ensures b % p == 0
    decreases r
  {
    if r == 1 {
      DivModUnique(b, p, k, 0);
    } else {
      var q, s := p / r, p % r;
      var j := b - q * k;
      assert s * b == p * j by {
        assert s == p - q * r;
        assert s * b == p * b - q * (r * b);
        assert q * (r * b) == p * (q * k);
      }
      FactorNonNegative(p, j, s * b);
      PrimeDividesResidue(p, s, b, j);
    }
  }

  lemma {:induction false} FactorNonNegative(p: nat, j: int, v: nat)
    requires p > 0 && p * j == v
    ensures j >= 0
  {
    MulAtLeast(-j, p);
  }

  lemma {:induction false} PrimeDividesProduct(p: nat, a: nat, b: nat, k: nat)
    requires Prime(p) && a * b == p * k && a % p != 0
    ensures b % p == 0
  {
    var q, r := a / p, a % p;
    var j := k - q * b;
    assert r * b == p * j by {
      assert r == a - q * p;
      assert r * b == a * b - (q * p) * b;
      assert (q * p) * b == p * (q * b);
    }
    FactorNonNegative(p, j, r * b);
    PrimeDividesResidue(p, r, b, j);
  }

  lemma {:induction false} NoFactor31(d: nat, q: nat)
    requires 2 <= d <= 5
    ensures d * q != 31
  {
    if d == 2 {
    } else if d == 3 {
    } else if d == 4 {
    } else if d == 5 {
    }
  }

  lemma {:induction false} NoFactor151(d: nat, q: nat)
    requires 2 <= d <= 12
    ensures d * q != 151
  {
    if d == 2 {
    } else if d == 3 {
    } else if d == 4 {
    } else if d == 5 {
    } else if d == 6 {
    } else if d == 7 {
    } else if d == 8 {
    } else if d == 9 {
    } else if d == 10 {
    } else if d == 11 {
    } else if d == 12 {
    }
  }

  lemma {:induction false} Primes()
    ensures Prime(7) && Prime(31) && Prime(151)
  {
    forall d | 2 <= d < 31
      ensures 31 % d != 0
    {
      var q := 31 / d;
      if d <= 5 {
        NoFactor31(d, q);
      } else if 2 <= q {
        assert d * q >= 6 * q;
        NoFactor31(q, d);
      }
    }
    forall d | 2 <= d < 151
      ensures 151 % d != 0
    {
      var q := 151 / d;
      if d <= 12 {
        NoFactor151(d, q);
      } else if 2 <= q {
        assert d * q >= 13 * q;
        NoFactor151(q, d);
      }
    }
  }

  /** A factorisation of 32767 = 7 * 31 * 151 whose second factor no prime divides. */
  lemma {:induction false} CofactorOne(o: nat, q: nat)
    requires o * q == ORDER
    requires q % 7 != 0 && q % 31 != 0 && q % 151 != 0
    ensures q == 1
  {
    Primes();
    PrimeDividesProduct(7, q, o, 4681);
    var a := o / 7;
    assert q * a == 4681 by { assert q * (7 * a) == 7 * (q * a); }
    PrimeDividesProduct(31, q, a, 151);
    var b := a / 31;
    assert q * b == 151 by { assert q * (31 * b) == 31 * (q * b); }
    PrimeDividesProduct(151, q, b, 1);
    var c := b / 151;
    assert q * c == 1 by { assert q * (151 * c) == 151 * (q * c); }
    MulAtLeast(c, q);
  }

  lemma {:induction false} CofactorIn(o: nat, q: nat, p: nat, m: nat)
    requires o * q == p * m && p > 0 && q % p == 0 && Fixes(o)
    ensures Fixes(m)
  {
    var a := q / p;
    assert q == p * a;
    assert p * (a * o) == p * m;
    QuotientUnique(p, a * o, 0, m, 0);
    FixesMultiple(o, a);
  }

  lemma {:induction false} ProperDivisorMoves(o: nat, q: nat)
    requires o * q == ORDER && o < ORDER
    ensures !Fixes(o)
  {
    if Fixes(o) {
      Not217();
      Not1057();
      Not4681();
      if q % 7 == 0 {
        CofactorIn(o, q, 7, 4681);
      } else if q % 31 == 0 {
        CofactorIn(o, q, 31, 1057);
      } else if q % 151 == 0 {
        CofactorIn(o, q, 151, 217);
      } else {
        CofactorOne(o, q);
      }
    }
  }

  /** x^n (x + 1) = x + 1 modulo the generator exactly when 32767 divides n. */
  lemma {:induction false} OrderExact(n: nat)
    ensures Fixes(n) <==> n % ORDER == 0
  {
    RootReturns();
    if n % ORDER == 0 {
      FixesMultiple(ORDER, n / ORDER);
    }
    if Fixes(n) {
      FixesRemainder(ORDER, n);
      if n % ORDER != 0 {
        var o := LeastPeriod(n % ORDER);
        FixesRemainder(o, ORDER);
        ProperDivisorMoves(o, ORDER / o);
      }
    }
  }

  // ----- from multiples of x + 1 to x^15 itself

  lemma {:induction false} FixedChain(s: Reg)
    requires !s[15] && forall i :: 0 <= i < 15 ==> s[i] == s[i + 1]
    ensures s == ZERO
  {
    var i := 15;
    while i > 0
      invariant 0 <= i <= 15
      invariant forall k :: i <= k < 16 ==> !s[k]
    {
      i := i - 1;
      assert s[i] == s[i + 1];
    }
  }

  lemma {:induction false} FixedOdd(s: Reg)
    requires Tick(s) == s && s[0]
    ensures Parity(s)
  {
    var t := Tick(s);
    assert t[15] == s[0];
    assert t[14] == s[15] && t[13] == !s[14];
    assert forall i :: 1 <= i < 13 ==> t[i] == s[i + 1];
    var i := 13;
    while i > 1
      invariant 1 <= i <= 13
      invariant forall k :: i <= k < 14 ==> s[k] == s[13]
    {
      i := i - 1;
      assert t[i] == s[i + 1];
    }
    assert t[0] == !s[1];
    assert s == [true] + Zeros(13) + [true] + [true];
    ParityAppend([true] + Zeros(13) + [true], true);
    ParityAppend([true] + Zeros(13), true);
    assert ([true] + Zeros(13))[1..] == Zeros(13);
    ParityZeros(13);
  }

  /** A register of even parity that a tick leaves alone is zero. */
  lemma {:induction false} FixedEven(s: Reg)
    requires Tick(s) == s && !Parity(s)
    ensures s == ZERO
  {
    var t := Tick(s);
    if s[0] {
      FixedOdd(s);
    } else {
      assert t[15] == s[0];
      assert forall i :: 0 <= i < 15 ==> t[i] == s[i + 1];
      FixedChain(s);
    }
  }

  lemma {:induction false} TicksParity(r: Reg, n: nat)
    ensures Parity(Ticks(r, n)) == Parity(r)
    decreases n
  {
    if n > 0 {
      TickParity(r);
      TicksParity(Tick(r), n - 1);
    }
  }

  lemma {:induction false} SumZero(a: Reg, b: Reg)
    requires XorBits(a, b) == ZERO
    ensures a == b
  {
    forall i | 0 <= i < 16
      ensures a[i] == b[i]
    {
      assert !XorBits(a, b)[i];
    }
  }

  lemma {:induction false} SumFixed(a: Reg, b: Reg)
    requires XorBits(Tick(a), a) == XorBits(Tick(b), b)
    ensures Tick(XorBits(a, b)) == XorBits(a, b)
  {
    TickLinear(a, b);
    forall i | 0 <= i < 16
      ensures (Tick(a)[i] != Tick(b)[i]) == (a[i] != b[i])
    {
      assert XorBits(Tick(a), a)[i] == XorBits(Tick(b), b)[i];
    }
  }

  /** x^n (x + 1) is x^(n+1) + x^n. */
  lemma {:induction false} RootTicks(n: nat)
    ensures Ticks(ROOT, n) == XorBits(Tick(Ticks(ONE, n)), Ticks(ONE, n))
  {
    assert Tick(ONE) == Zeros(14) + [true, false];
    assert ROOT == XorBits(Tick(ONE), ONE);
    TicksLinear(Tick(ONE), ONE, n);
    TicksAdd(ONE, 1, n);
    TicksAdd(ONE, n, 1);
    assert Ticks(ONE, 1) == Tick(ONE);
    assert Ticks(Ticks(ONE, n), 1) == Tick(Ticks(ONE, n));
  }

  /** x^n = 1 modulo the generator exactly when 32767 divides n. */
  lemma {:induction false} OrderOfX(n: nat)
    ensures Ticks(ONE, n) == ONE <==> n % ORDER == 0
  {
    var u := Ticks(ONE, n);
    RootTicks(n);
    RootTicks(0);
    OrderExact(n);
    if n % ORDER == 0 {
      SumFixed(u, ONE);
      TicksParity(ONE, n);
      ParityXor(u, ONE);
      FixedEven(XorBits(u, ONE));
      SumZero(u, ONE);
    }
  }

  /** The register right after a lone message bit was added. */
  const TOP: Reg := [true] + Zeros(15)

  /** Ticking x^15 returns to x^15 exactly at the multiples of 32767. */
  lemma {:induction false} OrderOfTop(n: nat)
    ensures Ticks(TOP, n) == TOP <==> n % ORDER == 0
  {
    TicksMoveUp([true], 15);
    TicksAdd(ONE, 15, n);
    TicksAdd(ONE, n, 15);
    OrderOfX(n);
    if Ticks(TOP, n) == TOP {
      TicksCancel(Ticks(ONE, n), ONE, 15);
    }
  }
}
