/** The checksum is a polynomial remainder over GF(2).

    Polynomials are coefficient sequences, highest degree first. For a message M of n
    bits the checksum is the one R of degree below 16 with
    Q * (x^16 + x^15 + x^2 + 1) + R = I * x^n + M * x^16, I being the initial register. */
module CrcRemainder {
  import opened Words
  import opened Register
  import opened Crc16
  import opened CrcTheory

  /** Coefficient i of q, zero outside. */
  predicate At(q: seq<bool>, i: int) {
    0 <= i < |q| && q[i]
  }

  /** q times x^16 + x^15 + x^2 + 1. */
  function TimesGenerator(q: seq<bool>): (p: seq<bool>)
    ensures |p| == |q| + 16
  {
    seq(|q| + 16, k requires 0 <= k < |q| + 16 =>
      (At(q, k) != At(q, k - 1)) != (At(q, k - 14) != At(q, k - 16)))
  }

  /** I * x^n + M * x^16. */
  function Dividend(start: Reg, bits: seq<bool>): (p: seq<bool>)
    ensures |p| == |bits| + 16
  {
    XorBits(start + Zeros(|bits|), bits + Zeros(16))
  }

  /** Q * generator + R. */
  function Compose(q: seq<bool>, r: Reg): (p: seq<bool>)
    ensures |p| == |q| + 16
  {
    XorBits(TimesGenerator(q), Zeros(|q|) + r)
  }

  ghost predicate IsRemainder(start: Reg, bits: seq<bool>, r: Reg) {
    exists q: seq<bool> :: |q| == |bits| && Compose(q, r) == Dividend(start, bits)
  }

  /** Feeding a message into the register is long division: the quotient's digits are
      the bits shifted out. */
  lemma {:induction false} Division(c: Reg, bits: seq<bool>) returns (q: seq<bool>)
    ensures |q| == |bits| && Compose(q, Feed(c, bits)) == Dividend(c, bits)
    decreases |bits|
  {
    if bits == [] {
      q := [];
      DivisionBase(c);
    } else {
      var q1 := Division(Tick(AddBit(c, bits[0])), bits[1..]);
      q := [c[0] != bits[0]] + q1;
      DivisionStep(c, bits, q1, Feed(c, bits));
    }
  }

  lemma {:induction false} DivisionBase(c: Reg)
    ensures Compose([], c) == Dividend(c, [])
  {
    var none: seq<bool> := [];
    assert forall i :: !At(none, i);
    forall k | 0 <= k < 16
      ensures Compose([], c)[k] == Dividend(c, [])[k]
    {
      assert !TimesGenerator(none)[k];
      assert (Zeros(0) + c)[k] == (c + Zeros(0))[k] == c[k];
      assert ([] + ZERO)[k] == ZERO[k];
    }
  }

  lemma {:induction false} DivisionStep(c: Reg, bits: seq<bool>, q: seq<bool>, r: Reg)
    requires bits != [] && |q| == |bits| - 1
    requires Compose(q, r) == Dividend(Tick(AddBit(c, bits[0])), bits[1..])
    ensures Compose([c[0] != bits[0]] + q, r) == Dividend(c, bits)
  {
    var t := c[0] != bits[0];
    forall k | 0 <= k < |bits| + 16
      ensures Compose([t] + q, r)[k] == Dividend(c, bits)[k]
    {
      QuotientHead(t, q, k);
      DividendHead(c, bits, k);
      if k > 0 {
        assert Compose(q, r)[k - 1] == (TimesGenerator(q)[k - 1] != (Zeros(|q|) + r)[k - 1]);
      }
    }
  }

  /** Prepending a quotient digit adds the generator's four terms. */
  lemma {:induction false} QuotientHead(t: bool, q: seq<bool>, k: nat)
    requires k < |q| + 17
    ensures TimesGenerator([t] + q)[k]
         == ((k > 0 && TimesGenerator(q)[k - 1]) != (t && k in {0, 1, 14, 16}))
  {
    var p := [t] + q;
    assert forall i :: At(p, i) == if i == 0 then t else At(q, i - 1);
  }

  lemma {:induction false} DividendHead(c: Reg, bits: seq<bool>, k: nat)
    requires bits != [] && k < |bits| + 16
    ensures Dividend(c, bits)[k]
         == ((k > 0 && Dividend(Tick(AddBit(c, bits[0])), bits[1..])[k - 1])
             != ((c[0] != bits[0]) && k in {0, 1, 14, 16}))
  {
    var s := AddBit(c, bits[0]);
    if k > 0 {
      assert k < 16 ==> s[k] == c[k];
      assert k <= 16 ==> Tick(s)[k - 1] == ((k < 16 && s[k]) != (s[0] && TAPS[k - 1]));
    }
  }

  /** Quotient and remainder are unique. */
  lemma {:induction false} DivisionUnique(q: seq<bool>, r: Reg, q': seq<bool>, r': Reg)
    requires |q| == |q'| && Compose(q, r) == Compose(q', r')
    ensures q == q' && r == r'
  {
    var n := |q|;
    var k := 0;
    while k < n
      invariant 0 <= k <= n && q[..k] == q'[..k]
    {
      assert forall i :: i < k ==> At(q, i) == At(q', i) by {
        forall i | 0 <= i < k ensures q[i] == q'[i] {
          assert q[..k][i] == q'[..k][i];
        }
      }
      assert Compose(q, r)[k] == TimesGenerator(q)[k];
      assert Compose(q', r')[k] == TimesGenerator(q')[k];
      assert q[k] == q'[k];
      k := k + 1;
    }
    assert q == q[..n] && q' == q'[..n];
    forall i | 0 <= i < 16
      ensures r[i] == r'[i]
    {
      assert Compose(q, r)[n + i] == (TimesGenerator(q)[n + i] != r[i]);
      assert Compose(q', r')[n + i] == (TimesGenerator(q')[n + i] != r'[i]);
    }
  }

  /** CRC16Modbus returns c exactly when c's digits are the remainder of the message. */
  lemma {:induction false} ChecksumIsRemainder(data: seq<byte>, c: word)
    ensures c == Checksum(data)
       <==> IsRemainder(ToBits(INIT, 16), Bits(data), ToBits(c, 16))
  {
    var start, bits := ToBits(INIT, 16), Bits(data);
    var q := Division(start, bits);
    RunIsFeed(INIT, data);
    if IsRemainder(start, bits, ToBits(c, 16)) {
      var q' :| |q'| == |bits| && Compose(q', ToBits(c, 16)) == Dividend(start, bits);
      DivisionUnique(q, Feed(start, bits), q', ToBits(c, 16));
      BitsInjective(c, Checksum(data));
    }
  }
}
