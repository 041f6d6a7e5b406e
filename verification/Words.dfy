/** Machine words as bounded naturals, and the binary digits they stand for.

    A word is read through its digits, least significant first. Go's `^` on
    unsigned words is the digit-wise exclusive or; `>> k` is division by a power
    of two; `& (2^k - 1)` is the remainder. */
module Words {

  type byte = n: nat | n < 0x100
  type word = n: nat | n < 0x1_0000

  /** The 16-bit word with the given low and high bytes. */
  function Join(low: byte, high: byte): (w: word) {
    var l: int, h: int := low, high;
    l + 0x100 * h
  }

  function Pow2(n: nat): (p: nat)
    ensures p > 0
  {
    if n == 0 then 1 else 2 * Pow2(n - 1)
  }

  lemma {:induction false} Pow2Values()
    ensures Pow2(8) == 0x100 && Pow2(16) == 0x1_0000
  {
    assert Pow2(4) == 16;
    assert Pow2(8) == 0x100;
    assert Pow2(12) == 0x1000;
  }

  /** The n low binary digits of v, least significant first. */
  function ToBits(v: nat, n: nat): (s: seq<bool>)
    ensures |s| == n
    decreases n, v
  {
    if n == 0 then [] else [v % 2 == 1] + ToBits(v / 2, n - 1)
  }

  /** The number whose digits, least significant first, are s. */
  function FromBits(s: seq<bool>): (v: nat)
    ensures v < Pow2(|s|)
  {
    if s == [] then 0 else (if s[0] then 1 else 0) + 2 * FromBits(s[1..])
  }

  function Zeros(n: nat): (s: seq<bool>)
    ensures |s| == n
  {
    seq(n, _ => false)
  }

  function XorBits(a: seq<bool>, b: seq<bool>): (s: seq<bool>)
    requires |a| == |b|
    ensures |s| == |a|
    ensures forall i :: 0 <= i < |s| ==> s[i] == (a[i] != b[i])
  {
    seq(|a|, i requires 0 <= i < |a| => a[i] != b[i])
  }

  /** Exclusive or of the n low digits. */
  function XorLow(a: nat, b: nat, n: nat): (c: nat)
    ensures c < Pow2(n)
    decreases n, a, b
  {
    if n == 0 then 0 else (if a % 2 != b % 2 then 1 else 0) + 2 * XorLow(a / 2, b / 2, n - 1)
  }

  /** Exclusive or of two 16-bit words. */
  function Xor(a: word, b: word): (c: word) {
    Pow2Values();
    XorLow(a, b, 16)
  }

  lemma {:induction false} NumberOfBits(v: nat, n: nat)
    requires v < Pow2(n)
    ensures FromBits(ToBits(v, n)) == v
    decreases n
  {
    if n > 0 {
      NumberOfBits(v / 2, n - 1);
      assert ToBits(v, n)[1..] == ToBits(v / 2, n - 1);
    }
  }

  /** A 16-bit word is determined by its digits. */
  lemma {:induction false} BitsInjective(a: word, b: word)
    requires ToBits(a, 16) == ToBits(b, 16)
    ensures a == b
  {
    Pow2Values();
    NumberOfBits(a, 16);
    NumberOfBits(b, 16);
  }

  lemma {:induction false} XorHead(x: bool, y: bool, u: seq<bool>, v: seq<bool>)
    requires |u| == |v|
    ensures XorBits([x] + u, [y] + v) == [x != y] + XorBits(u, v)
  {}

  lemma {:induction false} XorLowBits(a: nat, b: nat, n: nat)
    ensures ToBits(XorLow(a, b, n), n) == XorBits(ToBits(a, n), ToBits(b, n))
    decreases n
  {
    if n > 0 {
      var u, v := ToBits(a / 2, n - 1), ToBits(b / 2, n - 1);
      XorLowBits(a / 2, b / 2, n - 1);
      assert XorLow(a, b, n) / 2 == XorLow(a / 2, b / 2, n - 1);
      XorHead(a % 2 == 1, b % 2 == 1, u, v);
    }
  }

  lemma {:induction false} XorIsBitwise(a: word, b: word)
    ensures ToBits(Xor(a, b), 16) == XorBits(ToBits(a, 16), ToBits(b, 16))
  {
    XorLowBits(a, b, 16);
  }

  /** `v >> k`. */
  function Quo(v: nat, k: nat): (q: nat)
    decreases k, v
  {
    if k == 0 then v else Quo(v / 2, k - 1)
  }

  /** `v & (2^k - 1)`. */
  function Rem(v: nat, k: nat): (r: nat)
    decreases k, v
  {
    if k == 0 then 0 else v % 2 + 2 * Rem(v / 2, k - 1)
  }

  /** The lowest digit, then the digits of the half. */
  lemma {:induction false} FirstDigit(b: bool, u: nat, n: nat)
    ensures ToBits((if b then 1 else 0) + 2 * u, n + 1) == [b] + ToBits(u, n)
  {
    var v := (if b then 1 else 0) + 2 * u;
    assert v / 2 == u && (v % 2 == 1) == b;
  }

  /** Digits split at k: the low ones are those of the remainder, the high ones those
      of the quotient. */
  lemma {:induction false} BitsSplit(v: nat, k: nat, n: nat)
    ensures ToBits(v, k + n) == ToBits(Rem(v, k), k) + ToBits(Quo(v, k), n)
    decreases k
  {
    if k > 0 {
      var b, h := v % 2 == 1, v / 2;
      BitsSplit(h, k - 1, n);
      FirstDigit(b, h, k - 1 + n);
      FirstDigit(b, Rem(h, k - 1), k - 1);
      Assoc([b], ToBits(Rem(h, k - 1), k - 1), ToBits(Quo(h, k - 1), n));
    }
  }

  lemma {:induction false} Assoc(a: seq<bool>, b: seq<bool>, c: seq<bool>)
    ensures a + (b + c) == (a + b) + c
  {}

  lemma {:induction false} QuoRem(v: nat, k: nat)
    ensures v == Quo(v, k) * Pow2(k) + Rem(v, k) && Rem(v, k) < Pow2(k)
    decreases k
  {
    if k > 0 {
      var h := v / 2;
      QuoRem(h, k - 1);
      Doubled(h, Quo(h, k - 1), Pow2(k - 1), Rem(h, k - 1));
    }
  }

  lemma {:induction false} Doubled(h: nat, q: nat, p: nat, r: nat)
    requires h == q * p + r
    ensures 2 * h == q * (2 * p) + 2 * r
  {}

  lemma {:induction false} ByteShift(v: nat)
    ensures Quo(v, 8) == v / 0x100 && Rem(v, 8) == v % 0x100
  {
    QuoRem(v, 8);
    Pow2Values();
  }

  /** Two digits at a time. */
  lemma {:induction false} TwoDigits(v: nat, n: nat)
    ensures ToBits(v, n + 2) == [v % 2 == 1, v / 2 % 2 == 1] + ToBits(v / 4, n)
  {
    var a := v / 2;
    assert a / 2 == v / 4;
    assert ToBits(a, n + 1) == [a % 2 == 1] + ToBits(a / 2, n);
  }

  lemma {:induction false} Nibble(v: nat, n: nat)
    ensures ToBits(v, n + 4)
         == [v % 2 == 1, v / 2 % 2 == 1] + ([v / 4 % 2 == 1, v / 8 % 2 == 1] + ToBits(v / 16, n))
  {
    var a := v / 4;
    assert a / 2 == v / 8 && a / 4 == v / 16;
    TwoDigits(v, n + 2);
    TwoDigits(a, n);
  }

  lemma {:induction false} ZeroPair(v: nat, n: nat)
    ensures ToBits(4 * v, n + 2) == [false, false] + ToBits(v, n)
  {
    FirstDigit(false, v, n);
    FirstDigit(false, 2 * v, n + 1);
  }

  lemma {:induction false} ZeroNibble(v: nat, n: nat)
    ensures ToBits(16 * v, n + 4) == [false, false] + ([false, false] + ToBits(v, n))
  {
    ZeroPair(v, n);
    ZeroPair(4 * v, n + 2);
  }

  lemma {:induction false} ZeroBits(n: nat)
    ensures ToBits(0, n) == Zeros(n)
  {
    if n > 0 {
      ZeroBits(n - 1);
    }
  }

  /** A number below 2^k has only zeros above its k low digits. */
  lemma {:induction false} SmallBits(v: nat, k: nat, n: nat)
    requires v < Pow2(k)
    ensures ToBits(v, k + n) == ToBits(v, k) + Zeros(n)
    decreases k
  {
    if k == 0 {
      ZeroBits(n);
    } else {
      var b, h := v % 2 == 1, v / 2;
      SmallBits(h, k - 1, n);
      FirstDigit(b, h, k - 1 + n);
      FirstDigit(b, h, k - 1);
      Assoc([b], ToBits(h, k - 1), Zeros(n));
    }
  }
}
