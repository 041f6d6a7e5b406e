/** What starting the register at all ones does. */
module CrcStart {
  import opened Words
  import opened Register
  import opened Crc16
  import opened CrcTheory
  import opened CrcOrder

  function Ones(n: nat): (s: seq<bool>)
    ensures |s| == n
  {
    seq(n, _ => true)
  }

  /** Every digit flipped. */
  function Not(s: seq<bool>): (t: seq<bool>)
    ensures |t| == |s|
  {
    seq(|s|, i requires 0 <= i < |s| => !s[i])
  }

  lemma {:induction false} NotHead(b: bool, s: seq<bool>)
    ensures Not([b] + s) == [!b] + Not(s)
  {}

  lemma {:induction false} NotConcat(s: seq<bool>, t: seq<bool>)
    ensures Not(s + t) == Not(s) + Not(t)
  {}

  /** Taking a number from the greatest of its length flips its digits. */
  lemma {:induction false} Complement(v: nat, n: nat)
    requires v < Pow2(n)
    ensures ToBits(Pow2(n) - 1 - v, n) == Not(ToBits(v, n))
    decreases n
  {
    if n > 0 {
      var b, h := v % 2 == 1, v / 2;
      Complement(h, n - 1);
      var g := Pow2(n - 1) - 1 - h;
      assert Pow2(n) - 1 - v == (if !b then 1 else 0) + 2 * g;
      FirstDigit(!b, g, n - 1);
      FirstDigit(b, h, n - 1);
      NotHead(b, ToBits(h, n - 1));
    }
  }

  lemma {:induction false} ByteComplement(b: byte)
    ensures ToBits(0xFF - b, 8) == Not(ToBits(b, 8))
  {
    Pow2Values();
    Complement(b, 8);
  }

  lemma {:induction false} StartDigits(w: word)
    requires w == INIT
    ensures ToBits(w, 16) == Ones(16)
  {
    Pow2Values();
    Complement(0, 16);
    ZeroBits(16);
  }

  // ----- the first sixteen bits count complemented

  lemma {:induction false} FirstSixteen(w: Reg)
    ensures Feed(Ones(16), w) == Feed(ZERO, Not(w))
  {
    FeedIsAddThenTick(Ones(16), w);
    FeedIsAddThenTick(ZERO, Not(w));
    assert w + Zeros(0) == w && Not(w) + Zeros(0) == Not(w);
    assert XorBits(Ones(16), w) == XorBits(ZERO, Not(w));
  }

  lemma {:induction false} TwoBytesFlipped(a: byte, b: byte)
    ensures Bits([0xFF - a, 0xFF - b]) == Not(Bits([a, b]))
  {
    BitsPair(a, b);
    BitsPair(0xFF - a, 0xFF - b);
    ByteComplement(a);
    ByteComplement(b);
    NotConcat(ToBits(a, 8), ToBits(b, 8));
  }

  lemma {:induction false} BitsPair(a: byte, b: byte)
    ensures Bits([a, b]) == ToBits(a, 8) + ToBits(b, 8)
  {
    OneByte(a);
    OneByte(b);
    BitsConcat([a], [b]);
    assert [a] + [b] == [a, b];
  }

  lemma {:induction false} FeedBytes(r: Reg, head: seq<byte>, rest: seq<byte>)
    ensures Feed(r, Bits(head + rest)) == Feed(Feed(r, Bits(head)), Bits(rest))
  {
    BitsConcat(head, rest);
    FeedConcat(r, Bits(head), Bits(rest));
  }

  lemma {:induction false} FlippedStart(a: byte, b: byte, rest: seq<byte>)
    ensures Feed(Ones(16), Bits([a, b] + rest)) == Feed(ZERO, Bits([0xFF - a, 0xFF - b] + rest))
  {
    FeedBytes(Ones(16), [a, b], rest);
    FeedBytes(ZERO, [0xFF - a, 0xFF - b], rest);
    TwoBytesFlipped(a, b);
    FirstSixteen(Bits([a, b]));
  }

  /** The checksum of a message is that of the message with its first sixteen bits flipped, run from an
      empty register. */
  lemma {:induction false} ComplementedStart(d: seq<byte>)
    requires |d| >= 2
    ensures Checksum(d) == Run(0, [0xFF - d[0], 0xFF - d[1]] + d[2..])
  {
    assert d == [d[0], d[1]] + d[2..];
    FlippedStart(d[0], d[1], d[2..]);
    SameRun(INIT, d, 0, [0xFF - d[0], 0xFF - d[1]] + d[2..]);
  }

  lemma {:induction false} SameRun(v: word, d: seq<byte>, w: word, e: seq<byte>)
    requires v == INIT && w == 0 && Feed(Ones(16), Bits(d)) == Feed(ZERO, Bits(e))
    ensures Run(v, d) == Run(w, e)
  {
    RunIsFeed(v, d);
    RunIsFeed(w, e);
    StartDigits(v);
    ZeroWord(w);
    BitsInjective(Run(v, d), Run(w, e));
  }

  // ----- leading zero bytes

  predicate FixedBy(r: Reg, n: nat) {
    Ticks(r, n) == r
  }

  /** x^m u + u for u fixed by x^n. */
  lemma {:induction false} StaysFixed(u: Reg, m: nat, n: nat)
    requires FixedBy(u, n)
    ensures FixedBy(XorBits(Ticks(u, m), u), n)
  {
    TicksLinear(Ticks(u, m), u, n);
    TicksAdd(u, m, n);
    TicksAdd(u, n, m);
  }

  /** (x^m + 1)^2 = x^(2m) + 1. */
  lemma {:induction false} SquareSum(m: nat)
    ensures var u := XorBits(Ticks(ONE, m), ONE);
            XorBits(Ticks(u, m), u) == XorBits(Ticks(ONE, 2 * m), ONE)
  {
    var a := Ticks(ONE, m);
    TicksLinear(a, ONE, m);
    TicksAdd(ONE, m, m);
    CancelMiddle(Ticks(ONE, 2 * m), a, ONE);
  }

  lemma {:induction false} CancelMiddle(a: Reg, b: Reg, c: Reg)
    ensures XorBits(XorBits(a, b), XorBits(b, c)) == XorBits(a, c)
  {}

  /** If x^m + 1 is fixed, so is x^(m 2^k) + 1. */
  lemma {:induction false} SquaresFixed(m: nat, k: nat, n: nat)
    requires FixedBy(XorBits(Ticks(ONE, m), ONE), n)
    ensures FixedBy(XorBits(Ticks(ONE, m * Pow2(k)), ONE), n)
    decreases k
  {
    if k > 0 {
      SquaresFixed(m, k - 1, n);
      var j := m * Pow2(k - 1);
      StaysFixed(XorBits(Ticks(ONE, j), ONE), j, n);
      SquareSum(j);
      assert m * Pow2(k) == 2 * j;
    }
  }

  lemma {:induction false} OneSixteen()
    ensures Ticks(ONE, 16) == TAPS
  {
    TicksMoveUp([true], 15);
    TicksAdd(ONE, 15, 1);
    Register.FirstTick(TOP, 0);
    CrcTheory.FirstTick();
    assert AddBit(ZERO, true) == TOP;
  }

  /** (x + 1)(x^15 + ... + x + 1) = x^16 + 1. */
  lemma {:induction false} OnesTimesRoot()
    ensures XorBits(Tick(Ones(16)), Ones(16)) == XorBits(TAPS, ONE)
  {
    var t := Tick(Ones(16));
    assert t == XorBits(Ones(15) + [false], TAPS);
    forall i | 0 <= i < 16
      ensures XorBits(t, Ones(16))[i] == XorBits(TAPS, ONE)[i]
    {
      assert t[i] == ((Ones(15) + [false])[i] != TAPS[i]);
      assert ONE[i] == (i == 15);
    }
  }

  /** x^32768 + 1 = x + 1. */
  lemma {:induction false} LastSquare()
    ensures XorBits(Ticks(ONE, 32768), ONE) == ROOT
  {
    OrderOfX(32767);
    TicksAdd(ONE, 32767, 1);
    Register.FirstTick(ONE, 0);
    RootTicks(0);
  }

  lemma {:induction false} OnesFixedOnly(n: nat)
    requires FixedBy(Ones(16), n)
    ensures n % 32767 == 0
  {
    StaysFixed(Ones(16), 1, n);
    Register.FirstTick(Ones(16), 0);
    OnesTimesRoot();
    OneSixteen();
    SquaresFixed(16, 11, n);
    Pow2Eleven();
    LastSquare();
    OrderExact(n);
  }

  lemma {:induction false} Pow2Eleven()
    ensures 16 * Pow2(11) == 32768
  {
    assert Pow2(4) == 16;
    assert Pow2(8) == 256;
  }

  lemma {:induction false} OnesFixed(n: nat)
    requires n % 32767 == 0
    ensures FixedBy(Ones(16), n)
  {
    OrderExact(n);
    StaysFixed(ROOT, 2, n);
    var u := Zeros(12) + Ones(4);
    Doubles(2);
    StaysFixed(u, 4, n);
    Doubles(4);
    StaysFixed(Zeros(8) + Ones(8), 8, n);
    Doubles(8);
    assert Zeros(0) + Ones(16) == Ones(16);
  }

  /** (x^m + 1)(x^(m-1) + ... + 1) = x^(2m-1) + ... + 1. */
  lemma {:induction false} Doubles(m: nat)
    requires m <= 8
    ensures var u: Reg := Zeros(16 - m) + Ones(m);
            XorBits(Ticks(u, m), u) == Zeros(16 - 2 * m) + Ones(2 * m)
    ensures m == 2 ==> Zeros(16 - m) + Ones(m) == ROOT
  {
    var s := Zeros(16 - 2 * m) + Ones(m);
    assert Zeros(16 - m) + Ones(m) == Zeros(m) + s;
    TicksMoveUp(s, m);
  }

  lemma {:induction false} ZeroBytes(z: seq<byte>)
    requires forall i :: 0 <= i < |z| ==> z[i] == 0
    ensures Bits(z) == Zeros(8 * |z|)
  {
    if z != [] {
      ZeroBits(8);
      ZeroBytes(z[1..]);
    }
  }

  lemma {:induction false} FeedCancelsEnd(a: Reg, b: Reg, u: seq<bool>)
    requires Feed(a, u) == Feed(b, u)
    ensures a == b
    decreases |u|
  {
    if u != [] {
      FeedCancelsEnd(Tick(AddBit(a, u[0])), Tick(AddBit(b, u[0])), u[1..]);
      var c, d := AddBit(a, u[0]), AddBit(b, u[0]);
      Register.FirstTick(c, 0);
      Register.FirstTick(d, 0);
      TicksCancel(c, d, 1);
      assert forall i :: 0 <= i < 16 ==> c[i] == d[i];
      assert forall i :: 1 <= i < 16 ==> a[i] == c[i] && b[i] == d[i];
    }
  }

  lemma {:induction false} EightTimes(n: nat)
    ensures (8 * n) % 32767 == 0 <==> n % 32767 == 0
  {
    if (8 * n) % 32767 == 0 {
      var k := 8 * n / 32767;
      assert 8 * n == 32767 * k;
      assert n == 32767 * (4096 * k - n);
    }
    if n % 32767 == 0 {
      var k := n / 32767;
      assert 8 * n == 32767 * (8 * k);
    }
  }

  /** Zero bytes put in front of a message leave its checksum alone exactly when their number is a multiple
      of 32767; from an empty register they always would. */
  lemma {:induction false} LeadingZeroBytes(z: seq<byte>, d: seq<byte>)
    requires forall i :: 0 <= i < |z| ==> z[i] == 0
    ensures Checksum(z + d) == Checksum(d) <==> |z| % 32767 == 0
  {
    var n := 8 * |z|;
    RunIsFeed(INIT, z + d);
    RunIsFeed(INIT, d);
    StartDigits(INIT);
    FeedBytes(Ones(16), z, d);
    ZeroBytes(z);
    FeedZeros(Ones(16), n);
    EightTimes(|z|);
    if Checksum(z + d) == Checksum(d) {
      FeedCancelsEnd(Ticks(Ones(16), n), Ones(16), Bits(d));
      OnesFixedOnly(n);
    }
    if |z| % 32767 == 0 {
      OnesFixed(n);
      BitsInjective(Checksum(z + d), Checksum(d));
    }
  }
}
