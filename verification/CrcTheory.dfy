/** What the checksum detects. A frame is read as the sequence of its transmitted
    bits, each byte least significant bit first. */
module CrcTheory {
  import opened Words
  import opened Register
  import opened Crc16
  import CrcOrder

  // ----- frames as bit sequences

  function Bits(data: seq<byte>): (bits: seq<bool>)
    ensures |bits| == 8 * |data|
  {
    if data == [] then [] else ToBits(data[0], 8) + Bits(data[1..])
  }

  lemma {:induction false} BitsConcat(a: seq<byte>, b: seq<byte>)
    ensures Bits(a + b) == Bits(a) + Bits(b)
    decreases |a|
  {
    if a == [] {
      assert a + b == b;
    } else {
      assert (a + b)[1..] == a[1..] + b;
      BitsConcat(a[1..], b);
    }
  }

  lemma {:induction false} BytesFromBits(a: seq<byte>, b: seq<byte>)
    requires |a| == |b| && Bits(a) == Bits(b)
    ensures a == b
    decreases |a|
  {
    if a != [] {
      assert Bits(a)[..8] == ToBits(a[0], 8) && Bits(a)[8..] == Bits(a[1..]);
      assert Bits(b)[..8] == ToBits(b[0], 8) && Bits(b)[8..] == Bits(b[1..]);
      Pow2Values();
      NumberOfBits(a[0], 8);
      NumberOfBits(b[0], 8);
      BytesFromBits(a[1..], b[1..]);
    }
  }

  /** Feeding up to 16 bits one by one is adding them all, then ticking. */
  lemma {:induction false} FeedIsAddThenTick(r: Reg, s: seq<bool>)
    requires |s| <= 16
    ensures Feed(r, s) == Ticks(XorBits(r, s + Zeros(16 - |s|)), |s|)
    decreases |s|
  {
    if s == [] {
      assert XorBits(r, s + Zeros(16)) == r;
    } else {
      var t, u := Tick(AddBit(r, s[0])), s[1..];
      assert Feed(r, s) == Feed(t, u);
      FeedIsAddThenTick(t, u);
      assert 16 - |u| == 17 - |s|;
      AddLater(r, s);
      Register.FirstTick(XorBits(r, s + Zeros(16 - |s|)), |u|);
    }
  }

  /** Adding all bits before the first tick is adding the rest after it. */
  lemma {:induction false} AddLater(r: Reg, s: seq<bool>)
    requires 0 < |s| <= 16
    ensures Tick(XorBits(r, s + Zeros(16 - |s|)))
         == XorBits(Tick(AddBit(r, s[0])), s[1..] + Zeros(17 - |s|))
  {
    var t, tail := AddBit(r, s[0]), s[1..] + Zeros(17 - |s|);
    var late := [false] + tail[..15];
    TickOnto(late, tail);
    TickLinear(t, late);
    SplitHead(r, s);
  }

  lemma {:induction false} SplitHead(r: Reg, s: seq<bool>)
    requires 0 < |s| <= 16
    ensures XorBits(r, s + Zeros(16 - |s|))
         == XorBits(AddBit(r, s[0]), [false] + (s[1..] + Zeros(17 - |s|))[..15])
  {
    var u, v := s + Zeros(16 - |s|), [false] + (s[1..] + Zeros(17 - |s|))[..15];
    assert v == u[0 := false];
  }

  /** The bytewise register is the bitwise one: the checksum is the remainder register
      after feeding every transmitted bit. */
  lemma {:induction false} RunIsFeed(c: word, data: seq<byte>)
    ensures ToBits(Run(c, data), 16) == Feed(ToBits(c, 16), Bits(data))
    decreases |data|
  {
    if data != [] {
      var d := Shift(Xor(c, data[0]), 8);
      ByteFeed(c, data[0]);
      FeedConcat(ToBits(c, 16), ToBits(data[0], 8), Bits(data[1..]));
      RunIsFeed(d, data[1..]);
    }
  }

  lemma {:induction false} ByteFeed(c: word, b: byte)
    ensures ToBits(Shift(Xor(c, b), 8), 16) == Feed(ToBits(c, 16), ToBits(b, 8))
  {
    FeedIsAddThenTick(ToBits(c, 16), ToBits(b, 8));
    ByteBits(b);
    XorIsBitwise(c, b);
    ShiftBits(Xor(c, b), 8);
  }

  // ----- validity as a zero residue

  lemma {:induction false} FeedWhole(r: Reg, w: Reg)
    ensures Feed(r, w) == ZERO <==> r == w
  {
    FeedCancels(r, w);
    assert w + Zeros(0) == w;
  }

  /** Running the checksum over a whole frame, trailer included, gives zero exactly
      when the frame is valid. */
  lemma {:induction false} ValidIffResidueZero(frame: seq<byte>)
    requires |frame| >= 4
    ensures IsValid(frame) <==> Checksum(frame) == 0
  {
    var n := |frame| - 2;
    var low, high := frame[n], frame[n + 1];
    var c := Checksum(frame[..n]);
    assert frame == frame[..n] + [low, high];
    BitsConcat(frame[..n], [low, high]);
    TwoBytes(low, high);
    RunIsFeed(INIT, frame);
    RunIsFeed(INIT, frame[..n]);
    FeedConcat(ToBits(INIT, 16), Bits(frame[..n]), Bits([low, high]));
    FeedWhole(ToBits(c, 16), ToBits(Join(low, high), 16));
    ZeroWord(Checksum(frame));
    if ToBits(c, 16) == ToBits(Join(low, high), 16) {
      BitsInjective(c, Join(low, high));
    }
  }

  lemma {:induction false} OneByte(b: byte)
    ensures Bits([b]) == ToBits(b, 8)
  {
    assert [b][1..] == [];
  }

  lemma {:induction false} TwoBytes(low: byte, high: byte)
    ensures Bits([low, high]) == ToBits(Join(low, high), 16)
  {
    var w := Join(low, high);
    assert w % 0x100 == low && w / 0x100 == high;
    SplitWord(w);
    OneByte(low);
    OneByte(high);
    BitsConcat([low], [high]);
    assert [low] + [high] == [low, high];
  }

  lemma {:induction false} ZeroWord(c: word)
    ensures c == 0 <==> ToBits(c, 16) == ZERO
  {
    ZeroBits(16);
    if ToBits(c, 16) == ZERO {
      BitsInjective(c, 0);
    }
  }

  /** What AppendCRC16 builds, ValidateCRC16 accepts, provided the frame reaches the
      minimum length of four. */
  lemma {:induction false} AppendValidates(data: seq<byte>)
    ensures IsValid(Append(data)) <==> |data| >= 2
  {
    var f := Append(data);
    assert f[..|f| - 2] == data;
  }

  /** The bits in which two frames differ. */
  function Flips(f: seq<byte>, g: seq<byte>): (e: seq<bool>)
    requires |f| == |g|
    ensures |e| == 8 * |f|
  {
    XorBits(Bits(f), Bits(g))
  }

  /** Whether a corrupted copy of a valid frame still validates depends on the flipped
      bits alone: on whether they are a multiple of the generator. */
  lemma {:induction false} SyndromeDecides(f: seq<byte>, g: seq<byte>)
    requires IsValid(f) && |g| == |f|
    ensures IsValid(g) <==> Feed(ZERO, Flips(f, g)) == ZERO
  {
    ValidIffResidueZero(f);
    ValidIffResidueZero(g);
    ZeroWord(Checksum(f));
    ZeroWord(Checksum(g));
    RunIsFeed(INIT, f);
    RunIsFeed(INIT, g);
    var r := ToBits(INIT, 16);
    FeedLinear(r, r, Bits(f), Bits(g));
    assert XorBits(r, r) == ZERO;
    var s := ToBits(Checksum(g), 16);
    assert XorBits(ZERO, s) == s;
  }

  // ----- bursts

  /** All flipped bits lie in a window of the given width starting at k. */
  predicate Within(e: seq<bool>, k: nat, width: nat) {
    forall i :: 0 <= i < |e| && e[i] ==> k <= i < k + width
  }

  lemma {:induction false} WindowSplit(e: seq<bool>, k: nat, w: nat)
    requires k + w <= |e| && Within(e, k, w)
    ensures e == Zeros(k) + e[k..k + w] + Zeros(|e| - k - w)
  {}

  lemma {:induction false} ZeroWindow(k: nat, p: seq<bool>, m: nat)
    ensures Zeros(k) + p + Zeros(m) == Zeros(k + |p| + m) <==> p == Zeros(|p|)
  {
    var e := Zeros(k) + p + Zeros(m);
    if e == Zeros(k + |p| + m) {
      assert p == e[k..k + |p|];
    }
  }

  /** Up to 16 bits cancel out of an empty register only if they are all zero. */
  lemma {:induction false} ShortMessage(p: seq<bool>)
    requires |p| <= 16
    ensures Feed(ZERO, p) == ZERO <==> p == Zeros(|p|)
  {
    var q := p + Zeros(16 - |p|);
    FeedCancels(ZERO, p);
    if ZERO == q {
      assert forall i :: 0 <= i < |p| ==> p[i] == q[i] == ZERO[i];
    }
    if p == Zeros(|p|) {
      assert forall i :: 0 <= i < 16 ==> q[i] == ZERO[i];
    }
  }

  lemma {:induction false} ShortBurst(e: seq<bool>, k: nat, w: nat)
    requires w <= 16 && k + w <= |e| && Within(e, k, w)
    ensures Feed(ZERO, e) == ZERO <==> e == Zeros(|e|)
  {
    var p := e[k..k + w];
    WindowSplit(e, k, w);
    FeedPadded(k, p, |e| - k - w);
    ShortMessage(p);
    ZeroWindow(k, p, |e| - k - w);
  }

  /** Any corruption confined to 16 consecutive transmitted bits is detected. */
  lemma {:induction false} BurstDetected(f: seq<byte>, g: seq<byte>, k: nat)
    requires IsValid(f) && |g| == |f| && g != f
    requires Within(Flips(f, g), k, 16)
    ensures !IsValid(g)
  {
    var e := Flips(f, g);
    SyndromeDecides(f, g);
    SomeFlip(f, g);
    var n := |e|;
    var i :| 0 <= i < n && e[i];
    if k + 16 <= n {
      ShortBurst(e, k, 16);
    } else {
      ShortBurst(e, k, n - k);
    }
    assert !Zeros(n)[i];
  }

  lemma {:induction false} SomeFlip(f: seq<byte>, g: seq<byte>)
    requires |f| == |g| && f != g
    ensures exists i :: 0 <= i < 8 * |f| && Flips(f, g)[i]
  {
    if forall i :: 0 <= i < 8 * |f| ==> !Flips(f, g)[i] {
      forall i | 0 <= i < 8 * |f|
        ensures Bits(f)[i] == Bits(g)[i]
      {
        assert !Flips(f, g)[i];
      }
      BytesFromBits(f, g);
    }
  }

  /** The generator's own coefficients, highest degree first: a 17-bit pattern. */
  const GENERATOR: seq<bool> := [true] + TAPS

  /** Sixteen is the exact limit: one 17-bit pattern, and no other, goes undetected. */
  lemma {:induction false} SeventeenBitBurst(f: seq<byte>, g: seq<byte>, k: nat)
    requires IsValid(f) && |g| == |f| && g != f
    requires k + 17 <= 8 * |f| && Within(Flips(f, g), k, 17)
    ensures IsValid(g) <==> Flips(f, g)[k..k + 17] == GENERATOR
  {
    SyndromeDecides(f, g);
    SomeFlip(f, g);
    SeventeenWindow(Flips(f, g), k);
  }

  lemma {:induction false} SeventeenWindow(e: seq<bool>, k: nat)
    requires k + 17 <= |e| && Within(e, k, 17) && exists i :: 0 <= i < |e| && e[i]
    ensures Feed(ZERO, e) == ZERO <==> e[k..k + 17] == GENERATOR
  {
    var p := e[k..k + 17];
    if p[0] {
      WindowSplit(e, k, 17);
      FeedPadded(k, p, |e| - k - 17);
      SeventeenBits(p);
    } else {
      assert Within(e, k + 1, 16);
      ShortBurst(e, k + 1, 16);
      var i :| 0 <= i < |e| && e[i];
      assert !Zeros(|e|)[i];
      assert !p[0] && GENERATOR[0];
    }
  }

  lemma {:induction false} SeventeenBits(p: seq<bool>)
    requires |p| == 17 && p[0]
    ensures Feed(ZERO, p) == ZERO <==> p == GENERATOR
  {
    FirstTick();
    FeedCancels(TAPS, p[1..]);
    assert p[1..] + Zeros(0) == p[1..];
    assert p == [true] + p[1..];
    assert GENERATOR[1..] == TAPS;
  }

  lemma {:induction false} FirstTick()
    ensures Tick(AddBit(ZERO, true)) == TAPS && Tick(AddBit(ZERO, false)) == ZERO
  {
    assert AddBit(ZERO, true) == CrcOrder.TOP;
    assert AddBit(ZERO, false) == ZERO;
    TickZero();
  }

  // ----- odd numbers of flips

  function Count(e: seq<bool>): (n: nat) {
    if e == [] then 0 else (if e[0] then 1 else 0) + Count(e[1..])
  }

  lemma {:induction false} ParityIsCount(e: seq<bool>)
    ensures Parity(e) == (Count(e) % 2 == 1)
  {
    if e != [] {
      ParityIsCount(e[1..]);
    }
  }

  /** Flipping an odd number of bits anywhere, trailer included, is detected. */
  lemma {:induction false} OddFlipsDetected(f: seq<byte>, g: seq<byte>)
    requires IsValid(f) && |g| == |f|
    requires Count(Flips(f, g)) % 2 == 1
    ensures !IsValid(g)
  {
    var e := Flips(f, g);
    SyndromeDecides(f, g);
    ParityIsCount(e);
    FeedParity(ZERO, e);
    ParityZeros(16);
  }

  // ----- two flips

  /** Exactly the bits i and j are flipped. */
  predicate OnlyAt(e: seq<bool>, i: nat, j: nat) {
    forall k :: 0 <= k < |e| ==> e[k] == (k == i || k == j)
  }

  lemma {:induction false} TwoFlipSyndrome(e: seq<bool>, i: nat, j: nat)
    requires i < j < |e| && OnlyAt(e, i, j)
    ensures Feed(ZERO, e) == ZERO <==> (j - i) % CrcOrder.ORDER == 0
  {
    var d := j - i;
    var p := [true] + Zeros(d - 1) + [true];
    assert e == Zeros(i) + p + Zeros(|e| - j - 1);
    FeedPadded(i, p, |e| - j - 1);
    FeedPair(d);
  }

  /** Two ones d apart leave x^15(x^d + 1) times x in the register. */
  lemma {:induction false} FeedPair(d: nat)
    requires d > 0
    ensures Feed(ZERO, [true] + Zeros(d - 1) + [true]) == ZERO <==> d % CrcOrder.ORDER == 0
  {
    var top := CrcOrder.TOP;
    FeedConcat(ZERO, [true] + Zeros(d - 1), [true]);
    FeedConcat(ZERO, [true], Zeros(d - 1));
    FirstTick();
    assert AddBit(ZERO, true) == top;
    assert Feed(ZERO, [true]) == Tick(top);
    FeedZeros(Tick(top), d - 1);
    var u := Ticks(top, d);
    assert Feed(ZERO, [true] + Zeros(d - 1)) == u;
    assert Feed(u, [true]) == Tick(AddBit(u, true));
    assert AddBit(u, true) == XorBits(u, top);
    CrcOrder.OrderOfTop(d);
    if Tick(XorBits(u, top)) == ZERO {
      TickInjective(XorBits(u, top));
      CrcOrder.SumZero(u, top);
    }
    if u == top {
      assert XorBits(u, top) == ZERO;
      TickZero();
    }
  }

  /** Two flipped bits go undetected exactly when their distance is a multiple of 32767. */
  lemma {:induction false} TwoFlips(f: seq<byte>, g: seq<byte>, i: nat, j: nat)
    requires IsValid(f) && |g| == |f|
    requires i < j < 8 * |f| && OnlyAt(Flips(f, g), i, j)
    ensures IsValid(g) <==> (j - i) % 32767 == 0
  {
    SyndromeDecides(f, g);
    TwoFlipSyndrome(Flips(f, g), i, j);
  }

  /** Hence always within 4095 bytes, and so within the 512 bytes the decoder accepts. */
  lemma {:induction false} TwoFlipsDetected(f: seq<byte>, g: seq<byte>, i: nat, j: nat)
    requires IsValid(f) && |g| == |f| <= 4095
    requires i < j < 8 * |f| && OnlyAt(Flips(f, g), i, j)
    ensures !IsValid(g)
  {
    var d := j - i;
    assert 0 < d < 32767;
    BelowOrder(d);
    TwoFlips(f, g, i, j);
  }

  lemma {:induction false} BelowOrder(d: nat)
    requires 0 < d < CrcOrder.ORDER
    ensures d % CrcOrder.ORDER != 0
  {
    assert d % 32767 == d;
  }
}
