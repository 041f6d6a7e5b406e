/** The binary form of a hydrodynamics frame. */
module FrameOutput {
  import opened Words
  import opened ByteOrder
  import opened Wrappers
  import Protocol

  const SIZE: nat := 138

  type long = n: nat | n < 0x1_0000_0000_0000_0000

  /** A solved frame. The fifteen physical quantities are their IEEE 754 bit patterns, in the
      order they are written; the timestamp is signed nanoseconds since 1970. */
  datatype Frame = Frame(slave: byte, sensorType: byte, quantities: seq<long>, timestamp: int,
                         highSpeedTime: long, iterations: int, converged: bool)

  /** What the record's types allow. */
  predicate WellFormed(f: Frame) {
    && |f.quantities| == 15
    && -0x8000_0000_0000_0000 <= f.timestamp < 0x8000_0000_0000_0000
  }

  function Flag(b: bool): (v: byte) {
    if b then 1 else 0
  }

  /** Each quantity as eight bytes, low byte first. */
  function Quantities(q: seq<long>): (s: seq<byte>)
    ensures |s| == 8 * |q|
  {
    if q == [] then [] else Quantities(q[..|q| - 1]) + Little(q[|q| - 1], 8)
  }

  /** Two's complement. */
  function Unsigned(t: int): (v: nat) {
    t % 0x1_0000_0000_0000_0000
  }

  function Tail(f: Frame): (s: seq<byte>)
    ensures |s| == 16
  {
    Little(Unsigned(f.timestamp), 8) + Big(f.highSpeedTime, 6) + [f.iterations % 0x100, Flag(f.converged)]
  }

  function Image(f: Frame): (s: seq<byte>)
    requires |f.quantities| == 15
    ensures |s| == SIZE
  {
    [f.slave, f.sensorType] + Quantities(f.quantities) + Tail(f)
  }

  // ----- the writer

  lemma {:induction false} LittleMore(v: nat, n: nat)
    ensures Little(v, n + 1) == Little(v, n) + [v / Pow256(n) % 0x100]
    decreases n, v
  {
    if n == 0 {
      assert Little(v, 1) == [v % 0x100] + Little(v / 0x100, 0);
    } else {
      LittleMore(v / 0x100, n - 1);
      DivDiv(v, Pow256(n - 1));
      assert v / 0x100 / Pow256(n - 1) == v / Pow256(n);
    }
  }

  lemma {:induction false} DivDiv(v: nat, p: nat)
    requires p > 0
    ensures v / 0x100 / p == v / (0x100 * p)
  {
    var q, r := v / 0x100 / p, v / 0x100 % p;
    assert v / 0x100 == q * p + r;
    assert v == 0x100 * (v / 0x100) + v % 0x100;
    assert v == q * (0x100 * p) + (0x100 * r + v % 0x100) by {
      assert 0x100 * (q * p) == q * (0x100 * p);
    }
    Quotient(v, 0x100 * p, q, 0x100 * r + v % 0x100);
  }

  lemma {:induction false} Quotient(v: nat, m: nat, k: nat, r: nat)
    requires v == k * m + r && r < m
    ensures v / m == k
  {
    Remainder(v, m, k, r);
    Multiples(v / m - k, m);
    assert (v / m - k) * m == v / m * m - k * m;
  }

  lemma {:induction false} PowAdd(m: nat, n: nat)
    ensures Pow256(m + n) == Pow256(m) * Pow256(n)
    decreases m
  {
    if m > 0 {
      PowAdd(m - 1, n);
      Assoc(0x100, Pow256(m - 1), Pow256(n));
      assert Pow256(m + n) == 0x100 * Pow256(m + n - 1);
    }
  }

  lemma {:induction false} Assoc(a: nat, b: nat, c: nat)
    ensures (a * b) * c == a * (b * c)
  {}

  /** Adding a multiple of the divisor to the dividend adds to the quotient. */
  lemma {:induction false} DivShift(v: int, m: nat, k: nat)
    requires m > 0 && v + k * m >= 0
    ensures (v + k * m) / m == v / m + k
  {
    var r := v % m;
    assert v == v / m * m + r;
    assert v + k * m == (v / m + k) * m + r by {
      assert (v / m + k) * m == v / m * m + k * m;
    }
    Multiples(v / m + k, m);
    assert v / m + k >= 0;
    Quotient(v + k * m, m, v / m + k, r);
  }

  lemma {:induction false} ByteOfSum(t: int, p: nat, q: nat)
    requires p > 0 && t + (0x100 * q) * p >= 0
    ensures (t + (0x100 * q) * p) / p % 0x100 == t / p % 0x100
  {
    DivShift(t, p, 0x100 * q);
    assert (t / p + 0x100 * q) % 0x100 == t / p % 0x100;
  }

  lemma {:induction false} EightBytes(i: nat)
    requires i < 8
    ensures (0x100 * Pow256(7 - i)) * Pow256(i) == 0x1_0000_0000_0000_0000
  {
    Pow256Values();
    PowAdd(8 - i, i);
    assert Pow256(8 - i) == 0x100 * Pow256(7 - i);
  }

  /** A byte of a signed number, shifted arithmetically, is that byte of its two's complement. */
  lemma {:induction false} SignedByte(t: int, i: nat)
    requires -0x8000_0000_0000_0000 <= t < 0x8000_0000_0000_0000 && i < 8
    ensures t / Pow256(i) % 0x100 == Unsigned(t) / Pow256(i) % 0x100
  {
    if t < 0 {
      EightBytes(i);
      ByteOfSum(t, Pow256(i), Pow256(7 - i));
    }
  }

  lemma {:induction false} LastThree(h: nat, n: nat)
    ensures Big(h, n + 3) == Big(h / 0x100_0000, n) + [h / 0x1_0000 % 0x100, h / 0x100 % 0x100, h % 0x100]
  {
    var h1 := h / 0x100;
    var h2 := h1 / 0x100;
    assert h2 == h / 0x1_0000 && h2 / 0x100 == h / 0x100_0000;
    assert Big(h2, n + 1) == Big(h2 / 0x100, n) + [h2 % 0x100];
    assert Big(h1, n + 2) == Big(h2, n + 1) + [h1 % 0x100];
    assert Big(h, n + 3) == Big(h1, n + 2) + [h % 0x100];
  }

  lemma {:induction false} SixBytes(h: long)
    ensures Big(h, 6) == [h / 0x100_0000_0000 % 0x100, h / 0x1_0000_0000 % 0x100, h / 0x100_0000 % 0x100,
                          h / 0x1_0000 % 0x100, h / 0x100 % 0x100, h % 0x100]
  {
    var top := h / 0x100_0000;
    LastThree(h, 3);
    LastThree(top, 0);
    assert top / 0x1_0000 == h / 0x100_0000_0000 && top / 0x100 == h / 0x1_0000_0000;
  }

  method SerializeBinary(f: Frame) returns (buf: seq<byte>)
    requires WellFormed(f)
    ensures buf == Image(f)
  {
    buf := [f.slave, f.sensorType];
    for i := 0 to |f.quantities|
      invariant buf == [f.slave, f.sensorType] + Quantities(f.quantities[..i])
    {
      var b := Little(f.quantities[i], 8);
      buf := buf + b;
      assert f.quantities[..i + 1][..i] == f.quantities[..i];
    }
    assert f.quantities[..|f.quantities|] == f.quantities;
    var tail := SerializeTail(f);
    buf := buf + tail;
  }

  method SerializeTail(f: Frame) returns (buf: seq<byte>)
    requires WellFormed(f)
    ensures buf == Tail(f)
  {
    buf := [];
    var ts, power := f.timestamp, 1;
    for i := 0 to 8
      invariant power == Pow256(i)
      invariant buf == Little(Unsigned(ts), i)
    {
      SignedByte(ts, i);
      LittleMore(Unsigned(ts), i);
      buf := buf + [ts / power % 0x100];
      power := 0x100 * power;
    }
    var h := f.highSpeedTime;
    SixBytes(h);
    buf := buf + [h / 0x100_0000_0000 % 0x100, h / 0x1_0000_0000 % 0x100, h / 0x100_0000 % 0x100,
                  h / 0x1_0000 % 0x100, h / 0x100 % 0x100, h % 0x100];
    buf := buf + [f.iterations % 0x100];
    if f.converged {
      buf := buf + [1];
    } else {
      buf := buf + [0];
    }
  }

  // ----- the reader

  function ParseQuantities(s: seq<byte>): (q: seq<long>)
    requires |s| % 8 == 0
    ensures 8 * |q| == |s|
  {
    if s == [] then []
    else
      Pow256Values();
      ParseQuantities(s[..|s| - 8]) + [FromLittle(s[|s| - 8..])]
  }

  function Signed(v: long): (t: int) {
    if v < 0x8000_0000_0000_0000 then v else v - 0x1_0000_0000_0000_0000
  }

  function Parse(s: seq<byte>): (f: Frame)
    requires |s| == SIZE
  {
    Pow256Values();
    Frame(s[0], s[1], ParseQuantities(s[2..122]), Signed(FromLittle(s[122..130])),
          FromBig(s[130..136]), s[136], s[137] == 1)
  }

  /** What the bytes keep of a frame: the counter's low 48 bits and the iterations' low 8. */
  function Visible(f: Frame): (g: Frame) {
    f.(highSpeedTime := f.highSpeedTime % 0x1_0000_0000_0000, iterations := f.iterations % 0x100)
  }

  lemma {:induction false} LongInverse(v: long)
    ensures FromLittle(Little(v, 8)) == v
  {
    Pow256Values();
    FromLittleInverse(v, 8);
  }

  lemma {:induction false} QuantitiesInverse(q: seq<long>)
    ensures ParseQuantities(Quantities(q)) == q
  {
    if q != [] {
      var front, v := q[..|q| - 1], q[|q| - 1];
      QuantitiesInverse(front);
      var s := Quantities(q);
      assert s[..|s| - 8] == Quantities(front) && s[|s| - 8..] == Little(v, 8);
      LongInverse(v);
    }
  }

  lemma {:induction false} ImageSlices(f: Frame)
    requires |f.quantities| == 15
    ensures Image(f)[0] == f.slave && Image(f)[1] == f.sensorType
    ensures Image(f)[2..122] == Quantities(f.quantities) && Image(f)[122..138] == Tail(f)
  {
  }

  lemma {:induction false} TailSlices(f: Frame)
    ensures Tail(f)[0..8] == Little(Unsigned(f.timestamp), 8)
    ensures Tail(f)[8..14] == Big(f.highSpeedTime, 6)
    ensures Tail(f)[14] == f.iterations % 0x100 && Tail(f)[15] == Flag(f.converged)
  {
  }

  lemma {:induction false} TailOffsets(s: seq<byte>, t: seq<byte>)
    requires |s| == SIZE && s[122..138] == t
    ensures s[122..130] == t[0..8] && s[130..136] == t[8..14] && s[136] == t[14] && s[137] == t[15]
  {
    assert s[136] == s[122..138][14] && s[137] == s[122..138][15];
  }

  lemma {:induction false} CounterInverse(h: long)
    ensures FromBig(Big(h, 6)) == h % 0x1_0000_0000_0000
  {
    Pow256Values();
    FromBigInverse(h, 6);
  }

  /** Reading back what was written gives the frame up to those two remainders. */
  lemma {:induction false} ParseImage(f: Frame)
    requires WellFormed(f)
    ensures Parse(Image(f)) == Visible(f)
  {
    var s := Image(f);
    ImageSlices(f);
    TailSlices(f);
    TailOffsets(s, Tail(f));
    QuantitiesInverse(f.quantities);
    LongInverse(Unsigned(f.timestamp));
    CounterInverse(f.highSpeedTime);
  }

  /** Two frames are written alike exactly when they agree up to those remainders. */
  lemma {:induction false} SameBytesIff(f: Frame, g: Frame)
    requires WellFormed(f) && WellFormed(g)
    ensures Image(f) == Image(g) <==> Visible(f) == Visible(g)
  {
    ParseImage(f);
    ParseImage(g);
    if Visible(f) == Visible(g) {
      SameCounter(f.highSpeedTime);
      SameCounter(g.highSpeedTime);
    }
  }

  lemma {:induction false} SameCounter(h: long)
    ensures Big(h % 0x1_0000_0000_0000, 6) == Big(h, 6)
  {
    CounterInverse(h);
    CounterInverse(h % 0x1_0000_0000_0000);
    BigInverse(Big(h, 6));
    BigInverse(Big(h % 0x1_0000_0000_0000, 6));
  }

  lemma {:induction false} QuantitiesAt(q: seq<long>, i: nat)
    requires i < |q|
    ensures Quantities(q)[8 * i..8 * i + 8] == Little(q[i], 8)
  {
    var front := q[..|q| - 1];
    if i < |front| {
      QuantitiesAt(front, i);
      assert Quantities(q)[8 * i..8 * i + 8] == Quantities(front)[8 * i..8 * i + 8];
    }
  }

  /** An image is 138 bytes, and quantity i is found low byte first at offset 2 + 8 i of it. */
  lemma {:induction false} QuantityAt(f: Frame, i: nat)
    requires WellFormed(f) && i < 15
    ensures |Image(f)| == 138 && FromLittle(Image(f)[2 + 8 * i..10 + 8 * i]) == f.quantities[i]
  {
    ImageSlices(f);
    QuantitiesAt(f.quantities, i);
    assert Image(f)[2 + 8 * i..10 + 8 * i] == Image(f)[2..122][8 * i..8 * i + 8];
    LongInverse(f.quantities[i]);
  }

  /** What stands before and after the quantities: the two identifying bytes, the timestamp modulo 2^64 low
      byte first, the low byte of the iterations, and the flag. */
  lemma {:induction false} FixedBytes(f: Frame)
    requires WellFormed(f)
    ensures |Image(f)| == 138 && Image(f)[0] == f.slave && Image(f)[1] == f.sensorType
    ensures FromLittle(Image(f)[122..130]) == f.timestamp % 0x1_0000_0000_0000_0000
    ensures Image(f)[136] == f.iterations % 0x100 && Image(f)[137] == if f.converged then 1 else 0
  {
    ImageSlices(f);
    TailSlices(f);
    TailOffsets(Image(f), Tail(f));
    LongInverse(Unsigned(f.timestamp));
  }

  // ----- streams

  ghost predicate AllWellFormed(frames: seq<Frame>) {
    forall i :: 0 <= i < |frames| ==> WellFormed(frames[i])
  }

  function Stream(frames: seq<Frame>): (s: seq<byte>)
    requires AllWellFormed(frames)
    ensures |s| == SIZE * |frames|
  {
    if frames == [] then []
    else
      assert WellFormed(frames[0]);
      Image(frames[0]) + Stream(frames[1..])
  }

  function ParseStream(s: seq<byte>): (frames: seq<Frame>) {
    if |s| < SIZE then [] else [Parse(s[..SIZE])] + ParseStream(s[SIZE..])
  }

  function VisibleAll(frames: seq<Frame>): (g: seq<Frame>) {
    if frames == [] then [] else [Visible(frames[0])] + VisibleAll(frames[1..])
  }

  /** A stream of frames splits in one way: every cut after 138 bytes is a frame boundary. */
  lemma {:induction false} StreamSplits(frames: seq<Frame>)
    requires AllWellFormed(frames)
    ensures ParseStream(Stream(frames)) == VisibleAll(frames)
  {
    if frames != [] {
      var s := Stream(frames);
      assert s[..SIZE] == Image(frames[0]) && s[SIZE..] == Stream(frames[1..]);
      ParseImage(frames[0]);
      StreamSplits(frames[1..]);
    }
  }

  /** The sensor's 48-bit counter leaves in the very bytes it came in. */
  lemma {:induction false} CounterSurvives(frame: Protocol.Frame, d: Protocol.SensorData, f: Frame)
    requires Protocol.Extract(Some(frame)) == Ok(d)
    requires WellFormed(f) && f.highSpeedTime == d.highSpeedTime
    ensures Image(f)[130..136] == frame.data[8..14]
  {
    var b := frame.data[8..14];
    Protocol.Uint48IsBig(b);
    BigInverse(b);
    ImageSlices(f);
    TailSlices(f);
    assert Image(f)[130..136] == Image(f)[122..138][8..14];
  }
}
