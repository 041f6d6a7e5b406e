/** The CRC register as a polynomial over GF(2).

    A register holds 16 coefficients, index 0 being the coefficient of x^15. One clock
    tick multiplies by x modulo the generator x^16 + x^15 + x^2 + 1; feeding a message
    bit first adds it to the coefficient of x^15. */
module Register {
  import opened Words

  type Reg = r: seq<bool> | |r| == 16 witness Zeros(16)

  /** x^16 modulo the generator: x^15 + x^2 + 1. */
  const TAPS: seq<bool> :=
    [true, false, false, false, false, false, false, false,
     false, false, false, false, false, true, false, true]

  const ZERO: Reg := Zeros(16)

  function Tick(r: Reg): (s: Reg) {
    XorBits(r[1..] + [false], if r[0] then TAPS else ZERO)
  }

  function Ticks(r: Reg, n: nat): (s: Reg)
    decreases n, r
  {
    if n == 0 then r else Ticks(Tick(r), n - 1)
  }

  function AddBit(r: Reg, b: bool): (s: Reg) {
    r[0 := r[0] != b]
  }

  function Feed(r: Reg, bits: seq<bool>): (s: Reg)
    decreases |bits|
  {
    if bits == [] then r else Feed(Tick(AddBit(r, bits[0])), bits[1..])
  }

  // ----- linearity

  lemma {:induction false} FirstTick(r: Reg, n: nat)
    ensures Ticks(r, n + 1) == Ticks(Tick(r), n)
  {}

  lemma {:induction false} TickLinear(a: Reg, b: Reg)
    ensures Tick(XorBits(a, b)) == XorBits(Tick(a), Tick(b))
  {}

  lemma {:induction false} TicksLinear(a: Reg, b: Reg, n: nat)
    ensures Ticks(XorBits(a, b), n) == XorBits(Ticks(a, n), Ticks(b, n))
    decreases n
  {
    if n > 0 {
      TickLinear(a, b);
      TicksLinear(Tick(a), Tick(b), n - 1);
    }
  }

  /** Feeding the sum of two messages into the sum of two registers gives the sum. */
  lemma {:induction false} FeedLinear(a: Reg, b: Reg, u: seq<bool>, v: seq<bool>)
    requires |u| == |v|
    ensures Feed(XorBits(a, b), XorBits(u, v)) == XorBits(Feed(a, u), Feed(b, v))
    decreases |u|
  {
    if u != [] {
      assert XorBits(u, v)[1..] == XorBits(u[1..], v[1..]);
      assert AddBit(XorBits(a, b), XorBits(u, v)[0]) == XorBits(AddBit(a, u[0]), AddBit(b, v[0]));
      TickLinear(AddBit(a, u[0]), AddBit(b, v[0]));
      FeedLinear(Tick(AddBit(a, u[0])), Tick(AddBit(b, v[0])), u[1..], v[1..]);
    }
  }

  lemma {:induction false} FeedConcat(r: Reg, u: seq<bool>, v: seq<bool>)
    ensures Feed(r, u + v) == Feed(Feed(r, u), v)
    decreases |u|
  {
    if u == [] {
      assert u + v == v;
    } else {
      assert (u + v)[1..] == u[1..] + v;
      FeedConcat(Tick(AddBit(r, u[0])), u[1..], v);
    }
  }

  lemma {:induction false} TicksAdd(r: Reg, m: nat, n: nat)
    ensures Ticks(r, m + n) == Ticks(Ticks(r, m), n)
    decreases m
  {
    if m > 0 {
      TicksAdd(Tick(r), m - 1, n);
    }
  }

  // ----- the step is a bijection

  lemma {:induction false} TickZero()
    ensures Tick(ZERO) == ZERO
  {}

  lemma {:induction false} TickInjective(r: Reg)
    requires Tick(r) == ZERO
    ensures r == ZERO
  {
    var s := Tick(r);
    assert s[15] == r[0];
    assert forall i :: 0 <= i < 15 ==> s[i] == r[i + 1];
    assert forall i :: 1 <= i < 16 ==> !r[i] by {
      forall i | 1 <= i < 16 ensures !r[i] { assert s[i - 1] == r[i]; }
    }
  }

  lemma {:induction false} TicksZero(n: nat)
    ensures Ticks(ZERO, n) == ZERO
  {
    if n > 0 {
      TickZero();
      TicksZero(n - 1);
    }
  }

  lemma {:induction false} TicksInjective(r: Reg, n: nat)
    requires Ticks(r, n) == ZERO
    ensures r == ZERO
    decreases n
  {
    if n > 0 {
      TicksInjective(Tick(r), n - 1);
      TickInjective(r);
    }
  }

  /** Two registers that agree after n ticks agreed before them. */
  lemma {:induction false} TicksCancel(a: Reg, b: Reg, n: nat)
    requires Ticks(a, n) == Ticks(b, n)
    ensures a == b
  {
    TicksLinear(a, b, n);
    assert Ticks(XorBits(a, b), n) == ZERO;
    TicksInjective(XorBits(a, b), n);
    forall i | 0 <= i < 16
      ensures a[i] == b[i]
    {
      assert !XorBits(a, b)[i];
    }
  }

  lemma {:induction false} FeedZeros(r: Reg, n: nat)
    ensures Feed(r, Zeros(n)) == Ticks(r, n)
    decreases n
  {
    if n > 0 {
      assert Zeros(n)[1..] == Zeros(n - 1);
      assert AddBit(r, false) == r;
      FeedZeros(Tick(r), n - 1);
    }
  }

  /** A zero prefix leaves a zero register alone; a zero suffix never clears a register. */
  lemma {:induction false} FeedPadded(k: nat, e: seq<bool>, m: nat)
    ensures Feed(ZERO, Zeros(k) + e + Zeros(m)) == Ticks(Feed(ZERO, e), m)
    ensures Feed(ZERO, Zeros(k) + e + Zeros(m)) == ZERO <==> Feed(ZERO, e) == ZERO
  {
    FeedConcat(ZERO, Zeros(k) + e, Zeros(m));
    FeedConcat(ZERO, Zeros(k), e);
    FeedZeros(ZERO, k);
    TicksZero(k);
    FeedZeros(Feed(ZERO, e), m);
    TicksZero(m);
    if Ticks(Feed(ZERO, e), m) == ZERO {
      TicksInjective(Feed(ZERO, e), m);
    }
  }

  // ----- short patterns

  lemma {:induction false} TickUp(r: Reg)
    requires !r[0]
    ensures Tick(r) == r[1..] + [false]
  {}

  /** A register whose first k coefficients are zero only moves up. */
  lemma {:induction false} TicksMoveUp(s: seq<bool>, k: nat)
    requires |s| + k == 16
    ensures Ticks(Zeros(k) + s, k) == s + Zeros(k)
    decreases k
  {
    if k == 0 {
      assert Zeros(0) + s == s + Zeros(0);
    } else {
      var r: Reg := Zeros(k) + s;
      TickUp(r);
      DropZero(s, k);
      FirstTick(r, k - 1);
      TicksMoveUp(s + [false], k - 1);
      PassZero(s, k);
    }
  }

  lemma {:induction false} DropZero(s: seq<bool>, k: nat)
    requires k > 0
    ensures (Zeros(k) + s)[1..] + [false] == Zeros(k - 1) + (s + [false])
  {}

  lemma {:induction false} PassZero(s: seq<bool>, k: nat)
    requires k > 0
    ensures (s + [false]) + Zeros(k - 1) == s + Zeros(k)
  {}

  lemma {:induction false} TickOnto(s: Reg, w: Reg)
    requires !w[15]
    ensures Tick(s) == w <==> s == [false] + w[..15]
  {
    var t := Tick(s);
    var v := [false] + w[..15];
    assert s[0] == t[15];
    if t == w {
      assert forall i :: 0 <= i < 15 ==> t[i] == s[i + 1];
      forall i | 0 <= i < 16 ensures s[i] == v[i] {
        if i > 0 {
          assert t[i - 1] == s[i];
        }
      }
    }
  }

  lemma {:induction false} SameBehindHead(r: Reg, w: Reg, b: bool)
    requires w[0] == b
    ensures AddBit(r, b) == w[0 := false] <==> r == w
  {
    var a, z := AddBit(r, b), w[0 := false];
    if a == z {
      assert a[0] == z[0];
      forall i | 0 <= i < 16
        ensures r[i] == w[i]
      {
        assert a[i] == z[i];
      }
    }
  }

  lemma {:induction false} CancelHead(r: Reg, p: seq<bool>)
    requires 0 < |p| <= 16
    ensures AddBit(r, p[0]) == [false] + (p[1..] + Zeros(17 - |p|))[..15] <==> r == p + Zeros(16 - |p|)
  {
    var want := p + Zeros(16 - |p|);
    assert [false] + (p[1..] + Zeros(17 - |p|))[..15] == want[0 := false];
    SameBehindHead(r, want, p[0]);
  }

  /** One step of cancelling: what the tick leaves is spelt out by the rest exactly when the register was
      spelt out by the whole. */
  lemma {:induction false} CancelStep(r: Reg, p: seq<bool>)
    requires 0 < |p| <= 16
    ensures Tick(AddBit(r, p[0])) == p[1..] + Zeros(16 - |p[1..]|) <==> r == p + Zeros(16 - |p|)
  {
    var w := p[1..] + Zeros(17 - |p|);
    assert p[1..] + Zeros(16 - |p[1..]|) == w;
    TickOnto(AddBit(r, p[0]), w);
    CancelHead(r, p);
  }

  /** Up to 16 bits cancel a register exactly when they spell it out. */
  lemma {:induction false} FeedCancels(r: Reg, p: seq<bool>)
    requires |p| <= 16
    ensures Feed(r, p) == ZERO <==> r == p + Zeros(16 - |p|)
    decreases |p|
  {
    if p == [] {
      assert p + Zeros(16) == ZERO;
    } else {
      FeedCancels(Tick(AddBit(r, p[0])), p[1..]);
      CancelStep(r, p);
    }
  }

  // ----- parity

  function Parity(s: seq<bool>): (b: bool) {
    s != [] && (s[0] != Parity(s[1..]))
  }

  lemma {:induction false} ParityXor(a: seq<bool>, b: seq<bool>)
    requires |a| == |b|
    ensures Parity(XorBits(a, b)) == (Parity(a) != Parity(b))
  {
    if a != [] {
      assert XorBits(a, b)[1..] == XorBits(a[1..], b[1..]);
      ParityXor(a[1..], b[1..]);
    }
  }

  lemma {:induction false} ParityAppend(s: seq<bool>, b: bool)
    ensures Parity(s + [b]) == (Parity(s) != b)
  {
    if s == [] {
      assert (s + [b])[1..] == [];
    } else {
      assert (s + [b])[1..] == s[1..] + [b];
      ParityAppend(s[1..], b);
    }
  }

  lemma {:induction false} ParityZeros(n: nat)
    ensures !Parity(Zeros(n))
  {
    if n > 0 {
      assert Zeros(n)[1..] == Zeros(n - 1);
      ParityZeros(n - 1);
    }
  }

  lemma {:induction false} TapsAt()
    ensures forall i :: 0 <= i < 16 ==> TAPS[i] == (i == 0 || i == 13 || i == 15)
  {
    var t := TAPS;
    assert t[0] && !t[1] && !t[2] && !t[3] && !t[4] && !t[5] && !t[6] && !t[7];
    assert !t[8] && !t[9] && !t[10] && !t[11] && !t[12] && t[13] && !t[14] && t[15];
  }

  lemma {:induction false} TapsParity()
    ensures Parity(TAPS)
  {
    var s := [true] + Zeros(12) + [true] + [false] + [true];
    TapsAt();
    assert TAPS == s;
    ParityAppend([true] + Zeros(12) + [true] + [false], true);
    ParityAppend([true] + Zeros(12) + [true], false);
    ParityAppend([true] + Zeros(12), true);
    assert ([true] + Zeros(12))[1..] == Zeros(12);
    ParityZeros(12);
  }

  /** The generator has x + 1 as a factor, so a tick keeps the parity. */
  lemma {:induction false} TickParity(r: Reg)
    ensures Parity(Tick(r)) == Parity(r)
  {
    ParityAppend(r[1..], false);
    ParityXor(r[1..] + [false], if r[0] then TAPS else ZERO);
    TapsParity();
    ParityZeros(16);
  }

  lemma {:induction false} FeedParity(r: Reg, bits: seq<bool>)
    ensures Parity(Feed(r, bits)) == (Parity(r) != Parity(bits))
    decreases |bits|
  {
    if bits != [] {
      var s := AddBit(r, bits[0]);
      assert s[1..] == r[1..];
      TickParity(s);
      FeedParity(Tick(s), bits[1..]);
    }
  }
}
