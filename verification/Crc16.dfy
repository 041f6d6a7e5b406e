/** CRC-16/Modbus: the bit-serial definition, and the table-driven code that computes it. */
module Crc16 {
  import opened Words
  import Register

  const POLY: word := 0xA001
  const INIT: word := 0xFFFF

  /** One shift-and-xor step of the register. */
  function ShiftStep(c: word): (d: word) {
    if c % 2 != 0 then Xor(c / 2, POLY) else c / 2
  }

  function Shift(c: word, n: nat): (d: word)
    decreases n, c
  {
    if n == 0 then c else Shift(ShiftStep(c), n - 1)
  }

  /** The register after the bytes of data: add the byte, then shift eight times
      (MODBUS over Serial Line V1.02, section 2.5.1.2). */
  function Run(c: word, data: seq<byte>): (d: word)
    decreases |data|
  {
    if data == [] then c else Run(Shift(Xor(c, data[0]), 8), data[1..])
  }

  function Checksum(data: seq<byte>): (c: word) {
    Run(INIT, data)
  }

  /** A frame carries its checksum in its last two bytes, low byte first. */
  predicate IsValid(data: seq<byte>) {
    && |data| >= 4
    && Checksum(data[..|data| - 2]) == Join(data[|data| - 2], data[|data| - 1])
  }

  function Append(data: seq<byte>): (frame: seq<byte>) {
    var crc := Checksum(data);
    data + [crc % 0x100, crc / 0x100]
  }

  /** The 256-entry table and the routines that use it. The table is filled in place and
      never written again, so it is kept as the sequence it then holds. */
  class CrcTable {
    const entries: seq<word>

    ghost predicate Valid() {
      && |entries| == 256
      && forall i :: 0 <= i < 256 ==> entries[i] == Shift(i, 8)
    }

    constructor ()
      ensures Valid()
    {
      var table := new word[256];
      for i := 0 to 256
        invariant forall k :: 0 <= k < i ==> table[k] == Shift(k, 8)
      {
        var crc: word := i;
        for j := 0 to 8
          invariant Shift(crc, 8 - j) == Shift(i, 8)
        {
          if crc % 2 != 0 {
            crc := Xor(crc / 2, POLY);
          } else {
            crc := crc / 2;
          }
        }
        table[i] := crc;
      }
      entries := table[..];
    }

    method Crc16Modbus(data: seq<byte>) returns (crc: word)
      requires Valid()
      ensures crc == Checksum(data)
    {
      crc := INIT;
      for i := 0 to |data|
        invariant Run(crc, data[i..]) == Checksum(data)
      {
        var b := data[i];
        TableStep(crc, b);
        assert data[i..][0] == b && data[i..][1..] == data[i + 1..];
        crc := Xor(crc / 0x100, entries[Xor(crc, b) % 0x100]);
      }
    }

    method ValidateCRC16(data: seq<byte>) returns (ok: bool)
      requires Valid()
      ensures ok == IsValid(data)
    {
      if |data| < 4 {
        return false;
      }
      var payloadLen := |data| - 2;
      var calculated := Crc16Modbus(data[..payloadLen]);
      var received := Join(data[payloadLen], data[payloadLen + 1]);
      return calculated == received;
    }

    method AppendCRC16(data: seq<byte>) returns (frame: seq<byte>)
      requires Valid()
      ensures frame == Append(data)
    {
      var crc := Crc16Modbus(data);
      var low, high := crc % 0x100, crc / 0x100;
      frame := data + [low, high];
    }
  }

  // ----- the table step equals eight shift steps

  lemma {:induction false} HalfBits(c: word)
    ensures ToBits(c / 2, 16) == ToBits(c, 16)[1..] + [false]
  {
    Pow2Values();
    HighBits(c, 16);
    assert ToBits(c, 17) == [c % 2 == 1] + ToBits(c / 2, 16);
    assert ToBits(c, 17)[1..] == ToBits(c / 2, 16);
  }

  /** The digit above the top of a number is zero. */
  lemma {:induction false} HighBits(v: nat, n: nat)
    requires v < Pow2(n)
    ensures ToBits(v, n + 1) == ToBits(v, n) + [false]
    decreases n
  {
    if n > 0 {
      HighBits(v / 2, n - 1);
    } else {
      assert ToBits(v, 1) == [v % 2 == 1] + ToBits(v / 2, 0);
    }
  }

  /** A shift step of the word is a tick of the register its digits spell. */
  lemma {:induction false} StepBits(c: word)
    ensures ToBits(ShiftStep(c), 16) == Register.Tick(ToBits(c, 16))
  {
    HalfBits(c);
    PolyBits();
    if c % 2 != 0 {
      XorIsBitwise(c / 2, POLY);
    } else {
      var h := ToBits(c, 16)[1..] + [false];
      assert XorBits(h, Register.ZERO) == h;
    }
  }

  /** The generator's low coefficients, one hexadecimal digit of POLY at a time. */
  lemma {:induction false} PolyTop(n: nat)
    ensures ToBits(0xA, n + 4) == [false, true] + ([false, true] + ToBits(0, n))
  {
    Nibble(0xA, n);
  }

  lemma {:induction false} PolyMiddle(n: nat)
    ensures ToBits(0xA00, n + 12)
         == [false, false] + ([false, false] + ([false, false] + ([false, false] + ToBits(0xA, n + 4))))
  {
    ZeroNibble(0xA, n + 4);
    ZeroNibble(0xA0, n + 8);
  }

  lemma {:induction false} PolyDigits(n: nat)
    ensures ToBits(POLY, n + 16) == [true, false] + ([false, false] + ToBits(0xA00, n + 12))
  {
    FirstDigit(true, 0x5000, n + 15);
    FirstDigit(false, 0x2800, n + 14);
    FirstDigit(false, 0x1400, n + 13);
    FirstDigit(false, 0xA00, n + 12);
  }

  lemma {:induction false} TapsAre()
    ensures Register.TAPS == [true, false] + ([false, false] + ([false, false] + ([false, false]
         + ([false, false] + ([false, false] + ([false, true] + ([false, true] + [])))))))
  {}

  lemma {:induction false} PolyRest(n: nat)
    requires n == 0
    ensures ToBits(0xA00, n + 12) == [false, false] + ([false, false] + ([false, false] + ([false, false]
         + ([false, true] + ([false, true] + [])))))
  {
    PolyMiddle(n);
    PolyTop(n);
    assert ToBits(0, n) == [];
  }

  lemma {:induction false} PolyAll(n: nat)
    requires n == 0
    ensures ToBits(POLY, n + 16) == Register.TAPS
  {
    PolyDigits(n);
    PolyRest(n);
    TapsAre();
  }

  lemma {:induction false} PolyBits()
    ensures ToBits(POLY, 16) == Register.TAPS
  {
    PolyAll(0);
  }

  predicate StepIsTick(v: word, digits: word -> Register.Reg) {
    digits(ShiftStep(v)) == Register.Tick(digits(v))
  }

  /** If every step of the word is a tick of the register that digits makes of it, so are n steps. */
  lemma {:induction false} StepsAreTicks(c: word, n: nat, digits: word -> Register.Reg)
    requires forall v: word :: StepIsTick(v, digits)
    ensures digits(Shift(c, n)) == Register.Ticks(digits(c), n)
    decreases n
  {
    if n > 0 {
      assert StepIsTick(c, digits);
      StepsAreTicks(ShiftStep(c), n - 1, digits);
      Register.FirstTick(digits(c), n - 1);
    }
  }

  /** Shifting the word n times ticks its register n times. */
  lemma {:induction false} ShiftBits(c: word, n: nat)
    ensures ToBits(Shift(c, n), 16) == Register.Ticks(ToBits(c, 16), n)
  {
    var digits: word -> Register.Reg := v => ToBits(v, 16);
    forall v: word
      ensures StepIsTick(v, digits)
    {
      StepBits(v);
    }
    StepsAreTicks(c, n, digits);
  }

  lemma {:induction false} ByteBits(b: byte)
    ensures ToBits(b, 16) == ToBits(b, 8) + Zeros(8)
  {
    Pow2Values();
    SmallBits(b, 8, 8);
  }

  /** The table lookup: the low byte goes through the table, the high byte only moves down. */
  lemma {:induction false} TableStep(crc: word, b: byte)
    ensures Shift(Xor(crc, b), 8) == Xor(crc / 0x100, Shift(Xor(crc, b) % 0x100, 8))
  {
    var y := Xor(crc, b);
    var low, high := ToBits(y % 0x100, 8), ToBits(y / 0x100, 8);
    SplitWord(y);
    ByteBits(y % 0x100);
    assert ToBits(y, 16) == XorBits(low + Zeros(8), Zeros(8) + high);
    ShiftBits(y, 8);
    Register.TicksLinear(low + Zeros(8), Zeros(8) + high, 8);
    Register.TicksMoveUp(high, 8);
    ShiftBits(y % 0x100, 8);
    HighByte(crc, b);
    ByteBits(crc / 0x100);
    var t := Shift(y % 0x100, 8);
    XorIsBitwise(crc / 0x100, t);
    assert XorBits(ToBits(t, 16), high + Zeros(8)) == XorBits(high + Zeros(8), ToBits(t, 16));
    BitsInjective(Shift(y, 8), Xor(crc / 0x100, t));
  }

  lemma {:induction false} SplitWord(y: word)
    ensures ToBits(y, 16) == ToBits(y % 0x100, 8) + ToBits(y / 0x100, 8)
  {
    BitsSplit(y, 8, 8);
    ByteShift(y);
  }

  lemma {:induction false} XorLowHalf(low: seq<bool>, high: seq<bool>, b: seq<bool>)
    requires |low| == |high| == |b| == 8
    ensures XorBits(low + high, b + Zeros(8))[8..] == high
    ensures XorBits(low + high, b + Zeros(8))[..8] == XorBits(low, b)
  {}

  /** Adding a byte leaves the high byte of the register alone. */
  lemma {:induction false} HighByte(crc: word, b: byte)
    ensures ToBits(Xor(crc, b) / 0x100, 8) == ToBits(crc / 0x100, 8)
  {
    var y := Xor(crc, b);
    XorIsBitwise(crc, b);
    SplitWord(y);
    SplitWord(crc);
    ByteBits(b);
    XorLowHalf(ToBits(crc % 0x100, 8), ToBits(crc / 0x100, 8), ToBits(b, 8));
  }
}
