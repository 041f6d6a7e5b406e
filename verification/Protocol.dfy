/** Decoding read responses and the sensor record they carry. */
module Protocol {
  import opened Words
  import opened ByteOrder
  import opened Wrappers
  import opened Crc16
  import CrcTheory

  const MAX_ALLOWED: nat := 512
  const MIN_LENGTH: nat := 5

  datatype DecodeError = FrameTooShort | FrameTooLong | CrcInvalid | InvalidFrame | InsufficientData

  datatype Frame = Frame(slave: byte, functionCode: byte, data: seq<byte>, crc: word, isValid: bool, rawLength: nat)

  /** Both results of a decode: a frame with a bad checksum comes back along with the error. */
  datatype Outcome = Outcome(frame: Option<Frame>, error: Option<DecodeError>)

  datatype SensorType = VortexFlowmeter | CapacitanceProdMeter

  datatype SensorData = SensorData(slave: byte, pressure: real, temperature: real, highSpeedTime: nat,
                                   sensorType: SensorType, rawBytes: seq<byte>)

  // ----- one frame

  /** The payload is taken only when the byte count is positive and the frame has room for it. */
  function Payload(raw: seq<byte>): (data: seq<byte>)
    requires |raw| >= MIN_LENGTH
  {
    var n: nat := raw[2];
    if n > 0 && |raw| >= n + 5 then raw[3..3 + n] else []
  }

  function FrameOf(raw: seq<byte>, valid: bool): (f: Frame)
    requires |raw| >= MIN_LENGTH
  {
    Frame(raw[0], raw[1], Payload(raw), Join(raw[|raw| - 2], raw[|raw| - 1]), valid, |raw|)
  }

  function Verdict(valid: bool): (error: Option<DecodeError>) {
    if valid then None else Some(CrcInvalid)
  }

  function Decode(raw: seq<byte>): (o: Outcome) {
    if |raw| == 0 then Outcome(None, Some(FrameTooShort))
    else if |raw| > MAX_ALLOWED then Outcome(None, Some(FrameTooLong))
    else if |raw| < MIN_LENGTH then Outcome(None, Some(FrameTooShort))
    else Outcome(Some(FrameOf(raw, IsValid(raw))), Verdict(IsValid(raw)))
  }

  function Uint32(b: seq<byte>): (v: nat) {
    if |b| < 4 then 0
    else 0x100_0000 * b[0] as nat + 0x1_0000 * b[1] as nat + 0x100 * b[2] as nat + b[3]
  }

  function Uint48(b: seq<byte>): (v: nat) {
    if |b| < 6 then 0
    else
      0x100_0000_0000 * b[0] as nat + 0x1_0000_0000 * b[1] as nat + 0x100_0000 * b[2] as nat
      + 0x1_0000 * b[3] as nat + 0x100 * b[4] as nat + b[5]
  }

  function ToPressure(raw: nat): (p: real) {
    raw as real * 0.001
  }

  function ToTemperature(raw: nat): (t: real) {
    raw as real * 0.01 - 273.15
  }

  function SensorTypeOf(b: byte): (t: SensorType) {
    if b == 2 then CapacitanceProdMeter else VortexFlowmeter
  }

  /** The clock reading stored with the record is left out. */
  function Extract(frame: Option<Frame>): (r: Result<SensorData, DecodeError>) {
    match frame
    case None => Err(InvalidFrame)
    case Some(f) =>
      if !f.isValid then Err(InvalidFrame)
      else if |f.data| < 16 then Err(InsufficientData)
      else Ok(SensorData(f.slave, ToPressure(Uint32(f.data[0..4])), ToTemperature(Uint32(f.data[4..8])),
                         Uint48(f.data[8..14]), SensorTypeOf(f.data[14]), f.data))
  }

  // ----- counters

  datatype Counters = Counters(total: nat, invalid: nat, noise: nat, truncated: nat, oversized: nat)

  const ZEROS: Counters := Counters(0, 0, 0, 0, 0)

  /** The byte count promises more than the frame holds. */
  predicate Short(raw: seq<byte>)
    requires |raw| >= MIN_LENGTH
  {
    var n: nat := raw[2];
    n > 0 && |raw| < n + 5
  }

  function CountBody(c: Counters, raw: seq<byte>, valid: bool): (d: Counters)
    requires |raw| >= MIN_LENGTH
  {
    var bad := if valid then 0 else 1;
    Counters(c.total + 1, c.invalid + bad, c.noise + bad, c.truncated + (if Short(raw) then 1 else 0), c.oversized)
  }

  function Count(c: Counters, raw: seq<byte>): (d: Counters) {
    if |raw| == 0 then c.(invalid := c.invalid + 1)
    else if |raw| > MAX_ALLOWED then c.(oversized := c.oversized + 1, invalid := c.invalid + 1)
    else if |raw| < MIN_LENGTH then c.(truncated := c.truncated + 1, invalid := c.invalid + 1)
    else CountBody(c, raw, IsValid(raw))
  }

  class BitDecoder {
    var noiseFiltered: nat
    var totalFrames: nat
    var invalidFrames: nat
    var truncatedFrames: nat
    var oversizedFrames: nat

    ghost function View(): (c: Counters)
      reads this
    {
      Counters(totalFrames, invalidFrames, noiseFiltered, truncatedFrames, oversizedFrames)
    }

    constructor ()
      ensures View() == ZEROS
    {
      noiseFiltered, totalFrames, invalidFrames, truncatedFrames, oversizedFrames := 0, 0, 0, 0, 0;
    }

    method DecodeModbusRTU(data: seq<byte>, table: CrcTable) returns (frame: Option<Frame>, error: Option<DecodeError>)
      requires table.Valid()
      modifies this
      ensures Outcome(frame, error) == Decode(data)
      ensures View() == Count(old(View()), data)
    {
      if |data| == 0 {
        invalidFrames := invalidFrames + 1;
        frame, error := None, Some(FrameTooShort);
      } else if |data| > MAX_ALLOWED {
        oversizedFrames := oversizedFrames + 1;
        invalidFrames := invalidFrames + 1;
        frame, error := None, Some(FrameTooLong);
      } else if |data| < MIN_LENGTH {
        truncatedFrames := truncatedFrames + 1;
        invalidFrames := invalidFrames + 1;
        frame, error := None, Some(FrameTooShort);
      } else {
        var valid := table.ValidateCRC16(data);
        frame, error := Judge(data, valid);
      }
    }

    /** The payload, counting a frame cut short of it. */
    method TakePayload(data: seq<byte>) returns (payload: seq<byte>)
      requires |data| >= MIN_LENGTH
      modifies this`truncatedFrames
      ensures payload == Payload(data)
      ensures truncatedFrames == old(truncatedFrames) + if Short(data) then 1 else 0
    {
      payload := [];
      var byteCount: nat := data[2];
      if byteCount > 0 && |data| >= byteCount + 5 {
        payload := data[3..3 + byteCount];
      } else if byteCount > 0 {
        truncatedFrames := truncatedFrames + 1;
      }
    }

    /** Record what the checksum says about a frame of acceptable length. */
    method Judge(data: seq<byte>, valid: bool) returns (frame: Option<Frame>, error: Option<DecodeError>)
      requires |data| >= MIN_LENGTH
      modifies this
      ensures frame == Some(FrameOf(data, valid)) && error == Verdict(valid)
      ensures View() == CountBody(old(View()), data, valid)
    {
      totalFrames := totalFrames + 1;
      var payload := TakePayload(data);
      var offset := |data| - 2;
      frame := Some(Frame(data[0], data[1], payload, Join(data[offset], data[offset + 1]), valid, |data|));
      error := None;
      if !valid {
        invalidFrames := invalidFrames + 1;
        noiseFiltered := noiseFiltered + 1;
        error := Some(CrcInvalid);
      }
    }
  }

  /** The counters after a run of decodes. */
  function CountAll(c: Counters, frames: seq<seq<byte>>): (d: Counters) {
    if frames == [] then c else Count(CountAll(c, frames[..|frames| - 1]), frames[|frames| - 1])
  }

  predicate Framed(raw: seq<byte>) {
    5 <= |raw| <= 512
  }

  predicate CutShort(raw: seq<byte>) {
    0 < |raw| < 5 || (Framed(raw) && Short(raw))
  }

  function Tally(frames: seq<seq<byte>>, keep: seq<byte> -> bool): (n: nat) {
    if frames == [] then 0
    else Tally(frames[..|frames| - 1], keep) + if keep(frames[|frames| - 1]) then 1 else 0
  }

  /** Over every run: each decode is counted once, as total + invalid - noise; total counts the
      frames of acceptable length; invalid the decodes that gave an error; noise the bad checksums;
      oversized and truncated the frames too long and cut short. */
  lemma {:induction false} EveryDecodeIsCounted(frames: seq<seq<byte>>)
    ensures var c := CountAll(ZEROS, frames);
            && c.total + c.invalid - c.noise == |frames|
            && c.total == Tally(frames, raw => Framed(raw))
            && c.invalid == Tally(frames, raw => Decode(raw).error != None)
            && c.noise == Tally(frames, raw => Decode(raw).error == Some(CrcInvalid))
            && c.total + Tally(frames, raw => Decode(raw).error == Some(FrameTooShort)) + c.oversized == |frames|
            && c.oversized == Tally(frames, raw => |raw| > 512)
            && c.oversized == Tally(frames, raw => Decode(raw).error == Some(FrameTooLong))
            && c.truncated == Tally(frames, raw => CutShort(raw))
  {
    if frames != [] {
      EveryDecodeIsCounted(frames[..|frames| - 1]);
    }
  }

  // ----- round trip

  /** The register data of a read response: a pressure, a temperature, a 48-bit counter, the
      sensor type, and whatever registers follow. */
  datatype Registers = Registers(pressure: nat, temperature: nat, time: nat, sensor: byte, rest: seq<byte>)

  predicate Sendable(r: Registers) {
    && r.pressure < 0x1_0000_0000 && r.temperature < 0x1_0000_0000 && r.time < 0x1_0000_0000_0000
    && 1 <= |r.rest| <= 240
  }

  function Image(r: Registers): (s: seq<byte>)
    ensures |s| == 15 + |r.rest|
  {
    Big(r.pressure, 4) + Big(r.temperature, 4) + Big(r.time, 6) + [r.sensor] + r.rest
  }

  /** A read response (MODBUS Application Protocol V1.1b3, section 6.3) behind a slave address. */
  function Response(slave: byte, code: byte, data: seq<byte>): (raw: seq<byte>)
    requires |data| < 0x100
  {
    Append([slave, code, |data|] + data)
  }

  lemma {:induction false} Uint32IsBig(b: seq<byte>)
    requires |b| == 4
    ensures Uint32(b) == FromBig(b)
  {
    assert b[..3][..2] == b[..2] && b[..2][..1] == b[..1] && b[..1][..0] == [];
    assert FromBig(b[..1]) == b[0];
    assert FromBig(b[..2]) == 0x100 * b[0] as nat + b[1];
    assert FromBig(b[..3]) == 0x100 * FromBig(b[..2]) + b[2];
  }

  lemma {:induction false} Uint48IsBig(b: seq<byte>)
    requires |b| == 6
    ensures Uint48(b) == FromBig(b)
  {
    var t := b[..4];
    Uint32IsBig(t);
    assert b[..5][..4] == t;
    assert FromBig(b[..5]) == 0x100 * FromBig(t) + b[4];
  }

  lemma {:induction false} Slices(a: seq<byte>, b: seq<byte>, c: seq<byte>, d: byte, rest: seq<byte>)
    requires |a| == 4 && |b| == 4 && |c| == 6
    ensures var s := a + b + c + [d] + rest; s[0..4] == a && s[4..8] == b && s[8..14] == c && s[14] == d
  {
  }

  lemma {:induction false} Word32(v: nat)
    requires v < 0x1_0000_0000
    ensures Uint32(Big(v, 4)) == v
  {
    var s := Big(v, 4);
    Pow256Values();
    FromBigInverse(v, 4);
    Uint32IsBig(s);
  }

  lemma {:induction false} Word48(v: nat)
    requires v < 0x1_0000_0000_0000
    ensures Uint48(Big(v, 6)) == v
  {
    var s := Big(v, 6);
    Pow256Values();
    FromBigInverse(v, 6);
    Uint48IsBig(s);
  }

  lemma {:induction false} ImageFields(r: Registers)
    requires Sendable(r)
    ensures Uint32(Image(r)[0..4]) == r.pressure && Uint32(Image(r)[4..8]) == r.temperature
    ensures Uint48(Image(r)[8..14]) == r.time && Image(r)[14] == r.sensor
  {
    Slices(Big(r.pressure, 4), Big(r.temperature, 4), Big(r.time, 6), r.sensor, r.rest);
    Word32(r.pressure);
    Word32(r.temperature);
    Word48(r.time);
  }

  lemma {:induction false} ResponseDecodes(slave: byte, code: byte, data: seq<byte>)
    requires 1 <= |data| < 0x100
    ensures var o := Decode(Response(slave, code, data));
            && o.error == None && o.frame.Some? && o.frame.value.isValid
            && o.frame.value.slave == slave && o.frame.value.functionCode == code && o.frame.value.data == data
            && o.frame.value.rawLength == |data| + 5
            && o.frame.value.crc == Checksum([slave, code, |data|] + data)
  {
    var body := [slave, code, |data|] + data;
    CrcTheory.AppendValidates(body);
    var raw := Append(body);
    assert raw[3..3 + |data|] == data;
  }

  /** A read response carrying at least sixteen data bytes decodes and extracts to its fields: the
      pressure register counts thousandths, the temperature register hundredths of a kelvin. */
  lemma {:induction false} ResponseRoundTrip(slave: byte, code: byte, r: Registers)
    requires Sendable(r)
    ensures Extract(Decode(Response(slave, code, Image(r))).frame).Ok?
    ensures var d := Extract(Decode(Response(slave, code, Image(r))).frame).value;
            && d.slave == slave && d.highSpeedTime == r.time && d.rawBytes == Image(r)
            && 1000.0 * d.pressure == r.pressure as real
            && 100.0 * (d.temperature + 273.15) == r.temperature as real
            && (d.sensorType == CapacitanceProdMeter <==> r.sensor == 2)
  {
    ResponseDecodes(slave, code, Image(r));
    ImageFields(r);
  }

  /** Exactly which byte strings become a sensor record: bytes after the payload are tolerated,
      but they are still covered by the checksum. */
  lemma {:induction false} ExtractedIff(raw: seq<byte>)
    ensures Extract(Decode(raw).frame).Ok?
       <==> 5 <= |raw| <= 512 && IsValid(raw) && 16 <= raw[2] && raw[2] as nat + 5 <= |raw|
  {}

  /** Why there is no record: the frame is missing or fails the checksum, or else it carries too little. */
  lemma {:induction false} ExtractErrors(raw: seq<byte>)
    ensures var e := Extract(Decode(raw).frame);
            && (e == Err(InvalidFrame) <==> Decode(raw).error != None)
            && (e == Err(InsufficientData) <==>
                  5 <= |raw| <= 512 && IsValid(raw) && (raw[2] < 16 || |raw| < raw[2] as nat + 5))
  {}

  // ----- corruption

  ghost predicate Damage(f: seq<byte>, g: seq<byte>) {
    && |g| == |f| && g != f
    && var e := CrcTheory.Flips(f, g);
       || (exists k: nat :: CrcTheory.Within(e, k, 16))
       || CrcTheory.Count(e) % 2 == 1
       || (exists i: nat, j: nat :: i < j < |e| && CrcTheory.OnlyAt(e, i, j))
  }

  /** A frame the decoder accepts, hit by a burst of up to 16 bits, an odd number of flips, or any
      two flips, is reported as noise and never becomes a record. */
  lemma {:induction false} DamageIsNoise(f: seq<byte>, g: seq<byte>)
    requires Decode(f).error == None && Damage(f, g)
    ensures Decode(g).error == Some(CrcInvalid) && Extract(Decode(g).frame) == Err(InvalidFrame)
  {
    var e := CrcTheory.Flips(f, g);
    if k: nat :| CrcTheory.Within(e, k, 16) {
      CrcTheory.BurstDetected(f, g, k);
    } else if CrcTheory.Count(e) % 2 == 1 {
      CrcTheory.OddFlipsDetected(f, g);
    } else {
      var i: nat, j: nat :| i < j < |e| && CrcTheory.OnlyAt(e, i, j);
      CrcTheory.TwoFlipsDetected(f, g, i, j);
    }
  }
}
