/** Modbus write requests that drive the choke valve. */
module Override {
  import opened Words
  import opened Crc16
  import opened Reals
  import opened Wrappers
  import Threat

  const WRITE_SINGLE: byte := 0x06
  const WRITE_MULTIPLE: byte := 0x10
  const PRIORITY_EMERGENCY: byte := 0xFF
  const PRIORITY_HIGH: byte := 0x80

  datatype Command = Command(slave: byte, code: byte, register: word, value: word,
                             priority: byte, sequence: nat)

  datatype Packet = Packet(raw: seq<byte>, command: Command)

  function High(w: word): (b: byte) { w / 0x100 }
  function Low(w: word): (b: byte) { w % 0x100 }

  /** Big-endian: the high byte comes first on the wire. */
  function BigEndian(w: word): (s: seq<byte>)
    ensures |s| == 2
  {
    [High(w), Low(w)]
  }

  lemma {:induction false} BigEndianInverse(w: word)
    ensures Join(Low(w), High(w)) == w
  {}

  // ----- openings as per-mille register values

  /** Conversion to uint16, for values that fit. */
  function ToRegister(opening: real): (v: word)
    requires 0.0 <= opening < 65.536
    ensures v <= 1000
  {
    var permille := Threat.Truncate(opening * 1000.0);
    if permille > 1000 then 1000 else permille
  }

  function FromRegister(v: word): (opening: real) {
    v as real / 1000.0
  }

  /** Every register value up to 1000 survives the trip through a fraction; larger ones
      come back as 1000. */
  lemma {:induction false} RegisterRoundTrip(v: word)
    ensures 0.0 <= FromRegister(v) < 65.536
    ensures ToRegister(FromRegister(v)) == if v > 1000 then 1000 else v
  {
    DivideTimes(v as real, 1000.0);
  }

  /** An opening in [0,1] loses less than a thousandth, downwards. */
  lemma {:induction false} OpeningRoundTrip(opening: real)
    requires 0.0 <= opening <= 1.0
    ensures FromRegister(ToRegister(opening)) <= opening < FromRegister(ToRegister(opening)) + 0.001
    ensures ToRegister(opening) == (opening * 1000.0).Floor
  {
    DivideTimes(ToRegister(opening) as real, 1000.0);
  }

  // ----- frames

  function SingleBody(c: Command): (s: seq<byte>) {
    [c.slave, c.code] + BigEndian(c.register) + BigEndian(c.value)
  }

  /** Register values on the wire. */
  function Encoded(values: seq<word>): (s: seq<byte>)
    ensures |s| == 2 * |values|
  {
    if values == [] then [] else Encoded(values[..|values| - 1]) + BigEndian(values[|values| - 1])
  }

  function MultipleHeader(c: Command, n: nat): (s: seq<byte>)
    ensures |s| == 7
  {
    [c.slave, c.code] + BigEndian(c.register) + BigEndian(n % 0x1_0000) + [n * 2 % 0x100]
  }

  function MultipleBody(c: Command, values: seq<word>): (s: seq<byte>) {
    MultipleHeader(c, |values|) + Encoded(values)
  }

  method AssembleWriteSingle(table: CrcTable, c: Command) returns (raw: seq<byte>)
    requires table.Valid()
    ensures raw == Append(SingleBody(c))
  {
    var buf := new byte[6];
    buf[0] := c.slave;
    buf[1] := c.code;
    buf[2], buf[3] := High(c.register), Low(c.register);
    buf[4], buf[5] := High(c.value), Low(c.value);
    assert buf[..] == SingleBody(c);
    raw := table.AppendCRC16(buf[..]);
  }

  method AssembleWriteMultiple(table: CrcTable, c: Command, values: seq<word>) returns (raw: seq<byte>)
    requires table.Valid()
    ensures raw == Append(MultipleBody(c, values))
  {
    var n := |values|;
    var buf := new byte[7 + n * 2];
    buf[0] := c.slave;
    buf[1] := c.code;
    buf[2], buf[3] := High(c.register), Low(c.register);
    buf[4], buf[5] := High(n % 0x1_0000), Low(n % 0x1_0000);
    buf[6] := n * 2 % 0x100;
    assert buf[..7] == MultipleHeader(c, n);
    PutValues(buf, values);
    assert buf[..] == buf[..7] + buf[7..];
    raw := table.AppendCRC16(buf[..]);
  }

  method PutValues(buf: array<byte>, values: seq<word>)
    requires buf.Length == 7 + 2 * |values|
    modifies buf
    ensures buf[..7] == old(buf[..7]) && buf[7..] == Encoded(values)
  {
    for i := 0 to |values|
      invariant buf[..7] == old(buf[..7])
      invariant buf[7..7 + 2 * i] == Encoded(values[..i])
    {
      assert values[..i + 1][..i] == values[..i];
      ghost var done := buf[7..7 + 2 * i];
      buf[7 + i * 2], buf[8 + i * 2] := High(values[i]), Low(values[i]);
      assert buf[7..7 + 2 * (i + 1)] == done + BigEndian(values[i]);
    }
    assert values[..|values|] == values;
    assert buf[7..] == buf[7..7 + 2 * |values|];
  }

  // ----- building overrides

  /** The builder with its process-wide 32-bit sequence counter. */
  class Builder {
    const table: CrcTable
    var sequence: nat

    ghost predicate Valid()
      reads this
    {
      table.Valid() && sequence < 0x1_0000_0000
    }

    constructor (table: CrcTable)
      requires table.Valid()
      ensures Valid() && this.table == table && sequence == 0
    {
      this.table := table;
      sequence := 0;
    }

    method NextSequence()
      requires Valid()
      modifies this`sequence
      ensures Valid() && sequence == (old(sequence) + 1) % 0x1_0000_0000
    {
      sequence := (sequence + 1) % 0x1_0000_0000;
    }

    method BuildEmergencyOverride(slave: byte, register: word, opening: real, lockdown: bool) returns (p: Packet)
      requires Valid() && 0.0 <= opening < 65.536
      modifies this`sequence
      ensures Valid() && sequence == (old(sequence) + 1) % 0x1_0000_0000
      ensures p == EmergencyPacket(slave, register, opening, lockdown, sequence)
    {
      NextSequence();
      var permille := Threat.Truncate(opening * 1000.0);
      if permille > 1000 {
        permille := 1000;
      }
      var priority := PRIORITY_HIGH;
      if lockdown {
        priority := PRIORITY_EMERGENCY;
        permille := 0;
      }
      var command := Command(slave, WRITE_SINGLE, register, permille, priority, sequence);
      var raw := AssembleWriteSingle(table, command);
      return Packet(raw, command);
    }

    method BuildLockdownOverride(slave: byte, register: word) returns (p: Packet)
      requires Valid()
      modifies this`sequence
      ensures Valid() && sequence == (old(sequence) + 1) % 0x1_0000_0000
      ensures p == LockdownPacket(slave, register, sequence)
    {
      NextSequence();
      var command := Command(slave, WRITE_SINGLE, register, 0, PRIORITY_EMERGENCY, sequence);
      var raw := AssembleWriteSingle(table, command);
      return Packet(raw, command);
    }

    method BuildMultiRegisterOverride(slave: byte, start: word, values: seq<word>, lockdown: bool) returns (p: Packet)
      requires Valid() && values != []
      modifies this`sequence
      ensures Valid() && sequence == (old(sequence) + 1) % 0x1_0000_0000
      ensures p.command == Command(slave, 0x10, start, values[0], if lockdown then 0xFF else 0x80, sequence)
      ensures p.raw == Append(MultipleBody(p.command, values))
    {
      NextSequence();
      var priority := PRIORITY_HIGH;
      if lockdown {
        priority := PRIORITY_EMERGENCY;
      }
      var command := Command(slave, WRITE_MULTIPLE, start, values[0], priority, sequence);
      var raw := AssembleWriteMultiple(table, command, values);
      return Packet(raw, command);
    }
  }

  function SinglePacket(c: Command): (p: Packet) {
    Packet(Append(SingleBody(c)), c)
  }

  function EmergencyPacket(slave: byte, register: word, opening: real, lockdown: bool, sequence: nat): (p: Packet)
    requires 0.0 <= opening < 65.536
  {
    SinglePacket(Command(slave, WRITE_SINGLE, register, if lockdown then 0 else ToRegister(opening),
                         if lockdown then PRIORITY_EMERGENCY else PRIORITY_HIGH, sequence))
  }

  function LockdownPacket(slave: byte, register: word, sequence: nat): (p: Packet) {
    SinglePacket(Command(slave, WRITE_SINGLE, register, 0, PRIORITY_EMERGENCY, sequence))
  }

  // ----- reading the frames back (MODBUS Application Protocol V1.1b3, sections 6.6 and 6.12)

  datatype SingleRequest = SingleRequest(slave: byte, register: word, value: word)

  /** The bytes before the checksum of a frame that passes it. */
  function Checked(raw: seq<byte>): (body: Option<seq<byte>>) {
    if IsValid(raw) then Some(raw[..|raw| - 2]) else None
  }

  function SingleFields(body: seq<byte>): (r: Option<SingleRequest>) {
    if |body| == 6 && body[1] == 0x06
    then Some(SingleRequest(body[0], Join(body[3], body[2]), Join(body[5], body[4])))
    else None
  }

  function ParseSingle(raw: seq<byte>): (r: Option<SingleRequest>) {
    match Checked(raw)
    case None => None
    case Some(body) => SingleFields(body)
  }

  datatype MultipleRequest = MultipleRequest(slave: byte, start: word, values: seq<word>)

  function Decoded(s: seq<byte>): (values: seq<word>)
    requires |s| % 2 == 0
    ensures 2 * |values| == |s|
  {
    if s == [] then [] else Decoded(s[..|s| - 2]) + [Join(s[|s| - 1], s[|s| - 2])]
  }

  function MultipleFields(body: seq<byte>): (r: Option<MultipleRequest>) {
    if |body| < 7 || body[1] != 0x10 then None
    else
      var quantity := Join(body[5], body[4]);
      if 1 <= quantity <= 123 && body[6] == 2 * quantity && |body| == 7 + 2 * quantity
      then Some(MultipleRequest(body[0], Join(body[3], body[2]), Decoded(body[7..])))
      else None
  }

  function ParseMultiple(raw: seq<byte>): (r: Option<MultipleRequest>) {
    match Checked(raw)
    case None => None
    case Some(body) => MultipleFields(body)
  }

  lemma {:induction false} AppendIsValid(body: seq<byte>)
    requires |body| >= 2
    ensures IsValid(Append(body)) && Checked(Append(body)) == Some(body)
  {
    var f := Append(body);
    assert f[..|f| - 2] == body;
  }

  /** A write-single request parses back to its fields. */
  lemma {:induction false} SingleRoundTrip(c: Command)
    requires c.code == WRITE_SINGLE
    ensures ParseSingle(SinglePacket(c).raw) == Some(SingleRequest(c.slave, c.register, c.value))
  {
    AppendIsValid(SingleBody(c));
    BigEndianInverse(c.register);
    BigEndianInverse(c.value);
  }

  lemma {:induction false} DecodedMore(s: seq<byte>, v: word)
    requires |s| % 2 == 0
    ensures Decoded(s + BigEndian(v)) == Decoded(s) + [v]
  {
    var t := s + BigEndian(v);
    assert t[..|t| - 2] == s;
    BigEndianInverse(v);
  }

  lemma {:induction false} DecodeEncode(values: seq<word>)
    ensures Decoded(Encoded(values)) == values
  {
    if values != [] {
      var u, v := values[..|values| - 1], values[|values| - 1];
      DecodeEncode(u);
      DecodedMore(Encoded(u), v);
      assert values == u + [v];
    }
  }

  /** A write-multiple request is acceptable under the protocol, and then parses back to
      its fields, exactly for 1 to 123 registers; the byte count and quantity fields wrap
      beyond that. */
  lemma {:induction false} MultipleRoundTrip(c: Command, values: seq<word>)
    requires c.code == WRITE_MULTIPLE
    ensures ParseMultiple(Append(MultipleBody(c, values)))
         == if 1 <= |values| <= 123 then Some(MultipleRequest(c.slave, c.register, values)) else None
  {
    var body := MultipleBody(c, values);
    AppendIsValid(body);
    MultipleFieldsOf(c, values, body);
  }

  lemma {:induction false} MultipleFieldsOf(c: Command, values: seq<word>, body: seq<byte>)
    requires c.code == WRITE_MULTIPLE && body == MultipleBody(c, values)
    ensures MultipleFields(body)
         == if 1 <= |values| <= 123 then Some(MultipleRequest(c.slave, c.register, values)) else None
  {
    var n := |values|;
    HeaderFields(c, n, body);
    QuantityExact(n, Join(body[5], body[4]));
    assert body[7..] == Encoded(values);
    if 1 <= n <= 123 {
      DecodeEncode(values);
    }
  }

  /** The 16-bit quantity field agrees with the length of the body only for an acceptable count. */
  lemma {:induction false} QuantityExact(n: nat, quantity: word)
    requires quantity == n % 0x1_0000
    ensures (1 <= quantity <= 123 && n == quantity) <==> 1 <= n <= 123
    ensures 1 <= n <= 123 ==> quantity == n && n * 2 % 0x100 == 2 * n
  {}

  lemma {:induction false} HeaderFields(c: Command, n: nat, body: seq<byte>)
    requires |body| >= 7 && body[..7] == MultipleHeader(c, n)
    ensures body[0] == c.slave && body[1] == c.code && Join(body[3], body[2]) == c.register
    ensures Join(body[5], body[4]) == n % 0x1_0000 && body[6] == n * 2 % 0x100
  {
    var h := MultipleHeader(c, n);
    BigEndianInverse(c.register);
    BigEndianInverse(n % 0x1_0000);
    assert forall i :: 0 <= i < 7 ==> body[i] == h[i];
  }
}
