/**
 The MODBUS RTU requests of src/core/commands.ts and the validators of their replies.

 Frame layout follows the MODBUS Application Protocol V1.1b3: section 6.3 (read
 holding registers), 6.6 (write single register), 6.12 (write multiple
 registers) and 7 (exception responses).
 */
module Commands {
  import opened Wrappers
  import opened Crc
  import CrcTheory

  const UNIT_ADDRESS: Byte := 0x01
  const FC_READ_HOLDING_REGISTERS: Byte := 0x03
  const FC_WRITE_SINGLE_REGISTER: Byte := 0x06
  const FC_WRITE_MULTIPLE_REGISTERS: Byte := 0x10
  const EXCEPTION_FLAG_MASK: Byte := 0x80
  const EXCEPTION_FRAME_SIZE: nat := 5
  const WRITE_ECHO_SIZE: nat := 8
  const MAX_READ_REGISTER_COUNT: nat := 125
  const MAX_WRITE_REGISTER_COUNT: nat := 123

  datatype CommandError = QuantityOutOfRange | NotUint16 | OddPayload

  datatype Request =
    | ReadHoldingRegisters(startingAddress: nat, quantity: nat)
    | WriteSingleRegister(address: nat, value: nat)
    | WriteMultipleRegisters(firstAddress: nat, data: seq<Byte>)
  {
    /** The instances that a source constructor can return. */
    predicate Constructible() {
      match this
      case ReadHoldingRegisters(a, q) => a <= 0xFFFF && 1 <= q <= MAX_READ_REGISTER_COUNT
      case WriteSingleRegister(a, v) => a <= 0xFFFF && v <= 0xFFFF
      case WriteMultipleRegisters(a, d) =>
        a <= 0xFFFF && |d| % 2 == 0 && 1 <= |d| / 2 <= MAX_WRITE_REGISTER_COUNT
    }
  }

  type Command = r: Request | r.Constructible() witness ReadHoldingRegisters(0, 1)

  // ---------------------------------------------------------------------
  // Sixteen-bit words on the wire.

  function ToByte(n: nat): Byte
    requires n < 256
  {
    n as Byte
  }

  function FromByte(b: Byte): (n: nat)
    ensures n < 256
  {
    b as nat
  }

  function Uint16Bytes(value: nat): seq<Byte>
    requires value <= 0xFFFF
  {
    [ToByte(value / 256), ToByte(value % 256)]
  }

  /** `(high << 8) | low`, as the number it denotes. */
  function Uint16Value(high: Byte, low: Byte): (value: nat)
    ensures value <= 0xFFFF
  {
    256 * FromByte(high) + FromByte(low)
  }

  lemma ByteConversion(n: nat)
    requires n < 256
    ensures (n as Byte) as int <= n <= (n as Byte) as int
  {
  }

  lemma ByteValue(n: nat)
    requires n < 256
    ensures FromByte(ToByte(n)) == n
  {
    ByteConversion(n);
  }

  lemma ByteOfValue(b: Byte)
    ensures ToByte(FromByte(b)) == b
  {
  }

  /** The two-byte encoding and the decoding are inverse, in both directions. */
  lemma Uint16RoundTrip(value: nat, high: Byte, low: Byte)
    requires value <= 0xFFFF
    ensures Uint16Bytes(value) == [high, low] <==> Uint16Value(high, low) == value
  {
    hide ToByte, FromByte;
    ByteValue(value / 256);
    ByteValue(value % 256);
    ByteOfValue(high);
    ByteOfValue(low);
  }

  // ---------------------------------------------------------------------
  // Request frames.

  function FunctionCode(c: Command): Byte {
    match c
    case ReadHoldingRegisters(_, _) => FC_READ_HOLDING_REGISTERS
    case WriteSingleRegister(_, _) => FC_WRITE_SINGLE_REGISTER
    case WriteMultipleRegisters(_, _) => FC_WRITE_MULTIPLE_REGISTERS
  }

  function Payload(c: Command): (p: seq<Byte>)
    ensures |p| >= 4
  {
    match c
    case ReadHoldingRegisters(a, q) => Uint16Bytes(a) + Uint16Bytes(q)
    case WriteSingleRegister(a, v) => Uint16Bytes(a) + Uint16Bytes(v)
    case WriteMultipleRegisters(a, d) => Uint16Bytes(a) + Uint16Bytes(|d| / 2) + [ToByte(|d|)] + d
  }

  function Body(c: Command): (b: seq<Byte>)
    ensures |b| >= 6
  {
    [UNIT_ADDRESS, FunctionCode(c)] + Payload(c)
  }

  function Frame(c: Command): (f: seq<Byte>)
    ensures |f| >= 8
  {
    AppendCrc(Body(c))
  }

  /** Which requests there are: addresses and values of sixteen bits, up to 125 registers read and 123 written. */
  lemma RequestLimits(r: Request)
    ensures r.Constructible() <==>
            match r
            case ReadHoldingRegisters(a, q) => a <= 65535 && 1 <= q <= 125
            case WriteSingleRegister(a, v) => a <= 65535 && v <= 65535
            case WriteMultipleRegisters(a, d) => a <= 65535 && exists n :: 1 <= n <= 123 && |d| == 2 * n
  {
    if r.WriteMultipleRegisters? && r.Constructible() {
      assert |r.data| == 2 * (|r.data| / 2);
    }
  }

  /** The bytes of a request on the wire, before the check bytes. */
  lemma RequestImage(c: Command)
    ensures Frame(c) == AppendCrc(
              match c
              case ReadHoldingRegisters(a, q) =>
                [0x01, 0x03, ToByte(a / 256), ToByte(a % 256), ToByte(q / 256), ToByte(q % 256)]
              case WriteSingleRegister(a, v) =>
                [0x01, 0x06, ToByte(a / 256), ToByte(a % 256), ToByte(v / 256), ToByte(v % 256)]
              case WriteMultipleRegisters(a, d) =>
                [0x01, 0x10, ToByte(a / 256), ToByte(a % 256), 0x00, ToByte(|d| / 2), ToByte(|d|)] + d)
  {
    BodyImage(c);
    hide AppendCrc, ToByte, Body;
  }

  lemma BodyImage(c: Command)
    ensures Body(c) ==
            match c
            case ReadHoldingRegisters(a, q) =>
              [0x01, 0x03, ToByte(a / 256), ToByte(a % 256), ToByte(q / 256), ToByte(q % 256)]
            case WriteSingleRegister(a, v) =>
              [0x01, 0x06, ToByte(a / 256), ToByte(a % 256), ToByte(v / 256), ToByte(v % 256)]
            case WriteMultipleRegisters(a, d) =>
              [0x01, 0x10, ToByte(a / 256), ToByte(a % 256), 0x00, ToByte(|d| / 2), ToByte(|d|)] + d
  {
    hide ToByte;
    if c.WriteMultipleRegisters? {
      ZeroByte();
      assert |c.data| / 2 / 256 == 0 && |c.data| / 2 % 256 == |c.data| / 2;
    }
  }

  lemma ZeroByte()
    ensures ToByte(0) == 0x00
  {
  }

  /** `writeUint16BigEndian`; `false` stands for the RangeError, which leaves the buffer alone. */
  method WriteUint16BigEndian(buffer: array<Byte>, offset: nat, value: int) returns (ok: bool)
    requires offset + 2 <= buffer.Length
    modifies buffer
    ensures ok <==> 0 <= value <= 0xFFFF
    ensures ok ==> buffer[..] == old(buffer[..offset]) + Uint16Bytes(value) + old(buffer[offset + 2..])
    ensures !ok ==> buffer[..] == old(buffer[..])
  {
    if value < 0 || value > 0xFFFF {
      return false;
    }
    buffer[offset] := ToByte(value / 256);
    buffer[offset + 1] := ToByte(value % 256);
    return true;
  }

  /** The base constructor: unit address, function code, payload, checksum. */
  method BuildFrame(functionCode: Byte, data: seq<Byte>) returns (frame: array<Byte>)
    ensures fresh(frame) && frame[..] == AppendCrc([UNIT_ADDRESS, functionCode] + data)
  {
    var body := new Byte[|data| + 2];
    body[0] := UNIT_ADDRESS;
    body[1] := functionCode;
    forall i | 0 <= i < |data| {
      body[i + 2] := data[i];
    }
    assert body[..] == [UNIT_ADDRESS, functionCode] + data;
    frame := AppendModbusCrc(body[..]);
  }

  method NewReadHoldingRegisters(startingAddress: int, quantity: int)
    returns (r: Result<array<Byte>, CommandError>)
    ensures r.Ok? <==> 0 <= startingAddress <= 0xFFFF && 1 <= quantity <= MAX_READ_REGISTER_COUNT
    ensures r.Ok? ==> fresh(r.value) && r.value[..] == Frame(ReadHoldingRegisters(startingAddress, quantity))
    ensures r.Err? ==> r.error == if 1 <= quantity <= MAX_READ_REGISTER_COUNT then NotUint16 else QuantityOutOfRange
  {
    hide ToByte, AppendCrc;
    if quantity < 1 || quantity > MAX_READ_REGISTER_COUNT {
      return Err(QuantityOutOfRange);
    }
    var data := new Byte[4];
    var ok := WriteUint16BigEndian(data, 0, startingAddress);
    if !ok {
      return Err(NotUint16);
    }
    ok := WriteUint16BigEndian(data, 2, quantity);
    assert data[..] == Uint16Bytes(startingAddress) + Uint16Bytes(quantity);
    var frame := BuildFrame(FC_READ_HOLDING_REGISTERS, data[..]);
    return Ok(frame);
  }

  method NewWriteSingleRegister(address: int, value: int) returns (r: Result<array<Byte>, CommandError>)
    ensures r == Err(NotUint16) || (r.Ok? && 0 <= address <= 0xFFFF && 0 <= value <= 0xFFFF)
    ensures 0 <= address <= 0xFFFF && 0 <= value <= 0xFFFF ==>
              r.Ok? && fresh(r.value) && r.value[..] == Frame(WriteSingleRegister(address, value))
  {
    hide ToByte, AppendCrc;
    var data := new Byte[4];
    var ok := WriteUint16BigEndian(data, 0, address);
    if !ok {
      return Err(NotUint16);
    }
    ok := WriteUint16BigEndian(data, 2, value);
    if !ok {
      return Err(NotUint16);
    }
    assert data[..] == Uint16Bytes(address) + Uint16Bytes(value);
    var frame := BuildFrame(FC_WRITE_SINGLE_REGISTER, data[..]);
    return Ok(frame);
  }

  method NewWriteMultipleRegisters(startingAddress: int, data: seq<Byte>)
    returns (r: Result<array<Byte>, CommandError>)
    ensures |data| % 2 != 0 ==> r == Err(OddPayload)
    ensures |data| % 2 == 0 && !(1 <= |data| / 2 <= MAX_WRITE_REGISTER_COUNT) ==> r == Err(QuantityOutOfRange)
    ensures |data| % 2 == 0 && 1 <= |data| / 2 <= MAX_WRITE_REGISTER_COUNT ==>
              if 0 <= startingAddress <= 0xFFFF
              then r.Ok? && fresh(r.value) && r.value[..] == Frame(WriteMultipleRegisters(startingAddress, data))
              else r == Err(NotUint16)
  {
    hide ToByte, AppendCrc;
    if |data| % 2 != 0 {
      return Err(OddPayload);
    }
    var registerCount := |data| / 2;
    if registerCount < 1 || registerCount > MAX_WRITE_REGISTER_COUNT {
      return Err(QuantityOutOfRange);
    }
    var body := new Byte[|data| + 5];
    var ok := WriteUint16BigEndian(body, 0, startingAddress);
    if !ok {
      return Err(NotUint16);
    }
    ok := WriteUint16BigEndian(body, 2, registerCount);
    body[4] := ToByte(|data|);
    forall i | 0 <= i < |data| {
      body[i + 5] := data[i];
    }
    assert body[..4] == Uint16Bytes(startingAddress) + Uint16Bytes(registerCount);
    assert body[..] == body[..4] + [ToByte(|data|)] + data;
    var frame := BuildFrame(FC_WRITE_MULTIPLE_REGISTERS, body[..]);
    return Ok(frame);
  }

  // ---------------------------------------------------------------------
  // Replies.

  function ResponseSize(c: Command): (n: nat)
    ensures n >= 7
  {
    match c
    case ReadHoldingRegisters(_, q) => 2 * q + 5
    case WriteSingleRegister(_, _) => WRITE_ECHO_SIZE
    case WriteMultipleRegisters(_, _) => WRITE_ECHO_SIZE
  }

  predicate IsExceptionResponse(c: Command, response: seq<Byte>) {
    |response| == EXCEPTION_FRAME_SIZE &&
    response[0] == UNIT_ADDRESS &&
    response[1] == FunctionCode(c) + EXCEPTION_FLAG_MASK &&
    HasValidCrc(response)
  }

  predicate IsValidResponse(c: Command, response: seq<Byte>) {
    |response| == ResponseSize(c) &&
    response[0] == UNIT_ADDRESS &&
    response[1] == FunctionCode(c) &&
    HasValidCrc(response) &&
    match c
    case ReadHoldingRegisters(_, q) => response[2] == ToByte(2 * q)
    case WriteSingleRegister(_, _) => response[..6] == Frame(c)[..6]
    case WriteMultipleRegisters(_, _) => response[..6] == Frame(c)[..6]
  }

  function ParseResponse(c: Command, response: seq<Byte>): seq<Byte>
    requires IsValidResponse(c, response)
  {
    match c
    case ReadHoldingRegisters(_, _) => response[3..|response| - 2]
    case WriteSingleRegister(_, _) => response[4..6]
    case WriteMultipleRegisters(_, _) => response
  }

  // ---------------------------------------------------------------------
  // The replies a conforming device builds.

  function ReadReply(data: seq<Byte>): seq<Byte>
    requires |data| <= 250
  {
    AppendCrc([UNIT_ADDRESS, FC_READ_HOLDING_REGISTERS, ToByte(|data|)] + data)
  }

  function ExceptionReply(c: Command, code: Byte): seq<Byte> {
    AppendCrc([UNIT_ADDRESS, FunctionCode(c) + EXCEPTION_FLAG_MASK, code])
  }

  /** A read response is valid exactly when it frames as many data bytes as were asked for. */
  lemma ValidReadResponse(c: Command, response: seq<Byte>)
    requires c.ReadHoldingRegisters?
    ensures IsValidResponse(c, response) <==>
            |response| == 2 * c.quantity + 5 &&
            response == ReadReply(response[3..|response| - 2])
    ensures IsValidResponse(c, response) ==> ParseResponse(c, response) == response[3..|response| - 2]
  {
    hide HasValidCrc, Checksum, Low, High, ToByte;
    var n := 2 * c.quantity;
    if |response| == n + 5 {
      var data := response[3..|response| - 2];
      var header := [UNIT_ADDRESS, FC_READ_HOLDING_REGISTERS, ToByte(|data|)];
      CrcTheory.AcceptedIsAppended(header + data, response);
      assert response[..|response| - 2] == response[..3] + data;
      assert (header + data)[..3] == header;
      assert AppendCrc(header + data)[..n + 3] == header + data;
    }
  }

  /** What a device reports is what the reader extracts, for every payload of the requested size. */
  lemma ReadReplyRoundTrip(c: Command, data: seq<Byte>)
    requires c.ReadHoldingRegisters? && |data| == 2 * c.quantity
    ensures IsValidResponse(c, ReadReply(data)) && ParseResponse(c, ReadReply(data)) == data
  {
    hide HasValidCrc, Checksum, Low, High, ToByte;
    assert ReadReply(data)[3..|ReadReply(data)| - 2] == data;
    ValidReadResponse(c, ReadReply(data));
  }

  /** A single-register write is confirmed by an echo of the whole request and by nothing else. */
  lemma ValidWriteSingleResponse(c: Command, response: seq<Byte>)
    requires c.WriteSingleRegister?
    ensures IsValidResponse(c, response) <==> response == Frame(c)
  {
    hide HasValidCrc, Checksum, Low, High, ToByte;
    assert Frame(c)[..6] == Body(c);
    if |response| == 8 {
      CrcTheory.AcceptedIsAppended(Body(c), response);
    }
  }

  /** A multiple-register write is confirmed by its first six bytes under a fresh checksum. */
  lemma ValidWriteMultipleResponse(c: Command, response: seq<Byte>)
    requires c.WriteMultipleRegisters?
    ensures IsValidResponse(c, response) <==> response == AppendCrc(Frame(c)[..6])
  {
    hide HasValidCrc, Checksum, Low, High, ToByte;
    var head := Frame(c)[..6];
    assert head == Body(c)[..6];
    if |response| == 8 {
      CrcTheory.AcceptedIsAppended(head, response);
    }
  }

  /** An exception is recognised exactly in the frame that carries one code byte. */
  lemma ExceptionResponseImage(c: Command, response: seq<Byte>)
    ensures IsExceptionResponse(c, response) <==> |response| == 5 && response == ExceptionReply(c, response[2])
  {
    hide HasValidCrc, Checksum, Low, High, ToByte;
    if |response| == 5 {
      var body := [UNIT_ADDRESS, FunctionCode(c) + EXCEPTION_FLAG_MASK, response[2]];
      CrcTheory.AcceptedIsAppended(body, response);
      assert response[..3] == [response[0], response[1], response[2]];
    }
  }

  /** The bytes that any accepted reply has on the wire. */
  lemma ReplyImage(c: Command, r: seq<Byte>)
    ensures IsExceptionResponse(c, r) <==>
            |r| == 5 && r[0] == 0x01 && HasValidCrc(r) &&
            r[1] == match c
                    case ReadHoldingRegisters(_, _) => 0x83
                    case WriteSingleRegister(_, _) => 0x86
                    case WriteMultipleRegisters(_, _) => 0x90
    ensures IsValidResponse(c, r) ==>
              r[0] == 0x01 &&
              match c
              case ReadHoldingRegisters(_, q) => |r| == 2 * q + 5 && r[1] == 0x03
              case WriteSingleRegister(_, _) => |r| == 8 && r[1] == 0x06
              case WriteMultipleRegisters(_, _) => |r| == 8 && r[1] == 0x10
  {
    hide HasValidCrc, Frame;
  }

  /** While a valid response is still arriving it is never mistaken for an exception. */
  lemma NoPrefixIsException(c: Command, response: seq<Byte>, n: nat)
    requires IsValidResponse(c, response) && n <= |response|
    ensures !IsExceptionResponse(c, response[..n])
  {
    hide HasValidCrc, Frame;
  }

  /** Read replies carry no address: any reply to one read passes for another of the same length. */
  lemma ReadRepliesAreAmbiguous(c: Command, d: Command, response: seq<Byte>)
    requires c.ReadHoldingRegisters? && d.ReadHoldingRegisters?
    requires IsValidResponse(c, response)
    ensures IsValidResponse(d, response) <==> c.quantity == d.quantity
  {
    hide HasValidCrc;
  }
}
