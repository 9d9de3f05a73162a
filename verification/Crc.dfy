/**
 The bit-serial MODBUS CRC-16 of src/core/crc.ts.

 The register is a `bv16` and a wire byte is a `bv8`, so every shift, mask and
 exclusive-or below is the source's own. `Checksum` and `HasValidCrc` are what
 the source computes; CrcTheory.dfy says what accepting a frame means.
 */
module Crc {

  type Byte = bv8

  const INITIAL_VALUE: bv16 := 0xFFFF
  const POLYNOMIAL: bv16 := 0xA001

  /** One turn of the inner loop: shift out the low bit and feed it back. */
  function BitStep(crc: bv16): bv16 {
    if crc & 1 != 0 then (crc >> 1) ^ POLYNOMIAL else crc >> 1
  }

  function Shift(crc: bv16, n: nat): bv16 {
    if n == 0 then crc else BitStep(Shift(crc, n - 1))
  }

  /** One turn of the outer loop. */
  function ByteStep(crc: bv16, b: Byte): bv16 {
    Shift(crc ^ (b as bv16), 8)
  }

  function Run(crc: bv16, data: seq<Byte>): bv16 {
    if data == [] then crc
    else ByteStep(Run(crc, data[..|data| - 1]), data[|data| - 1])
  }

  function Checksum(data: seq<Byte>): bv16 {
    Run(INITIAL_VALUE, data)
  }

  function Low(word: bv16): Byte { (word & 0xFF) as Byte }

  function High(word: bv16): Byte { ((word >> 8) & 0xFF) as Byte }

  function AppendCrc(data: seq<Byte>): seq<Byte> {
    data + [Low(Checksum(data)), High(Checksum(data))]
  }

  predicate HasValidCrc(frame: seq<Byte>) {
    |frame| >= 3 &&
    var expected := Checksum(frame[..|frame| - 2]);
    frame[|frame| - 2] == Low(expected) && frame[|frame| - 1] == High(expected)
  }

  /** `modbusCrc`: the nested loops, proved against `Checksum`. */
  method ModbusCrc(data: seq<Byte>) returns (crc: bv16)
    ensures crc == Checksum(data)
  {
    crc := INITIAL_VALUE;
    for i := 0 to |data|
      invariant crc == Run(INITIAL_VALUE, data[..i])
    {
      ghost var before := crc;
      crc := crc ^ (data[i] as bv16);
      for bit := 0 to 8
        invariant crc == Shift(before ^ (data[i] as bv16), bit)
      {
        var lsb := crc & 0x0001;
        crc := crc >> 1;
        if lsb != 0 {
          crc := crc ^ POLYNOMIAL;
        }
      }
      assert data[..i + 1][..i] == data[..i];
    }
    assert data[..|data|] == data;
  }

  /** `appendModbusCrc`: a fresh buffer, the body first, then low and high byte. */
  method AppendModbusCrc(data: seq<Byte>) returns (result: array<Byte>)
    ensures fresh(result) && result[..] == AppendCrc(data)
  {
    var crc := ModbusCrc(data);
    result := new Byte[|data| + 2];
    forall i | 0 <= i < |data| {
      result[i] := data[i];
    }
    result[result.Length - 2] := (crc & 0xFF) as Byte;
    result[result.Length - 1] := ((crc >> 8) & 0xFF) as Byte;
    assert result[..|data|] == data;
  }

  /** `hasValidModbusCrc`, which recomputes the checksum of all but two bytes. */
  method HasValidModbusCrc(frame: seq<Byte>) returns (valid: bool)
    ensures valid == HasValidCrc(frame)
  {
    if |frame| < 3 {
      return false;
    }
    var expected := ModbusCrc(frame[..|frame| - 2]);
    var low, high := frame[|frame| - 2], frame[|frame| - 1];
    valid := low == (expected & 0xFF) as Byte && high == ((expected >> 8) & 0xFF) as Byte;
  }
}
