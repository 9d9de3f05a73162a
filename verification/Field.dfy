/**
 Register-backed fields and their decoders: src/devices/field.ts.

 `Parse` decodes the bytes of a slice as the source does. `Decode` says what the
 field means in terms of register values, and `ParseIsDecode` that they agree.
 Decimal and version values are exact rationals.
 */
module Field {
  import opened Wrappers
  import opened Crc
  import opened Commands

  /** The value of one sixteen-bit register. */
  type Register = n: nat | n <= 0xFFFF

  datatype EnumOption = EnumOption(name: string, value: nat)

  datatype Range = Range(low: real, high: real)

  datatype DeviceField =
    | UintField(name: string, address: nat, range: Option<Range>)
    | BoolField(name: string, address: nat)
    | EnumField(name: string, address: nat, options: seq<EnumOption>)
    | DecimalField(name: string, address: nat, scale: nat, range: Option<Range>)
    | DecimalArrayField(name: string, address: nat, length: nat, scale: nat)
    | StringField(name: string, address: nat, length: nat)
    | SwapStringField(name: string, address: nat, length: nat)
    | VersionField(name: string, address: nat)
    | SerialNumberField(name: string, address: nat)
  {
    /** Number of registers. */
    function Size(): nat {
      match this
      case DecimalArrayField(_, _, n, _) => n
      case StringField(_, _, n) => n
      case SwapStringField(_, _, n) => n
      case VersionField(_, _) => 2
      case SerialNumberField(_, _) => 4
      case _ => 1
    }

    predicate IsInRange(value: ParsedValue) {
      if (UintField? || DecimalField?) && range.Some? && value.NumberValue?
      then range.value.low <= value.number <= range.value.high
      else true
    }
  }

  datatype ParsedValue =
    | BoolValue(flag: bool)
    | NumberValue(number: real)
    | TextValue(text: seq<Byte>)
    | BigIntValue(big: nat)
    | ListValue(numbers: seq<real>)
    | EnumValue(name: string, value: nat)

  // ---------------------------------------------------------------------
  // Pieces shared by the decoders.

  function Power10(n: nat): (p: nat)
    ensures p > 0
  {
    if n == 0 then 1 else 10 * Power10(n - 1)
  }

  function Digit(d: nat): char
    requires d < 10
  {
    '0' + d as char
  }

  /** The decimal digits of a number. */
  function Digits(n: nat): (text: string)
    ensures |text| >= 1
  {
    if n < 10 then [Digit(n)] else Digits(n / 10) + [Digit(n % 10)]
  }

  /** The first option with the value, or a synthesised name. */
  function EnumName(options: seq<EnumOption>, raw: nat): string {
    if options == [] then "UNKNOWN_" + Digits(raw)
    else if options[0].value == raw then options[0].name
    else EnumName(options[1..], raw)
  }

  /** `enumValue`, the search over the option entries. */
  method FindEnumValue(options: seq<EnumOption>, raw: nat) returns (v: ParsedValue)
    ensures v == EnumValue(EnumName(options, raw), raw)
  {
    for i := 0 to |options|
      invariant EnumName(options, raw) == EnumName(options[i..], raw)
    {
      if options[i].value == raw {
        return EnumValue(options[i].name, raw);
      }
    }
    return EnumValue("UNKNOWN_" + Digits(raw), raw);
  }

  /** `None` stands for the RangeError of a slice that is too short. */
  function ReadUint16(data: seq<Byte>, offset: nat): Option<nat> {
    if offset + 1 < |data| then Some(Uint16Value(data[offset], data[offset + 1])) else None
  }

  /** The bytes before the first NUL, each stripped of its top bit. */
  function ReadAscii(data: seq<Byte>): seq<Byte> {
    if data == [] || data[0] == 0 then [] else [data[0] & 0x7F] + ReadAscii(data[1..])
  }

  /** Adjacent bytes exchanged; an odd last byte stays. */
  function Swapped(data: seq<Byte>): (r: seq<Byte>)
    ensures |r| == |data|
  {
    seq(|data|, i requires 0 <= i < |data| =>
      if i % 2 == 1 then data[i - 1] else if i + 1 < |data| then data[i + 1] else data[i])
  }

  /** The bytes of pair `k` change places; a byte without a neighbour stays. */
  lemma SwappedPair(data: seq<Byte>, k: nat)
    ensures 2 * k + 1 < |data| ==> Swapped(data)[2 * k] == data[2 * k + 1] && Swapped(data)[2 * k + 1] == data[2 * k]
    ensures 2 * k == |data| - 1 ==> Swapped(data)[2 * k] == data[2 * k]
  {
  }

  /** `swapBytePairs`, in place on a copy. */
  method SwapBytePairs(data: seq<Byte>) returns (swapped: array<Byte>)
    ensures fresh(swapped) && swapped[..] == Swapped(data)
  {
    hide Swapped;
    swapped := new Byte[|data|];
    forall i | 0 <= i < |data| {
      swapped[i] := data[i];
    }
    var index := 0;
    ghost var pair := 0;
    while index < swapped.Length - 1
      invariant 0 <= index == 2 * pair <= |data|
      invariant forall i :: 0 <= i < index ==> swapped[i] == Swapped(data)[i]
      invariant forall i :: index <= i < |data| ==> swapped[i] == data[i]
    {
      SwappedPair(data, pair);
      var current, next := swapped[index], swapped[index + 1];
      swapped[index] := next;
      swapped[index + 1] := current;
      index := index + 2;
      pair := pair + 1;
    }
    SwappedPair(data, pair);
  }

  function Scaled(raw: nat, scale: nat): real {
    raw as real / Power10(scale) as real
  }

  /** The words of an array field from `index` on. */
  function ParseDecimals(data: seq<Byte>, index: nat, length: nat, scale: nat): Option<seq<real>>
    decreases length - index
  {
    if index >= length then Some([])
    else
      match (ReadUint16(data, 2 * index), ParseDecimals(data, index + 1, length, scale))
      case (Some(raw), Some(rest)) => Some([Scaled(raw, scale)] + rest)
      case _ => None
  }

  function Behind(values: seq<real>, rest: Option<seq<real>>): Option<seq<real>> {
    if rest.Some? then Some(values + rest.value) else None
  }

  lemma BehindOne(values: seq<real>, r: Option<seq<real>>, rest: Option<seq<real>>)
    ensures Behind([], r) == r
    ensures r.Some? && r.value != [] && rest.Some? && r.value[1..] == rest.value ==>
              Behind(values, r) == Behind(values + [r.value[0]], rest)
  {
    if r.Some? {
      assert [] + r.value == r.value;
      if r.value != [] && rest.Some? && r.value[1..] == rest.value {
        assert values + r.value == values + [r.value[0]] + rest.value;
      }
    }
  }

  /** `DecimalArrayField.parse`, the loop that collects the values. */
  method ParseDecimalArray(data: seq<Byte>, length: nat, scale: nat) returns (r: Option<seq<real>>)
    ensures r == ParseDecimals(data, 0, length, scale)
  {
    hide Scaled, ReadUint16;
    var values: seq<real> := [];
    BehindOne([], ParseDecimals(data, 0, length, scale), None);
    for index := 0 to length
      invariant ParseDecimals(data, 0, length, scale) == Behind(values, ParseDecimals(data, index, length, scale))
    {
      BehindOne(values, ParseDecimals(data, index, length, scale), ParseDecimals(data, index + 1, length, scale));
      var raw := ReadUint16(data, 2 * index);
      if raw.None? {
        return None;
      }
      values := values + [Scaled(raw.value, scale)];
    }
    assert values + [] == values;
    return Some(values);
  }

  // ---------------------------------------------------------------------
  // Decoding a slice of bytes.

  function Parse(field: DeviceField, data: seq<Byte>): Option<ParsedValue> {
    match field
    case UintField(_, _, _) => OneWord(data, (raw: nat) => NumberValue(raw as real))
    case BoolField(_, _) => OneWord(data, (raw: nat) => BoolValue(raw == 1))
    case EnumField(_, _, options) => OneWord(data, (raw: nat) => EnumValue(EnumName(options, raw), raw))
    case DecimalField(_, _, scale, _) => OneWord(data, (raw: nat) => NumberValue(Scaled(raw, scale)))
    case DecimalArrayField(_, _, length, scale) =>
      (match ParseDecimals(data, 0, length, scale)
       case Some(numbers) => Some(ListValue(numbers))
       case None => None)
    case StringField(_, _, _) => Some(TextValue(ReadAscii(data)))
    case SwapStringField(_, _, _) => Some(TextValue(ReadAscii(Swapped(data))))
    case VersionField(_, _) =>
      (match (ReadUint16(data, 0), ReadUint16(data, 2))
       case (Some(low), Some(high)) => Some(NumberValue((low + high * 0x1_0000) as real / 100.0))
       case _ => None)
    case SerialNumberField(_, _) =>
      (match (ReadUint16(data, 0), ReadUint16(data, 2), ReadUint16(data, 4), ReadUint16(data, 6))
       case (Some(w0), Some(w1), Some(w2), Some(w3)) =>
         Some(BigIntValue(w0 + w1 * 0x1_0000 + w2 * 0x1_0000_0000 + w3 * 0x1_0000_0000_0000))
       case _ => None)
  }

  function OneWord(data: seq<Byte>, decode: nat -> ParsedValue): Option<ParsedValue> {
    match ReadUint16(data, 0)
    case Some(raw) => Some(decode(raw))
    case None => None
  }

  // ---------------------------------------------------------------------
  // What a field means, in registers.

  /** Registers as they travel: high byte first. */
  function WordBytes(words: seq<Register>): (bytes: seq<Byte>)
    ensures |bytes| == 2 * |words|
  {
    if words == [] then [] else Uint16Bytes(words[0]) + WordBytes(words[1..])
  }

  /** Registers with the low byte first, the order of swapped strings. */
  function LowFirstBytes(words: seq<Register>): (bytes: seq<Byte>)
    ensures |bytes| == 2 * |words|
  {
    if words == [] then []
    else [ToByte(words[0] % 256), ToByte(words[0] / 256)] + LowFirstBytes(words[1..])
  }

  /** The little-endian number written in base 65536. */
  function WordsValue(words: seq<Register>): nat {
    if words == [] then 0 else words[0] + 0x1_0000 * WordsValue(words[1..])
  }

  function ScaledWords(words: seq<Register>, scale: nat): seq<real> {
    if words == [] then [] else [Scaled(words[0], scale)] + ScaledWords(words[1..], scale)
  }

  function Decode(field: DeviceField, words: seq<Register>): ParsedValue
    requires |words| == field.Size()
  {
    match field
    case UintField(_, _, _) => NumberValue(words[0] as real)
    case BoolField(_, _) => BoolValue(words[0] == 1)
    case EnumField(_, _, options) => EnumValue(EnumName(options, words[0]), words[0])
    case DecimalField(_, _, scale, _) => NumberValue(Scaled(words[0], scale))
    case DecimalArrayField(_, _, _, scale) =>
      ListValue(ScaledWords(words, scale))
    case StringField(_, _, _) => TextValue(ReadAscii(WordBytes(words)))
    case SwapStringField(_, _, _) => TextValue(ReadAscii(LowFirstBytes(words)))
    case VersionField(_, _) => NumberValue(WordsValue(words) as real / 100.0)
    case SerialNumberField(_, _) => BigIntValue(WordsValue(words))
  }

  lemma {:induction false} WordBytesAt(words: seq<Register>, i: nat)
    requires i < |words|
    ensures WordBytes(words)[2 * i] == ToByte(words[i] / 256) == LowFirstBytes(words)[2 * i + 1]
    ensures WordBytes(words)[2 * i + 1] == ToByte(words[i] % 256) == LowFirstBytes(words)[2 * i]
  {
    hide ToByte;
    if i > 0 {
      WordBytesAt(words[1..], i - 1);
    }
  }

  lemma ReadsWord(words: seq<Register>, i: nat)
    requires i < |words|
    ensures ReadUint16(WordBytes(words), 2 * i) == Some(words[i])
  {
    hide ToByte, FromByte, WordBytes, Uint16Value;
    WordBytesAt(words, i);
    var high, low := WordBytes(words)[2 * i], WordBytes(words)[2 * i + 1];
    assert Uint16Bytes(words[i]) == [high, low];
    Uint16RoundTrip(words[i], high, low);
  }

  lemma SwapIsLowFirst(words: seq<Register>)
    ensures Swapped(WordBytes(words)) == LowFirstBytes(words)
  {
    hide ToByte, WordBytes, LowFirstBytes;
    var bytes, low := WordBytes(words), LowFirstBytes(words);
    forall k | 0 <= k < |bytes|
      ensures Swapped(bytes)[k] == low[k]
    {
      var i := k / 2;
      WordBytesAt(words, i);
      assert k == 2 * i || k == 2 * i + 1;
    }
  }

  lemma {:induction false} DecimalsOfWords(words: seq<Register>, index: nat, scale: nat)
    requires index <= |words|
    ensures ParseDecimals(WordBytes(words), index, |words|, scale) == Some(ScaledWords(words[index..], scale))
    decreases |words| - index
  {
    hide Scaled, WordBytes, ReadUint16;
    if index < |words| {
      ReadsWord(words, index);
      DecimalsOfWords(words, index + 1, scale);
      assert words[index..][1..] == words[index + 1..];
    }
  }

  /** Given exactly its registers, a decoder never fails and yields what the field means. */
  lemma ParseIsDecode(field: DeviceField, words: seq<Register>)
    requires |words| == field.Size()
    ensures Parse(field, WordBytes(words)) == Some(Decode(field, words))
  {
    hide Scaled, ReadUint16, WordBytes, LowFirstBytes, ReadAscii, Swapped, ToByte;
    forall i | 0 <= i < |words|
      ensures ReadUint16(WordBytes(words), 2 * i) == Some(words[i])
    {
      ReadsWord(words, i);
    }
    match field {
      case DecimalArrayField(_, _, _, scale) =>
        DecimalsOfWords(words, 0, scale);
        assert words[0..] == words;
      case SwapStringField(_, _, _) =>
        SwapIsLowFirst(words);
      case VersionField(_, _) =>
        assert ReadUint16(WordBytes(words), 2 * 1) == Some(words[1]);
        VersionWords(words);
      case SerialNumberField(_, _) =>
        assert ReadUint16(WordBytes(words), 2 * 1) == Some(words[1]);
        assert ReadUint16(WordBytes(words), 2 * 2) == Some(words[2]);
        assert ReadUint16(WordBytes(words), 2 * 3) == Some(words[3]);
        SerialWords(words);
      case StringField(_, _, _) =>
      case _ =>
        assert ReadUint16(WordBytes(words), 2 * 0) == Some(words[0]);
    }
  }

  lemma VersionWords(words: seq<Register>)
    requires |words| == 2
    ensures WordsValue(words) == (words[0] as nat) + (words[1] as nat) * 0x1_0000
  {
    assert WordsValue(words[1..]) == words[1];
  }

  lemma SerialWords(words: seq<Register>)
    requires |words| == 4
    ensures WordsValue(words) == (words[0] as nat) + (words[1] as nat) * 0x1_0000 +
                                 (words[2] as nat) * 0x1_0000_0000 + (words[3] as nat) * 0x1_0000_0000_0000
  {
    VersionWords(words[2..]);
    assert words[1..][1..] == words[2..];
  }

  // ---------------------------------------------------------------------
  // The values, in plain terms.

  /** Each further decimal place divides by ten. */
  lemma ScaledByTen(raw: nat, scale: nat)
    ensures Scaled(raw, 0) == raw as real
    ensures Scaled(raw, scale) == 10.0 * Scaled(raw, scale + 1)
  {
    TenTimesOver(raw as real, Power10(scale) as real);
  }

  lemma TenTimesOver(x: real, p: real)
    requires p != 0.0
    ensures x / p == 10.0 * (x / (10.0 * p))
  {
    var q := x / (10.0 * p);
    assert q * (10.0 * p) == x;
    assert (10.0 * q) * p == x;
  }

  /** `x` multiplied `places` times by ten is the raw word. */
  predicate HasPlaces(x: real, places: nat, raw: nat)
    decreases places
  {
    if places == 0 then x == raw as real else HasPlaces(10.0 * x, places - 1, raw)
  }

  lemma {:induction false} ScaledHasPlaces(raw: nat, scale: nat)
    ensures HasPlaces(Scaled(raw, scale), scale, raw)
  {
    if scale == 0 {
      ScaledByTen(raw, 0);
    } else {
      ScaledByTen(raw, scale - 1);
      ScaledHasPlaces(raw, scale - 1);
    }
  }

  lemma {:induction false} ScaledWordsAt(words: seq<Register>, scale: nat, i: nat)
    requires i < |words|
    ensures |ScaledWords(words, scale)| == |words| && HasPlaces(ScaledWords(words, scale)[i], scale, words[i])
  {
    hide Scaled;
    ScaledWordsLength(words, scale);
    ScaledHasPlaces(words[0], scale);
    if |words| > 1 {
      ScaledWordsAt(words[1..], scale, if i > 0 then i - 1 else 0);
    }
  }

  /** What each kind of numeric field makes of its registers. */
  lemma NumbersDecoded(field: DeviceField, words: seq<Register>)
    requires |words| == field.Size()
    ensures field.UintField? ==> Decode(field, words) == NumberValue(words[0] as real)
    ensures field.BoolField? ==> Decode(field, words) == BoolValue(words[0] == 1)
    ensures field.DecimalField? ==>
              Decode(field, words).NumberValue? && HasPlaces(Decode(field, words).number, field.scale, words[0])
    ensures field.DecimalArrayField? ==>
              Decode(field, words).ListValue? && |Decode(field, words).numbers| == |words| &&
              forall i :: 0 <= i < |words| ==> HasPlaces(Decode(field, words).numbers[i], field.scale, words[i])
    ensures field.VersionField? ==>
              Decode(field, words).NumberValue? &&
              100.0 * Decode(field, words).number == ((words[0] as nat) + (words[1] as nat) * 0x1_0000) as real
    ensures field.SerialNumberField? ==>
              Decode(field, words) ==
              BigIntValue((words[0] as nat) + (words[1] as nat) * 0x1_0000 +
                          (words[2] as nat) * 0x1_0000_0000 + (words[3] as nat) * 0x1_0000_0000_0000)
  {
    hide Scaled, HasPlaces, ScaledWords;
    match field {
      case DecimalField(_, _, scale, _) => ScaledHasPlaces(words[0], scale);
      case DecimalArrayField(_, _, _, scale) =>
        ScaledWordsLength(words, scale);
        forall i | 0 <= i < |words|
          ensures HasPlaces(ScaledWords(words, scale)[i], scale, words[i])
        {
          ScaledWordsAt(words, scale, i);
        }
      case VersionField(_, _) => VersionWords(words);
      case SerialNumberField(_, _) => SerialWords(words);
      case _ =>
    }
  }

  lemma {:induction false} ScaledWordsLength(words: seq<Register>, scale: nat)
    ensures |ScaledWords(words, scale)| == |words|
  {
    hide Scaled;
    if words != [] {
      ScaledWordsLength(words[1..], scale);
    }
  }

  /** Text is cut at the first NUL, and every byte before it loses its top bit. */
  lemma {:induction false} AsciiUpToNul(data: seq<Byte>)
    ensures var text := ReadAscii(data);
            |text| <= |data| &&
            (forall i :: 0 <= i < |text| ==> data[i] != 0 && text[i] == data[i] & 0x7F) &&
            (|text| < |data| ==> data[|text|] == 0)
  {
    if data != [] && data[0] != 0 {
      AsciiUpToNul(data[1..]);
      var rest := ReadAscii(data[1..]);
      var text := [data[0] & 0x7F] + rest;
      assert ReadAscii(data) == text;
      hide ReadAscii;
      forall i | 0 <= i < |text|
        ensures data[i] != 0 && text[i] == data[i] & 0x7F
      {
        assert i > 0 ==> text[i] == rest[i - 1] && data[i] == data[1..][i - 1];
      }
    }
  }

  /** A string field reads its registers high byte first, a swapped one low byte first. */
  lemma TextsDecoded(field: DeviceField, words: seq<Register>)
    requires |words| == field.Size() && (field.StringField? || field.SwapStringField?)
    ensures exists bytes: seq<Byte> ::
              |bytes| == 2 * |words| && Decode(field, words) == TextValue(ReadAscii(bytes)) &&
              forall i :: 0 <= i < |words| ==>
                ToByte(words[i] / 256) == bytes[if field.StringField? then 2 * i else 2 * i + 1] &&
                ToByte(words[i] % 256) == bytes[if field.StringField? then 2 * i + 1 else 2 * i]
  {
    hide ToByte, ReadAscii, WordBytes, LowFirstBytes;
    var bytes := if field.StringField? then WordBytes(words) else LowFirstBytes(words);
    forall i | 0 <= i < |words|
      ensures ToByte(words[i] / 256) == bytes[if field.StringField? then 2 * i else 2 * i + 1]
      ensures ToByte(words[i] % 256) == bytes[if field.StringField? then 2 * i + 1 else 2 * i]
    {
      WordBytesAt(words, i);
    }
  }

  /** The name of the first option with the value; without one, a name made of the value. */
  lemma {:induction false} EnumNameIsFirst(options: seq<EnumOption>, raw: nat)
    ensures (forall i :: 0 <= i < |options| ==> options[i].value != raw) ==>
              EnumName(options, raw) == "UNKNOWN_" + Digits(raw)
    ensures forall i: nat :: IsFirst(options, raw, i) ==> EnumName(options, raw) == options[i].name
  {
    hide Digits;
    if options != [] && options[0].value != raw {
      EnumNameIsFirst(options[1..], raw);
      assert forall i :: 0 < i < |options| ==> options[i] == options[1..][i - 1];
      forall i: nat | IsFirst(options, raw, i)
        ensures i > 0 && IsFirst(options[1..], raw, i - 1)
      {
        assert forall j :: 0 <= j < i - 1 ==> options[1..][j] == options[j + 1];
      }
    }
  }

  /** Option `i` is the first with that value. */
  ghost predicate IsFirst(options: seq<EnumOption>, raw: nat, i: nat) {
    i < |options| && options[i].value == raw && forall j :: 0 <= j < i ==> options[j].value != raw
  }

  lemma EnumsDecoded(field: DeviceField, words: seq<Register>)
    requires |words| == field.Size() && field.EnumField?
    ensures Decode(field, words) == EnumValue(EnumName(field.options, words[0]), words[0])
  {
  }

  /** Only numbers of uint and decimal fields with a range are ever refused: those outside it, its ends included. */
  lemma RangeMeans(field: DeviceField, words: seq<Register>)
    requires |words| == field.Size()
    ensures !field.IsInRange(Decode(field, words)) <==>
            (field.UintField? || field.DecimalField?) && field.range.Some? &&
            (Decode(field, words).number < field.range.value.low ||
             field.range.value.high < Decode(field, words).number)
  {
    hide Scaled;
  }
}
