/**
 The declarative register schema and its windowed decoder: src/devices/struct.ts.
 */
module Struct {
  import opened Wrappers
  import opened Crc
  import opened Commands
  import opened Field

  datatype StructError = RangeError

  type ParsedFieldMap = map<string, ParsedValue>

  // ---------------------------------------------------------------------
  // Bytes as registers.

  function Words(data: seq<Byte>): (words: seq<Register>)
    requires |data| % 2 == 0
    ensures |words| == |data| / 2
  {
    if data == [] then [] else [Uint16Value(data[0], data[1])] + Words(data[2..])
  }

  lemma {:induction false} WordsRoundTrip(data: seq<Byte>)
    requires |data| % 2 == 0
    ensures WordBytes(Words(data)) == data
  {
    hide ToByte, FromByte, Uint16Value;
    if data != [] {
      WordsRoundTrip(data[2..]);
      Uint16RoundTrip(Uint16Value(data[0], data[1]), data[0], data[1]);
      assert data == [data[0], data[1]] + data[2..];
    }
  }

  lemma {:induction false} BytesOfSlice(words: seq<Register>, lo: nat, hi: nat)
    requires lo <= hi <= |words|
    ensures WordBytes(words)[2 * lo..2 * hi] == WordBytes(words[lo..hi])
    decreases hi
  {
    hide ToByte, Uint16Bytes;
    if hi == 0 {
    } else if lo > 0 {
      BytesOfSlice(words[1..], lo - 1, hi - 1);
      assert words[1..][lo - 1..hi - 1] == words[lo..hi];
      assert WordBytes(words)[2 * lo..2 * hi] == WordBytes(words[1..])[2 * (lo - 1)..2 * (hi - 1)];
    } else {
      BytesOfSlice(words[1..], 0, hi - 1);
      assert words[..hi] == [words[0]] + words[1..][..hi - 1];
      assert WordBytes(words)[..2 * hi] == Uint16Bytes(words[0]) + WordBytes(words[1..])[..2 * (hi - 1)];
    }
  }

  // ---------------------------------------------------------------------
  // The specification of a decoded window.

  predicate Covered(field: DeviceField, start: nat, count: nat) {
    start <= field.address && field.address + field.Size() <= start + count
  }

  /** A field is covered when it starts in the window, or at its end, and each of its registers lies in it. */
  lemma CoveredMeans(field: DeviceField, start: nat, count: nat)
    ensures Covered(field, start, count) <==>
            start <= field.address <= start + count &&
            forall a :: field.address <= a < field.address + field.Size() ==> InWindow(a, start, count)
  {
    if field.Size() > 0 {
      assert InWindow(field.address + field.Size() - 1, start, count) <==>
             start <= field.address + field.Size() - 1 < start + count;
    }
  }

  predicate InWindow(a: int, start: nat, count: nat) {
    start <= a < start + count
  }

  /** The value of a covered field in a window of registers. */
  function ValueIn(field: DeviceField, start: nat, words: seq<Register>): ParsedValue
    requires Covered(field, start, |words|)
  {
    Decode(field, words[field.address - start..field.address - start + field.Size()])
  }

  /** Fully covered, and accepted by its plausibility range. */
  predicate Binds(field: DeviceField, start: nat, words: seq<Register>) {
    Covered(field, start, |words|) && field.IsInRange(ValueIn(field, start, words))
  }

  /** The fields in order, each binding its name over earlier ones. */
  function Window(fields: seq<DeviceField>, start: nat, words: seq<Register>): ParsedFieldMap {
    if fields == [] then map[]
    else
      var before, field := Window(fields[..|fields| - 1], start, words), fields[|fields| - 1];
      if Binds(field, start, words) then before[field.name := ValueIn(field, start, words)] else before
  }

  lemma WindowOfNone(start: nat, words: seq<Register>)
    ensures Window([], start, words) == map[]
  {
  }

  /** One more field: what a pass of the parsing loop must do. */
  lemma WindowStep(fields: seq<DeviceField>, i: nat, start: nat, words: seq<Register>)
    requires i < |fields|
    ensures Window(fields[..i + 1], start, words) ==
            var before, field := Window(fields[..i], start, words), fields[i];
            if Binds(field, start, words) then before[field.name := ValueIn(field, start, words)] else before
  {
    hide Binds, ValueIn;
    assert fields[..i + 1][..i] == fields[..i];
  }

  /** `i` is the last field of that name that binds. */
  ghost predicate LastBinding(fields: seq<DeviceField>, start: nat, words: seq<Register>, name: string, i: nat) {
    && i < |fields| && fields[i].name == name && Binds(fields[i], start, words)
    && forall j :: i < j < |fields| && fields[j].name == name ==> !Binds(fields[j], start, words)
  }

  /** A name is bound exactly when some field of that name binds. */
  lemma {:induction false} WindowBinds(fields: seq<DeviceField>, start: nat, words: seq<Register>, name: string)
    ensures name in Window(fields, start, words) <==>
            exists i :: 0 <= i < |fields| && fields[i].name == name && Binds(fields[i], start, words)
  {
    hide Binds, ValueIn;
    if fields != [] {
      WindowBinds(fields[..|fields| - 1], start, words, name);
      BindsExistsSnoc(fields, start, words, name);
    }
  }

  /** It is bound to the value of the last of them. */
  lemma {:induction false} WindowBindsLast(
    fields: seq<DeviceField>, start: nat, words: seq<Register>, name: string, i: nat
  )
    requires LastBinding(fields, start, words, name, i)
    ensures name in Window(fields, start, words)
    ensures Window(fields, start, words)[name] == ValueIn(fields[i], start, words)
    decreases |fields|
  {
    hide ValueIn, Covered, DeviceField.IsInRange;
    var n := |fields| - 1;
    if i < n {
      assert fields[n].name == name ==> !Binds(fields[n], start, words);
      WindowBindsLast(fields[..n], start, words, name, i);
    }
  }

  lemma BindsExistsSnoc(fields: seq<DeviceField>, start: nat, words: seq<Register>, name: string)
    requires fields != []
    ensures var n := |fields| - 1;
            (exists i :: 0 <= i < |fields| && fields[i].name == name && Binds(fields[i], start, words)) <==>
            (exists i :: 0 <= i < n && fields[..n][i].name == name && Binds(fields[..n][i], start, words)) ||
            (fields[n].name == name && Binds(fields[n], start, words))
  {
    hide Binds;
    var n := |fields| - 1;
    if i :| 0 <= i < |fields| && fields[i].name == name && Binds(fields[i], start, words) {
      assert i < n ==> fields[..n][i] == fields[i];
    }
    if i :| 0 <= i < n && fields[..n][i].name == name && Binds(fields[..n][i], start, words) {
      assert fields[i] == fields[..n][i];
    }
  }

  // ---------------------------------------------------------------------
  // The schema object.

  class DeviceStruct {
    var fields: seq<DeviceField>

    constructor ()
      ensures fields == []
    {
      fields := [];
    }

    /** Each `add…Field` method constructs its field and pushes it. */
    method Add(field: DeviceField)
      modifies this
      ensures fields == old(fields) + [field]
    {
      fields := fields + [field];
    }

    method AddMany(more: seq<DeviceField>)
      modifies this
      ensures fields == old(fields) + more
    {
      for i := 0 to |more|
        invariant fields == old(fields) + more[..i]
      {
        fields := fields + [more[i]];
        assert more[..i + 1] == more[..i] + [more[i]];
      }
      assert more[..|more|] == more;
    }

    /** Fails only for an odd length: no covered field ever reads outside the data. */
    method Parse(startingAddress: nat, data: seq<Byte>) returns (r: Result<ParsedFieldMap, StructError>)
      ensures |data| % 2 != 0 ==> r == Err(RangeError)
      ensures |data| % 2 == 0 ==> r == Ok(Window(fields, startingAddress, Words(data)))
    {
      if |data| % 2 != 0 {
        return Err(RangeError);
      }
      hide Window, ValueIn, DeviceField.IsInRange, DeviceField.Size, Field.Parse, Words;
      var registerCount := |data| / 2;
      var endExclusive := startingAddress + registerCount;
      var parsed: ParsedFieldMap := map[];
      ghost var words := Words(data);
      WindowOfNone(startingAddress, words);
      for i := 0 to |fields|
        invariant |words| == registerCount && parsed == Window(fields[..i], startingAddress, words)
      {
        var field := fields[i];
        WindowStep(fields, i, startingAddress, words);
        var fieldEnd := field.address + field.Size();
        if field.address < startingAddress || fieldEnd > endExclusive {
          continue;
        }
        CoveredSlice(field, startingAddress, data, field.address - startingAddress, field.Size());
        var byteStart := (field.address - startingAddress) * 2;
        var byteEnd := byteStart + field.Size() * 2;
        var value := Field.Parse(field, data[byteStart..byteEnd]);
        assert value == Some(ValueIn(field, startingAddress, words));
        if value.None? {
          return Err(RangeError);
        }
        if field.IsInRange(value.value) {
          parsed := parsed[field.name := value.value];
        }
      }
      assert fields[..|fields|] == fields;
      return Ok(parsed);
    }
  }

  lemma CoveredSlice(field: DeviceField, start: nat, data: seq<Byte>, k: nat, size: nat)
    requires |data| % 2 == 0 && Covered(field, start, |data| / 2)
    requires k == field.address - start && size == field.Size()
    ensures k * 2 + size * 2 <= |data|
    ensures Field.Parse(field, data[k * 2..k * 2 + size * 2]) == Some(ValueIn(field, start, Words(data)))
  {
    hide Field.Parse, Decode, WordBytes, Words;
    var words := Words(data);
    WordsRoundTrip(data);
    BytesOfSlice(words, k, k + size);
    ParseIsDecode(field, words[k..k + size]);
    assert data[k * 2..k * 2 + size * 2] == data[2 * k..2 * (k + size)];
  }

  // ---------------------------------------------------------------------
  // Windows over one register memory.

  type Memory = nat -> Register

  function Slice(m: Memory, start: nat, count: nat): (words: seq<Register>)
    ensures |words| == count
  {
    seq(count, i requires 0 <= i < count => m(start + i))
  }

  /** A field decoded straight from memory, with no window in sight. */
  function DecodeAt(m: Memory, field: DeviceField): ParsedValue {
    Decode(field, Slice(m, field.address, field.Size()))
  }

  /** Every window that covers a field decodes it alike. */
  lemma ValueIsWindowIndependent(m: Memory, field: DeviceField, start: nat, count: nat)
    requires Covered(field, start, count)
    ensures ValueIn(field, start, Slice(m, start, count)) == DecodeAt(m, field)
    ensures Binds(field, start, Slice(m, start, count)) <==> field.IsInRange(DecodeAt(m, field))
  {
    hide Decode, DeviceField.Size, DeviceField.IsInRange;
    var k := field.address - start;
    assert Slice(m, start, count)[k..k + field.Size()] == Slice(m, field.address, field.Size());
  }

  /** The fields bound by a read, decoded directly from memory. */
  function DecodeWindow(fields: seq<DeviceField>, m: Memory, start: nat, count: nat): ParsedFieldMap {
    if fields == [] then map[]
    else
      var before, field := DecodeWindow(fields[..|fields| - 1], m, start, count), fields[|fields| - 1];
      if Covered(field, start, count) && field.IsInRange(DecodeAt(m, field))
      then before[field.name := DecodeAt(m, field)]
      else before
  }

  lemma {:induction false} WindowOfMemory(fields: seq<DeviceField>, m: Memory, start: nat, count: nat)
    ensures Window(fields, start, Slice(m, start, count)) == DecodeWindow(fields, m, start, count)
  {
    hide Covered, ValueIn, DecodeAt, DeviceField.IsInRange;
    if fields != [] {
      var field := fields[|fields| - 1];
      WindowOfMemory(fields[..|fields| - 1], m, start, count);
      if Covered(field, start, count) {
        ValueIsWindowIndependent(m, field, start, count);
      }
    }
  }
}
