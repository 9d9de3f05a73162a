/**
 From a register to published text, back through an MQTT command to a write of
 the same register, and from device memory to decoded fields.
 */
module RoundTrip {
  import opened Wrappers
  import opened Crc
  import opened Commands
  import opened Field
  import opened Struct
  import opened Payload
  import opened Device
  import opened Session
  import opened Protocol
  import opened Chunking

  /** What a bridge does with a one-register field: publish it, and take the text as a command. */
  function Republish(device: BluettiDevice, field: DeviceField, raw: Register): Option<Result<Command, SetterError>>
    requires field.Size() == 1
  {
    match SerializeValue(Decode(field, [raw]))
    case None => None
    case Some(text) => Some(BuildSetterCommand(device, field.name, ParseCommandValue(text)))
  }

  /** The command that writes the register's own value. */
  function Rewrite(field: DeviceField, raw: Register): Command
    requires field.address <= 0xFFFF
  {
    WriteSingleRegister(field.address, raw)
  }

  ghost predicate Returns(device: BluettiDevice, field: DeviceField, raw: Register)
    requires field.Size() == 1 && field.address <= 0xFFFF
  {
    Republish(device, field, raw) == Some(Ok(Rewrite(field, raw)))
  }

  /** The setter search picks this field for its name. */
  ghost predicate Chosen(device: BluettiDevice, field: DeviceField) {
    FindSettable(device, device.fields, field.name) == Some(field) && field.address <= 0xFFFF
  }

  lemma UintReturns(device: BluettiDevice, field: DeviceField, raw: Register)
    requires field.UintField? && Chosen(device, field)
    ensures Returns(device, field, raw)
  {
    NumberRoundTrip(raw);
    hide Digits, ParseCommandValue, FindSettable;
  }

  /** A bool register survives exactly when it holds 0 or 1. */
  lemma BoolReturns(device: BluettiDevice, field: DeviceField, raw: Register)
    requires field.BoolField? && Chosen(device, field)
    ensures Returns(device, field, raw) <==> raw <= 1
  {
    assert ParseCommandValue(ON) == BoolArgument(true) && ParseCommandValue(OFF) == BoolArgument(false);
    hide ParseCommandValue, FindSettable;
  }

  /** Option names are the keys of an object, so no two are equal. */
  ghost predicate DistinctNames(options: seq<EnumOption>) {
    forall i, j :: 0 <= i < j < |options| ==> options[i].name != options[j].name
  }

  ghost predicate IsKnown(options: seq<EnumOption>, raw: nat) {
    exists i :: 0 <= i < |options| && options[i].value == raw
  }

  lemma {:induction false} EnumNameKnown(options: seq<EnumOption>, raw: nat)
    ensures IsKnown(options, raw) ==>
              exists i :: 0 <= i < |options| && options[i].value == raw && options[i].name == EnumName(options, raw)
    ensures !IsKnown(options, raw) ==> EnumName(options, raw) == "UNKNOWN_" + Digits(raw)
  {
    hide Digits;
    if options != [] && options[0].value != raw {
      EnumNameKnown(options[1..], raw);
      assert forall i :: 0 < i < |options| ==> options[i] == options[1..][i - 1];
      if IsKnown(options[1..], raw) {
        var i :| 0 <= i < |options[1..]| && options[1..][i].value == raw &&
                    options[1..][i].name == EnumName(options[1..], raw);
        assert options[i + 1].value == raw && options[i + 1].name == EnumName(options, raw);
      }
    }
  }

  lemma {:induction false} OptionValueOfName(options: seq<EnumOption>, i: nat)
    requires DistinctNames(options) && i < |options|
    ensures OptionValue(options, options[i].name) == Some(options[i].value)
  {
    if i > 0 {
      OptionValueOfName(options[1..], i - 1);
    }
  }

  lemma {:induction false} OptionValueIsKnown(options: seq<EnumOption>, name: string)
    ensures var v := OptionValue(options, name); v.Some? ==> IsKnown(options, v.value)
  {
    if options != [] {
      assert options[0].name == name ==> IsKnown(options, options[0].value);
      if options[0].name != name {
        OptionValueIsKnown(options[1..], name);
        assert forall i :: 0 <= i < |options| - 1 ==> options[1..][i] == options[i + 1];
      }
    }
  }

  /**
   An enum register survives exactly when its value is a known option whose name
   is neither ON nor OFF and does not read as a different integer. The values
   need not be distinct.
   */
  lemma EnumReturns(device: BluettiDevice, field: DeviceField, raw: Register)
    requires field.EnumField? && DistinctNames(field.options) && Chosen(device, field)
    ensures var name := EnumName(field.options, raw);
            Returns(device, field, raw) <==>
            IsKnown(field.options, raw) && name != ON && name != OFF &&
            (IsInteger(name) ==> IntegerValue(name) == raw)
  {
    var name := EnumName(field.options, raw);
    EnumNameKnown(field.options, raw);
    UnknownIsText(raw);
    OptionValueIsKnown(field.options, name);
    if IsKnown(field.options, raw) {
      var i :| 0 <= i < |field.options| && field.options[i].value == raw && field.options[i].name == name;
      OptionValueOfName(field.options, i);
    }
    hide Digits, FindSettable, EnumName, OptionValue, IsInteger, IntegerValue;
  }

  /** The LED mode of src/devices/enums.ts: its option OFF is published, but cannot be written back. */
  lemma LedModeOffIsLost(device: BluettiDevice, field: DeviceField)
    requires field.EnumField? && Chosen(device, field)
    requires field.options == [EnumOption("LOW", 1), EnumOption("HIGH", 2), EnumOption("SOS", 3), EnumOption("OFF", 4)]
    ensures Republish(device, field, 4) == Some(Err(ExpectsEnumOption))
  {
    assert field.options[3].value == 4;
    EnumNameKnown(field.options, 4);
    hide FindSettable, EnumName;
  }

  // ---------------------------------------------------------------------
  // The write takes effect and is read back.

  /** Device memory after a single-register write. */
  function Write(m: Memory, address: nat, value: Register): Memory {
    (a: nat) => if a == address then value else m(a)
  }

  /** `i` is the last field of its name that a window covers and accepts. */
  ghost predicate LastInWindow(fields: seq<DeviceField>, m: Memory, start: nat, count: nat, i: nat) {
    LastBinding(fields, start, Slice(m, start, count), if i < |fields| then fields[i].name else "", i)
  }

  /**
   Publish a register, send the text back as a command, let the device execute
   it on any memory, and read any window in which the field is the last of its
   name: the value decoded is the value first published.
   */
  lemma CommandIsReadBack(device: BluettiDevice, i: nat, raw: Register, m: Memory, start: nat, count: nat)
    requires i < |device.fields| && device.fields[i].Size() == 1 && device.fields[i].address <= 0xFFFF
    requires Returns(device, device.fields[i], raw)
    requires LastInWindow(device.fields, Write(m, device.fields[i].address, raw), start, count, i)
    ensures var field, after := device.fields[i], Write(m, device.fields[i].address, raw);
            var parsed := DecodeWindow(device.fields, after, start, count);
            field.name in parsed && parsed[field.name] == Decode(field, [raw])
  {
    var field, after := device.fields[i], Write(m, device.fields[i].address, raw);
    WindowBindsLast(device.fields, start, Slice(after, start, count), field.name, i);
    WindowOfMemory(device.fields, after, start, count);
    ValueIsWindowIndependent(after, field, start, count);
    assert Slice(after, field.address, 1) == [raw];
    hide Decode, DeviceField.Size, Window, DecodeWindow;
  }

  // ---------------------------------------------------------------------
  // Reading registers end to end.

  /** The reply of a device whose registers are `m`. */
  function MemoryReply(m: Memory, c: Command): seq<Byte>
    requires c.ReadHoldingRegisters?
  {
    ReadReply(WordBytes(Slice(m, c.startingAddress, c.quantity)))
  }

  lemma MemoryReplyIsProper(m: Memory, c: Command)
    requires c.ReadHoldingRegisters?
    ensures IsValidResponse(c, MemoryReply(m, c))
    ensures ParseResponse(c, MemoryReply(m, c)) == WordBytes(Slice(m, c.startingAddress, c.quantity))
  {
    hide ReadReply, WordBytes, IsValidResponse, ParseResponse;
    ReadReplyRoundTrip(c, WordBytes(Slice(m, c.startingAddress, c.quantity)));
  }

  lemma {:induction false} WordsOfWordBytes(words: seq<Register>)
    ensures Words(WordBytes(words)) == words
  {
    hide ToByte, FromByte, Uint16Value;
    if words != [] {
      WordsOfWordBytes(words[1..]);
      var bytes := WordBytes(words);
      Uint16RoundTrip(words[0], bytes[0], bytes[1]);
      assert bytes[2..] == WordBytes(words[1..]);
    }
  }

  /**
   A read from start to end: whatever the register memory, the command and the
   cuts of the reply, as long as no chunk reads as a control message, the session
   resolves and the payload decodes to exactly the fields of that memory.
   */
  lemma EndToEndRead(fields: seq<DeviceField>, m: Memory, c: Command, f: Fields, t: Ticket, chunks: seq<seq<Byte>>)
    requires c.ReadHoldingRegisters? && Flatten(chunks) == MemoryReply(m, c) && !HasControlMessage(chunks)
    requires f.IsReady() && Coupled(f, false) && f.pendingResponse == None && t !in f.settled
    ensures var g := DeliverAll(f.BeginPerform(t, c), chunks);
            t in g.settled && g.settled[t].Resolved? && g.state == Ready &&
            IsValidResponse(c, g.settled[t].response) &&
            var data := ParseResponse(c, g.settled[t].response);
            |data| == 2 * c.quantity &&
            Window(fields, c.startingAddress, Words(data)) == DecodeWindow(fields, m, c.startingAddress, c.quantity)
  {
    hide HasValidCrc, IsAsciiControlMessage, HasControlMessage, DeliverAll, MemoryReply, Window, DecodeWindow,
         WordBytes, Words, Frame, ParseResponse;
    var reply, words := MemoryReply(m, c), Slice(m, c.startingAddress, c.quantity);
    MemoryReplyIsProper(m, c);
    WordsOfWordBytes(words);
    WindowOfMemory(fields, m, c.startingAddress, c.quantity);
    var begun := f.BeginPerform(t, c);
    assert begun.responseBuffer + Flatten(chunks) == reply;
    AnyChunking(begun, t, reply, chunks);
    ResponseMeansItself(c, reply);
  }
}
