/**
 Setters of a device model: src/devices/device.ts and `isAddressWritable` of
 src/core/types.ts.
 */
module Device {
  import opened Wrappers
  import opened Commands
  import opened Field
  import opened Payload

  datatype WritableRange = WritableRange(start: nat, endExclusive: nat)

  datatype SetterError = NotWritable | ExpectsEnumOption | ExpectsBoolean | ExpectsInteger | OutOfUint16

  datatype BluettiDevice = BluettiDevice(
    fields: seq<DeviceField>,
    writableRanges: seq<WritableRange>,
    pollingCommands: seq<Command>,
    packPollingCommands: seq<Command>,
    packNumMax: nat)
  {
    function FastPollingCommands(): seq<Command> {
      pollingCommands[..if |pollingCommands| < 1 then |pollingCommands| else 1]
    }

    function SlowPollingCommands(): seq<Command> {
      pollingCommands[|FastPollingCommands()|..]
    }

    predicate IsSettable(field: DeviceField, name: string) {
      field.name == name && IsAddressWritable(field.address, writableRanges)
    }

    predicate HasFieldSetter(name: string) {
      exists i :: 0 <= i < |fields| && IsSettable(fields[i], name)
    }
  }

  predicate IsAddressWritable(address: nat, ranges: seq<WritableRange>) {
    exists i :: 0 <= i < |ranges| && ranges[i].start <= address < ranges[i].endExclusive
  }

  /** The fast cycle polls the first declared window, if there is one. */
  lemma FastIsFirst(device: BluettiDevice)
    ensures device.FastPollingCommands() ==
            if device.pollingCommands == [] then [] else [device.pollingCommands[0]]
  {
  }

  /** A name can be set exactly when a field of that name lies inside a writable range, end excluded. */
  lemma SetterMeans(device: BluettiDevice, name: string)
    ensures device.HasFieldSetter(name) <==>
            exists i, j :: 0 <= i < |device.fields| && 0 <= j < |device.writableRanges| &&
              device.fields[i].name == name &&
              device.writableRanges[j].start <= device.fields[i].address < device.writableRanges[j].endExclusive
  {
  }

  /** A full cycle polls exactly the declared windows, in order, whatever the split. */
  lemma FullCycleIsComplete(device: BluettiDevice)
    ensures device.FastPollingCommands() + device.SlowPollingCommands() == device.pollingCommands
  {
  }

  // ---------------------------------------------------------------------
  // Building a setter.

  /** The first settable field of the name. */
  function FindSettable(device: BluettiDevice, fields: seq<DeviceField>, name: string): Option<DeviceField> {
    if fields == [] then None
    else if device.IsSettable(fields[0], name) then Some(fields[0])
    else FindSettable(device, fields[1..], name)
  }

  function OptionValue(options: seq<EnumOption>, name: string): Option<nat> {
    if options == [] then None
    else if options[0].name == name then Some(options[0].value)
    else OptionValue(options[1..], name)
  }

  function Encode(field: DeviceField, value: CommandValue): Result<int, SetterError> {
    match field
    case EnumField(_, _, options) =>
      (match value
       case NumberArgument(n) => Ok(n)
       case TextArgument(t) =>
         (match OptionValue(options, t) case Some(v) => Ok(v) case None => Err(ExpectsEnumOption))
       case BoolArgument(_) => Err(ExpectsEnumOption))
    case BoolField(_, _) =>
      if value.BoolArgument? then Ok(if value.flag then 1 else 0) else Err(ExpectsBoolean)
    case _ =>
      if value.NumberArgument? then Ok(value.number) else Err(ExpectsInteger)
  }

  function BuildSetterCommand(device: BluettiDevice, name: string, value: CommandValue): Result<Command, SetterError> {
    match FindSettable(device, device.fields, name)
    case None => Err(NotWritable)
    case Some(field) =>
      match Encode(field, value)
      case Err(e) => Err(e)
      case Ok(raw) =>
        if field.address <= 0xFFFF && 0 <= raw <= 0xFFFF
        then Ok(WriteSingleRegister(field.address, raw))
        else Err(OutOfUint16)
  }

  lemma {:induction false} FindSettableFinds(device: BluettiDevice, fields: seq<DeviceField>, name: string)
    ensures FindSettable(device, fields, name).Some? <==>
            exists i :: 0 <= i < |fields| && device.IsSettable(fields[i], name)
    ensures var found := FindSettable(device, fields, name);
            found.Some? ==> device.IsSettable(found.value, name) && found.value in fields
  {
    if fields != [] && !device.IsSettable(fields[0], name) {
      FindSettableFinds(device, fields[1..], name);
      assert forall i :: 0 < i < |fields| ==> fields[i] == fields[1..][i - 1];
    }
  }

  /** A setter writes only inside a writable range, only where a field of that name lives, and always fits the wire. */
  lemma SettersStayInRange(device: BluettiDevice, name: string, value: CommandValue)
    ensures var r := BuildSetterCommand(device, name, value);
            r.Ok? ==> r.value.WriteSingleRegister? && IsAddressWritable(r.value.address, device.writableRanges) &&
                      exists i :: 0 <= i < |device.fields| && device.fields[i].name == name &&
                                  device.fields[i].address == r.value.address
    ensures !device.HasFieldSetter(name) <==> BuildSetterCommand(device, name, value) == Err(NotWritable)
  {
    hide IsAddressWritable;
    FindSettableFinds(device, device.fields, name);
  }
}
