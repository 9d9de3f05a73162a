/**
 One device connection: `DeviceSession` of src/bluetooth/device-session.ts.

 A promise is named by the ticket of the `perform` call that created it, and so
 is the timer it starts. Code between two awaits runs as one atomic step; each
 step is a function on the session's fields, and the class below performs the
 same updates in place.
 */
module Session {
  import opened Wrappers
  import opened Crc
  import opened Commands

  type Ticket = nat

  datatype State = NotConnected | Connected | Ready | PerformingCommand | CommandErrorWait | Disconnecting

  datatype SessionError =
    | BadConnection
    | CommandTimeout
    | DeviceBusy(busyCode: Byte)
    | ModbusError(code: Byte)
    | ParseError
    | TransportError

  datatype Settlement = Resolved(response: seq<Byte>) | Rejected(error: SessionError)

  /**
   The mutable fields, followed by what the JavaScript runtime keeps for them:
   the timers still armed and the promises already settled.
   */
  datatype Fields = Fields(
    state: State,
    currentCommand: Option<Command>,
    responseBuffer: seq<Byte>,
    pendingResponse: Option<Ticket>,
    pendingTimeout: Option<Ticket>,
    timers: set<Ticket>,
    settled: map<Ticket, Settlement>)
  {
    predicate IsReady() {
      state == Ready || state == PerformingCommand
    }

    function ClearPendingState(): Fields {
      this.(timers := if pendingTimeout.Some? then timers - {pendingTimeout.value} else timers,
            pendingTimeout := None,
            pendingResponse := None,
            currentCommand := None,
            responseBuffer := [])
    }

    /** Settling a promise a second time has no effect. */
    function Settle(outcome: Settlement): Fields {
      if pendingResponse.Some? && pendingResponse.value !in settled
      then this.(settled := settled[pendingResponse.value := outcome])
      else this
    }

    function RejectPending(error: SessionError): Fields {
      Settle(Rejected(error)).ClearPendingState()
    }

    function ResolvePending(response: seq<Byte>): Fields {
      Settle(Resolved(response)).ClearPendingState()
    }

    /** `perform` up to its first await: the waiter is registered before the write. */
    function BeginPerform(ticket: Ticket, command: Command): Fields {
      this.(state := PerformingCommand,
            currentCommand := Some(command),
            responseBuffer := [],
            pendingResponse := Some(ticket),
            pendingTimeout := Some(ticket),
            timers := timers + {ticket})
    }

    function OnTimeout(ticket: Ticket): Fields {
      this.(timers := timers - {ticket}, state := CommandErrorWait).RejectPending(CommandTimeout)
    }

    function OnWriteFailed(): Fields {
      this.(state := Disconnecting).RejectPending(TransportError)
    }

    /** `perform` after the response promise has settled. */
    function FinishPerform(outcome: Settlement): Fields {
      if outcome.Resolved? then this.(state := Ready).ClearPendingState() else ClearPendingState()
    }

    function HandleNotification(data: seq<Byte>): Fields {
      if pendingResponse.None? || currentCommand.None? then this
      else if IsAsciiControlMessage(data) then RejectPending(BadConnection).(state := Disconnecting)
      else
        var command := currentCommand.value;
        var buffer := responseBuffer + data;
        var received := this.(responseBuffer := buffer);
        if IsExceptionResponse(command, buffer) then
          received.RejectPending(ModbusException(buffer[2])).(state := Ready)
        else if |buffer| == ResponseSize(command) then
          if IsValidResponse(command, buffer)
          then received.ResolvePending(buffer).(state := Ready)
          else received.RejectPending(ParseError).(state := CommandErrorWait)
        else if |buffer| > ResponseSize(command) then
          received.RejectPending(ParseError).(state := CommandErrorWait)
        else received
    }

    function BeginDisconnect(): Fields {
      ClearPendingState().(state := Disconnecting)
    }

    function EndDisconnect(): Fields {
      this.(state := NotConnected)
    }
  }

  /** `buildModbusException`: code 5 is the busy acknowledgement. */
  function ModbusException(code: Byte): SessionError {
    if code == 5 then DeviceBusy(code) else ModbusError(code)
  }

  /** The bytes of "AT+NAME?\r" and "AT+ADV?\r". */
  const AT_NAME: seq<Byte> := [0x41, 0x54, 0x2B, 0x4E, 0x41, 0x4D, 0x45, 0x3F, 0x0D]
  const AT_ADV: seq<Byte> := [0x41, 0x54, 0x2B, 0x41, 0x44, 0x56, 0x3F, 0x0D]

  /** The runtime's ASCII decoding drops the top bit of every byte. */
  function Ascii(data: seq<Byte>): (text: seq<Byte>)
    ensures |text| == |data|
  {
    seq(|data|, i requires 0 <= i < |data| => data[i] & 0x7F)
  }

  predicate IsAsciiControlMessage(data: seq<Byte>) {
    Ascii(data) == AT_NAME || Ascii(data) == AT_ADV
  }

  function CharByte(c: char): Byte
    requires c < 128 as char
  {
    (c as int) as Byte
  }

  /** A control message is one of two texts, read without the top bits of its bytes. */
  lemma ControlMessages(data: seq<Byte>)
    ensures IsAsciiControlMessage(data) <==> ReadsAs(data, "AT+NAME?\r") || ReadsAs(data, "AT+ADV?\r")
  {
    ControlTexts();
    hide AT_NAME, AT_ADV;
  }

  predicate ReadsAs(data: seq<Byte>, text: string) {
    |data| == |text| && forall i :: 0 <= i < |text| ==> text[i] < 128 as char && data[i] & 0x7F == CharByte(text[i])
  }

  lemma ControlTexts()
    ensures |AT_NAME| == 9 && forall i :: 0 <= i < 9 ==> AT_NAME[i] == CharByte("AT+NAME?\r"[i])
    ensures |AT_ADV| == 8 && forall i :: 0 <= i < 8 ==> AT_ADV[i] == CharByte("AT+ADV?\r"[i])
  {
    hide CharByte;
    LetterBytes();
    SignBytes();
  }

  lemma LetterBytes()
    ensures CharByte('A') == 0x41 && CharByte('D') == 0x44 && CharByte('E') == 0x45 && CharByte('M') == 0x4D
    ensures CharByte('N') == 0x4E && CharByte('T') == 0x54 && CharByte('V') == 0x56
  {
  }

  lemma SignBytes()
    ensures CharByte('+') == 0x2B && CharByte('?') == 0x3F && CharByte('\r') == 0x0D
  {
  }

  /** The states that a step leaves a session in, where it does not depend on what is heard. */
  lemma StatesSet(f: Fields, t: Ticket, c: Command, o: Settlement)
    ensures !INITIAL.IsReady() && INITIAL.state == NotConnected && INITIALISED.state == Ready
    ensures f.BeginPerform(t, c).state == PerformingCommand && f.OnTimeout(t).state == CommandErrorWait
    ensures f.OnWriteFailed().state == Disconnecting && f.BeginDisconnect().state == Disconnecting
    ensures f.EndDisconnect().state == NotConnected
    ensures f.FinishPerform(o).state == if o.Resolved? then Ready else f.state
    ensures f.IsReady() <==> f.state == Ready || f.state == PerformingCommand
    ensures f.BeginPerform(t, c).responseBuffer == [] && t in f.BeginPerform(t, c).timers
    ensures t !in f.OnTimeout(t).timers
    ensures f.pendingResponse.Some? && f.pendingResponse.value !in f.settled ==>
              f.OnTimeout(t).settled[f.pendingResponse.value] == Rejected(CommandTimeout) &&
              f.OnWriteFailed().settled[f.pendingResponse.value] == Rejected(TransportError)
  {
  }

  /** The state after a notification is told by what became of the waiter. */
  lemma HeardState(f: Fields, t: Ticket, data: seq<Byte>)
    requires f.pendingResponse == Some(t) && t !in f.settled
    ensures var g := f.HandleNotification(data);
            if t !in g.settled then g.state == f.state
            else match g.settled[t]
              case Resolved(_) => g.state == Ready
              case Rejected(ParseError) => g.state == CommandErrorWait
              case Rejected(BadConnection) => g.state == Disconnecting
              case Rejected(_) => g.state == Ready
  {
    hide IsExceptionResponse, IsValidResponse, IsAsciiControlMessage;
  }

  const INITIAL := Fields(NotConnected, None, [], None, None, {}, map[])

  /** The session of a connection that `connectAndInitialize` has just completed. */
  const INITIALISED := INITIAL.(state := Ready)

  class DeviceSession {
    var state: State
    var currentCommand: Option<Command>
    var responseBuffer: seq<Byte>
    var pendingResponse: Option<Ticket>
    var pendingTimeout: Option<Ticket>
    var timers: set<Ticket>
    var settled: map<Ticket, Settlement>

    ghost function Contents(): Fields
      reads this
    {
      Fields(state, currentCommand, responseBuffer, pendingResponse, pendingTimeout, timers, settled)
    }

    constructor ()
      ensures Contents() == INITIAL
    {
      state := NotConnected;
      currentCommand := None;
      responseBuffer := [];
      pendingResponse := None;
      pendingTimeout := None;
      timers := {};
      settled := map[];
    }

    method ClearPendingState()
      modifies this
      ensures Contents() == old(Contents().ClearPendingState())
    {
      if pendingTimeout.Some? {
        timers := timers - {pendingTimeout.value};
        pendingTimeout := None;
      }
      pendingResponse := None;
      currentCommand := None;
      responseBuffer := [];
    }

    method Settle(outcome: Settlement)
      modifies this
      ensures Contents() == old(Contents().Settle(outcome))
    {
      if pendingResponse.Some? && pendingResponse.value !in settled {
        settled := settled[pendingResponse.value := outcome];
      }
    }

    method RejectPending(error: SessionError)
      modifies this
      ensures Contents() == old(Contents().RejectPending(error))
    {
      Settle(Rejected(error));
      ClearPendingState();
    }

    method ResolvePending(response: seq<Byte>)
      modifies this
      ensures Contents() == old(Contents().ResolvePending(response))
    {
      Settle(Resolved(response));
      ClearPendingState();
    }

    /** `false` stands for the BadConnectionError of a session that is not ready. */
    method BeginPerform(ticket: Ticket, command: Command) returns (accepted: bool)
      modifies this
      ensures accepted == old(Contents().IsReady())
      ensures Contents() == if accepted then old(Contents().BeginPerform(ticket, command)) else old(Contents())
    {
      if state != Ready && state != PerformingCommand {
        return false;
      }
      state := PerformingCommand;
      currentCommand := Some(command);
      responseBuffer := [];
      pendingResponse := Some(ticket);
      pendingTimeout := Some(ticket);
      timers := timers + {ticket};
      return true;
    }

    method OnTimeout(ticket: Ticket)
      modifies this
      ensures Contents() == old(Contents().OnTimeout(ticket))
    {
      timers := timers - {ticket};
      state := CommandErrorWait;
      RejectPending(CommandTimeout);
    }

    method OnWriteFailed()
      modifies this
      ensures Contents() == old(Contents().OnWriteFailed())
    {
      state := Disconnecting;
      Settle(Rejected(TransportError));
      ClearPendingState();
    }

    method FinishPerform(outcome: Settlement)
      modifies this
      ensures Contents() == old(Contents().FinishPerform(outcome))
    {
      if outcome.Resolved? {
        state := Ready;
      }
      ClearPendingState();
    }

    method HandleNotification(data: seq<Byte>)
      modifies this
      ensures Contents() == old(Contents().HandleNotification(data))
    {
      if pendingResponse.None? || currentCommand.None? {
        return;
      }
      if IsAsciiControlMessage(data) {
        RejectPending(BadConnection);
        state := Disconnecting;
        return;
      }
      var command := currentCommand.value;
      responseBuffer := responseBuffer + data;
      if IsExceptionResponse(command, responseBuffer) {
        RejectPending(ModbusException(responseBuffer[2]));
        state := Ready;
        return;
      }
      if |responseBuffer| == ResponseSize(command) {
        if IsValidResponse(command, responseBuffer) {
          ResolvePending(responseBuffer);
          state := Ready;
        } else {
          RejectPending(ParseError);
          state := CommandErrorWait;
        }
        return;
      }
      if |responseBuffer| > ResponseSize(command) {
        RejectPending(ParseError);
        state := CommandErrorWait;
      }
    }

    method BeginDisconnect()
      modifies this
      ensures Contents() == old(Contents().BeginDisconnect())
    {
      ClearPendingState();
      state := Disconnecting;
    }

    method EndDisconnect()
      modifies this
      ensures Contents() == old(Contents().EndDisconnect())
    {
      state := NotConnected;
    }
  }
}
