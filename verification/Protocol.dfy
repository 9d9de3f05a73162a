/**
 One session object, from the end of its initialisation on, together with
 everything it races against: the device, the byte channel, write
 acknowledgements, timers and disconnects. A lost connection is replaced by a
 new session object over a new native session, so a system never restarts.

 Notifications carry no request id, so nothing on the wire says which request a
 reply belongs to. The device answers each request at most once with a proper
 reply, after any delay, and the channel cuts the reply bytes into any chunks.
 Besides these, any bytes may be notified at any time (`Notify`): noise, corrupted
 or overlong replies, AT control messages. What holds of every run does not look
 at the bytes; only attribution needs a clean channel.
 */
module Protocol {
  import opened Wrappers
  import opened Crc
  import opened Commands
  import opened Session

  /** Where a `perform` call stands: awaiting the write, or awaiting the response promise. */
  datatype Phase = Writing | Waiting

  datatype Call = Call(command: Command, phase: Phase)

  datatype System = System(
    session: Fields,
    next: Ticket,                        // the ticket of the next accepted call
    calls: map<Ticket, Call>,            // calls that have not returned
    returned: map<Ticket, Settlement>,   // what each finished call returned or threw
    asked: map<Ticket, Command>,         // every request handed to the transport
    open: set<Ticket>,                   // requests the device may still answer
    replies: map<Ticket, seq<Byte>>,     // the reply the device made to each request
    wire: seq<Byte>,                     // reply bytes not yet delivered
    disconnects: nat,                    // disconnect() calls so far
    disconnected: nat)                   // those that have completed

  datatype Event =
    | Perform(command: Command)
    | WriteAcknowledged(ticket: Ticket)
    | WriteFailed(ticket: Ticket)
    | Answer(ticket: Ticket, reply: seq<Byte>)
    | Deliver(count: nat)
    | Notify(data: seq<Byte>)
    | Timeout(ticket: Ticket)
    | Resume(ticket: Ticket)
    | Disconnect
    | Disconnected

  /** A reply the device may make: a valid response or an exception frame. */
  ghost predicate ProperReply(c: Command, reply: seq<Byte>) {
    IsValidResponse(c, reply) || IsExceptionResponse(c, reply)
  }

  /** The result that a proper reply stands for: an exception with code 5 says that the device is busy. */
  function Meaning(c: Command, reply: seq<Byte>): Settlement {
    if !IsExceptionResponse(c, reply) then Resolved(reply)
    else Rejected(if reply[2] == 5 then DeviceBusy(5) else ModbusError(reply[2]))
  }

  ghost predicate Enabled(s: System, e: Event) {
    match e
    case Perform(_) => true
    case WriteAcknowledged(t) => t in s.calls && s.calls[t].phase == Writing
    case WriteFailed(t) => t in s.calls && s.calls[t].phase == Writing
    case Answer(t, r) => t in s.open && t in s.asked && ProperReply(s.asked[t], r)
    case Deliver(n) => n <= |s.wire|
    case Notify(_) => true
    case Timeout(t) => t in s.session.timers
    case Resume(t) => t in s.calls && s.calls[t].phase == Waiting && t in s.session.settled
    case Disconnect => true
    case Disconnected => s.disconnected < s.disconnects
  }

  ghost function DoPerform(s: System, c: Command): System {
    if s.session.IsReady() then
      s.(session := s.session.BeginPerform(s.next, c),
         next := s.next + 1,
         calls := s.calls[s.next := Call(c, Writing)],
         asked := s.asked[s.next := c],
         open := s.open + {s.next})
    else s
  }

  ghost function DoAcknowledge(s: System, t: Ticket): System
    requires t in s.calls
  {
    s.(calls := s.calls[t := s.calls[t].(phase := Waiting)])
  }

  ghost function DoFailWrite(s: System, t: Ticket): System {
    s.(session := s.session.OnWriteFailed(),
       calls := s.calls - {t},
       returned := s.returned[t := Rejected(TransportError)])
  }

  ghost function DoAnswer(s: System, t: Ticket, r: seq<Byte>): System {
    s.(open := s.open - {t}, replies := s.replies[t := r], wire := s.wire + r)
  }

  ghost function DoDeliver(s: System, n: nat): System
    requires n <= |s.wire|
  {
    s.(session := s.session.HandleNotification(s.wire[..n]), wire := s.wire[n..])
  }

  ghost function DoNotify(s: System, data: seq<Byte>): System {
    s.(session := s.session.HandleNotification(data))
  }

  ghost function DoTimeout(s: System, t: Ticket): System {
    s.(session := s.session.OnTimeout(t))
  }

  ghost function DoResume(s: System, t: Ticket): System
    requires t in s.session.settled
  {
    s.(session := s.session.FinishPerform(s.session.settled[t]),
       calls := s.calls - {t},
       returned := s.returned[t := s.session.settled[t]])
  }

  ghost function DoDisconnect(s: System): System {
    s.(session := s.session.BeginDisconnect(), disconnects := s.disconnects + 1)
  }

  ghost function DoDisconnected(s: System): System {
    s.(session := s.session.EndDisconnect(), disconnected := s.disconnected + 1)
  }

  ghost function Apply(s: System, e: Event): System
    requires Enabled(s, e)
  {
    match e
    case Perform(c) => DoPerform(s, c)
    case WriteAcknowledged(t) => DoAcknowledge(s, t)
    case WriteFailed(t) => DoFailWrite(s, t)
    case Answer(t, r) => DoAnswer(s, t, r)
    case Deliver(n) => DoDeliver(s, n)
    case Notify(data) => DoNotify(s, data)
    case Timeout(t) => DoTimeout(s, t)
    case Resume(t) => DoResume(s, t)
    case Disconnect => DoDisconnect(s)
    case Disconnected => DoDisconnected(s)
  }

  /** No accepted `perform` call overlaps another. */
  ghost predicate Serialised(s: System, e: Event) {
    e.Perform? && s.session.IsReady() ==> s.calls == map[]
  }

  /** The only notifications that are no part of a reply are AT control messages. */
  predicate Clean(e: Event) {
    e.Notify? ==> IsAsciiControlMessage(e.data)
  }

  ghost predicate AllClean(events: seq<Event>) {
    forall i :: 0 <= i < |events| ==> Clean(events[i])
  }

  const START := System(INITIALISED, 0, map[], map[], map[], {}, map[], [], 0, 0)

  ghost predicate IsRun(s: System, events: seq<Event>)
    decreases |events|
  {
    events == [] || (Enabled(s, events[0]) && IsRun(Apply(s, events[0]), events[1..]))
  }

  ghost predicate IsSerialRun(s: System, events: seq<Event>)
    decreases |events|
  {
    events == [] ||
    (Enabled(s, events[0]) && Serialised(s, events[0]) && IsSerialRun(Apply(s, events[0]), events[1..]))
  }

  ghost function After(s: System, events: seq<Event>): System
    requires IsRun(s, events)
    decreases |events|
  {
    if events == [] then s else After(Apply(s, events[0]), events[1..])
  }

  lemma {:induction false} SerialRunIsRun(s: System, events: seq<Event>)
    requires IsSerialRun(s, events)
    ensures IsRun(s, events)
    decreases |events|
  {
    if events != [] {
      SerialRunIsRun(Apply(s, events[0]), events[1..]);
    }
  }

  // ---------------------------------------------------------------------
  // The invariant of serial runs.

  /**
   Waiter, command, timer and state appear and vanish together. Only a
   disconnect that completes late can move a waiting session to NotConnected.
   */
  ghost predicate Coupled(f: Fields, disconnected: bool) {
    f.pendingTimeout == f.pendingResponse &&
    match f.pendingResponse
    case None => f.currentCommand == None && f.responseBuffer == [] && f.timers == {} && f.state != PerformingCommand
    case Some(t) =>
      f.currentCommand.Some? && f.timers == {t} && t !in f.settled &&
      (f.state == PerformingCommand || (disconnected && f.state == NotConnected)) &&
      |f.responseBuffer| < ResponseSize(f.currentCommand.value)
  }

  ghost predicate Bookkeeping(s: System) {
    && (forall t, u :: t in s.calls && u in s.calls ==> t == u)
    && (forall t :: t in s.calls ==> t in s.asked && s.asked[t] == s.calls[t].command && t !in s.returned)
    && (forall t :: t in s.asked ==> t < s.next && (t in s.calls || t in s.returned))
    && (forall t :: t in s.session.settled ==> t in s.asked)
    && (forall t :: t in s.returned ==> t in s.asked)
    && (forall t :: t in s.open ==> t in s.asked && t !in s.replies)
    && (forall t :: t in s.replies ==> t in s.asked && ProperReply(s.asked[t], s.replies[t]))
    && (s.session.pendingResponse.Some? ==>
          s.session.pendingResponse.value in s.calls &&
          s.session.currentCommand == Some(s.asked[s.session.pendingResponse.value]))
  }

  /** Nothing that the device has said, or may still say, is outstanding. */
  ghost predicate Quiet(s: System) {
    s.open == {} && s.wire == []
  }

  ghost predicate Channel(s: System) {
    && (s.session.state == Ready ==> Quiet(s))
    && (forall t :: t in s.calls && t in s.session.settled && s.session.settled[t].Resolved? ==> Quiet(s))
    && (s.session.pendingResponse.Some? ==>
          var t := s.session.pendingResponse.value;
          || (s.open == {t} && s.wire == [] && s.session.responseBuffer == [])
          || (s.open == {} && s.wire != [] && t in s.replies &&
              s.session.responseBuffer + s.wire == s.replies[t]))
  }

  /** Outcomes that claim to be the device's word: a response, or a MODBUS exception. */
  predicate IsAnswer(outcome: Settlement) {
    outcome.Resolved? || outcome.error.DeviceBusy? || outcome.error.ModbusError?
  }

  /** A result is the reply to that very request, or an error that is no reply at all. */
  ghost predicate Honest(s: System, t: Ticket, outcome: Settlement) {
    IsAnswer(outcome) ==>
      t in s.asked && t in s.replies && outcome == Meaning(s.asked[t], s.replies[t])
  }

  ghost predicate Correlated(s: System) {
    && (forall t :: t in s.session.settled ==> Honest(s, t, s.session.settled[t]))
    && (forall t :: t in s.returned ==> Honest(s, t, s.returned[t]))
  }

  /** What every serial run keeps, whatever bytes are notified. */
  ghost predicate Core(s: System) {
    Coupled(s.session, s.disconnected > 0) && Bookkeeping(s)
  }

  ghost predicate Structure(s: System) {
    Core(s) && Channel(s)
  }

  /** What every serial run over a clean channel keeps. */
  ghost predicate Inv(s: System) {
    Structure(s) && Correlated(s)
  }

  // ---------------------------------------------------------------------
  // Every step keeps the core.

  /** The waiter's promise, and no other, is settled. */
  ghost predicate SettlesWaiter(f: Fields, after: Fields) {
    f.pendingResponse.Some? &&
    var t := f.pendingResponse.value;
    t in after.settled && after.settled == f.settled[t := after.settled[t]]
  }

  /** Any notification leaves the session coupled, and at most settles its waiter and lets go of it. */
  lemma NotificationKeepsCoupled(f: Fields, chunk: seq<Byte>, disconnected: bool)
    requires Coupled(f, disconnected)
    ensures var after := f.HandleNotification(chunk);
            Coupled(after, disconnected) &&
            if after.pendingResponse == f.pendingResponse
            then after.settled == f.settled && after.currentCommand == f.currentCommand
            else after.pendingResponse == None && SettlesWaiter(f, after)
  {
    hide HasValidCrc, IsAsciiControlMessage, Frame;
  }

  lemma NotificationKeepsCore(s: System, chunk: seq<Byte>, wire: seq<Byte>)
    requires Core(s)
    ensures Core(s.(session := s.session.HandleNotification(chunk), wire := wire))
  {
    NotificationKeepsCoupled(s.session, chunk, s.disconnected > 0);
    hide Fields.HandleNotification, ProperReply, Coupled;
  }

  lemma PerformKeepsCore(s: System, c: Command)
    requires Core(s) && Serialised(s, Perform(c))
    ensures Core(DoPerform(s, c))
  {
    hide ProperReply;
  }

  lemma AcknowledgeKeepsCore(s: System, t: Ticket)
    requires Core(s) && t in s.calls
    ensures Core(DoAcknowledge(s, t))
  {
    hide ProperReply;
  }

  lemma FailWriteKeepsCore(s: System, t: Ticket)
    requires Core(s) && t in s.calls
    ensures Core(DoFailWrite(s, t))
  {
    hide ProperReply;
  }

  lemma AnswerKeepsCore(s: System, t: Ticket, r: seq<Byte>)
    requires Core(s) && Enabled(s, Answer(t, r))
    ensures Core(DoAnswer(s, t, r))
  {
    hide ProperReply;
  }

  lemma TimeoutKeepsCore(s: System, t: Ticket)
    requires Core(s) && t in s.session.timers
    ensures Core(DoTimeout(s, t))
  {
    hide ProperReply;
  }

  lemma ResumeKeepsCore(s: System, t: Ticket)
    requires Core(s) && Enabled(s, Resume(t))
    ensures Core(DoResume(s, t))
  {
    hide ProperReply;
  }

  lemma DisconnectKeepsCore(s: System)
    requires Core(s)
    ensures Core(DoDisconnect(s))
  {
    hide ProperReply;
  }

  lemma DisconnectedKeepsCore(s: System)
    requires Core(s)
    ensures Core(DoDisconnected(s))
  {
    hide ProperReply;
  }

  /**
   Waiter, command, timer, buffer and state stay coupled for every order of chunks, write results,
   timeouts and disconnects.
   */
  lemma StepKeepsCore(s: System, e: Event)
    requires Core(s) && Enabled(s, e) && Serialised(s, e)
    ensures Core(Apply(s, e))
  {
    hide Core, DoPerform, DoAcknowledge, DoFailWrite, DoAnswer, DoTimeout, DoResume, DoDisconnect, DoDisconnected;
    match e {
      case Perform(c) => PerformKeepsCore(s, c);
      case WriteAcknowledged(t) => AcknowledgeKeepsCore(s, t);
      case WriteFailed(t) => FailWriteKeepsCore(s, t);
      case Answer(t, r) => AnswerKeepsCore(s, t, r);
      case Deliver(n) => NotificationKeepsCore(s, s.wire[..n], s.wire[n..]);
      case Notify(data) => NotificationKeepsCore(s, data, s.wire);
      case Timeout(t) => TimeoutKeepsCore(s, t);
      case Resume(t) => ResumeKeepsCore(s, t);
      case Disconnect => DisconnectKeepsCore(s);
      case Disconnected => DisconnectedKeepsCore(s);
    }
  }

  lemma {:induction false} RunKeepsCore(s: System, events: seq<Event>)
    requires Core(s) && IsSerialRun(s, events)
    ensures IsRun(s, events) && Core(After(s, events))
    decreases |events|
  {
    hide Core, Apply, Enabled, Serialised;
    if events != [] {
      StepKeepsCore(s, events[0]);
      RunKeepsCore(Apply(s, events[0]), events[1..]);
    }
  }

  // ---------------------------------------------------------------------
  // Every step on a clean channel keeps attribution.

  /** What one chunk of a proper reply does to the waiting session. */
  lemma ChunkOfReply(f: Fields, t: Ticket, reply: seq<Byte>, chunk: seq<Byte>, rest: seq<Byte>,
                     disconnected: bool)
    requires Coupled(f, disconnected) && f.pendingResponse == Some(t)
    requires ProperReply(f.currentCommand.value, reply)
    requires f.responseBuffer + chunk + rest == reply
    requires f.responseBuffer + chunk == reply <==> rest == []
    ensures var after := f.HandleNotification(chunk);
            Coupled(after, disconnected) &&
            if IsAsciiControlMessage(chunk) then
              after.state == Disconnecting && after.pendingResponse == None &&
              after.settled == f.settled[t := Rejected(BadConnection)]
            else if rest == [] then
              after.state == Ready && after.pendingResponse == None &&
              after.settled == f.settled[t := Meaning(f.currentCommand.value, reply)]
            else
              after == f.(responseBuffer := f.responseBuffer + chunk)
  {
    hide HasValidCrc, IsAsciiControlMessage, Frame;
    var c := f.currentCommand.value;
    var buffer := f.responseBuffer + chunk;
    assert buffer == reply[..|buffer|];
    if IsValidResponse(c, reply) {
      NoPrefixIsException(c, reply, |buffer|);
    }
  }

  /** What is known of a request stays known, so results already given stay honest. */
  lemma HonestyLasts(s: System, s': System)
    requires Correlated(s)
    requires s'.session.settled == s.session.settled && s'.returned == s.returned
    requires forall t :: t in s.asked ==> t in s'.asked && s'.asked[t] == s.asked[t]
    requires forall t :: t in s.replies ==> t in s'.replies && s'.replies[t] == s.replies[t]
    ensures Correlated(s')
  {
  }

  lemma NobodyListens(f: Fields, chunk: seq<Byte>)
    requires f.pendingResponse == None
    ensures f.HandleNotification(chunk) == f
  {
  }

  lemma NothingHeard(f: Fields)
    requires f.responseBuffer == []
    ensures f.HandleNotification([]) == f
  {
  }

  /** The session after a delivery, in the one case where somebody is waiting. */
  lemma DeliverToWaiter(s: System, n: nat, t: Ticket)
    requires Structure(s) && n <= |s.wire| && s.wire != []
    requires s.session.pendingResponse == Some(t)
    ensures Coupled(DoDeliver(s, n).session, s.disconnected > 0)
    ensures var f, after, chunk := s.session, DoDeliver(s, n).session, s.wire[..n];
            t in s.calls && t in s.asked && t in s.replies && s.open == {} &&
            if IsAsciiControlMessage(chunk) then
              after.state == Disconnecting && after.pendingResponse == None &&
              after.settled == f.settled[t := Rejected(BadConnection)]
            else if n == |s.wire| then
              after.state == Ready && after.pendingResponse == None &&
              after.settled == f.settled[t := Meaning(s.asked[t], s.replies[t])]
            else
              after == f.(responseBuffer := f.responseBuffer + chunk) &&
              after.responseBuffer + s.wire[n..] == s.replies[t]
  {
    hide ProperReply, Meaning, Fields.HandleNotification;
    var f, chunk, rest := s.session, s.wire[..n], s.wire[n..];
    assert chunk + rest == s.wire;
    assert f.responseBuffer + chunk + rest == s.replies[t];
    ChunkOfReply(f, t, s.replies[t], chunk, rest, s.disconnected > 0);
  }

  lemma DeliverToNobody(s: System, n: nat)
    requires Structure(s) && n <= |s.wire|
    requires s.session.pendingResponse == None || s.wire == []
    ensures DoDeliver(s, n).session == s.session
  {
    hide ProperReply, Meaning, Fields.HandleNotification;
    if s.session.pendingResponse.None? {
      NobodyListens(s.session, s.wire[..n]);
    } else {
      assert s.wire[..n] == [];
      NothingHeard(s.session);
    }
  }

  lemma DeliverKeepsStructure(s: System, n: nat)
    requires Structure(s) && n <= |s.wire|
    ensures Structure(DoDeliver(s, n))
  {
    hide ProperReply, Meaning, Fields.HandleNotification;
    if s.session.pendingResponse.None? || s.wire == [] {
      DeliverToNobody(s, n);
    } else {
      DeliverToWaiter(s, n, s.session.pendingResponse.value);
    }
  }

  lemma DeliverKeepsCorrelated(s: System, n: nat)
    requires Inv(s) && n <= |s.wire|
    ensures Correlated(DoDeliver(s, n))
  {
    hide ProperReply, Meaning, Structure, Fields.HandleNotification;
    if s.session.pendingResponse.None? || s.wire == [] {
      DeliverToNobody(s, n);
    } else {
      DeliverToWaiter(s, n, s.session.pendingResponse.value);
    }
  }

  lemma ControlMessageKeepsInv(s: System, text: seq<Byte>)
    requires Inv(s) && IsAsciiControlMessage(text)
    ensures Inv(DoNotify(s, text))
  {
    hide ProperReply, Meaning, IsAsciiControlMessage;
  }

  lemma PerformKeepsInv(s: System, c: Command)
    requires Inv(s) && Serialised(s, Perform(c))
    ensures Inv(DoPerform(s, c))
  {
    hide ProperReply, Honest;
    PerformKeepsCore(s, c);
    HonestyLasts(s, DoPerform(s, c));
    hide Correlated, Core;
  }

  lemma AcknowledgeKeepsInv(s: System, t: Ticket)
    requires Inv(s) && t in s.calls
    ensures Inv(DoAcknowledge(s, t))
  {
    hide ProperReply, Honest;
    HonestyLasts(s, DoAcknowledge(s, t));
    hide Correlated;
  }

  lemma FailWriteKeepsCorrelated(s: System, t: Ticket)
    requires Inv(s) && t in s.calls
    ensures Correlated(DoFailWrite(s, t))
  {
    hide Structure, ProperReply, Meaning;
  }

  lemma FailWriteKeepsInv(s: System, t: Ticket)
    requires Inv(s) && t in s.calls
    ensures Inv(DoFailWrite(s, t))
  {
    hide Honest;
    FailWriteKeepsCore(s, t);
    FailWriteKeepsCorrelated(s, t);
    hide Correlated, Bookkeeping;
  }

  lemma AnswerKeepsChannel(s: System, t: Ticket, r: seq<Byte>)
    requires Structure(s) && Enabled(s, Answer(t, r))
    ensures Channel(DoAnswer(s, t, r))
  {
    hide Coupled, ProperReply;
    ReplyIsNotEmpty(s.asked[t], r);
    assert t in s.open && [] + r == r;
    hide Bookkeeping;
  }

  lemma ReplyIsNotEmpty(c: Command, r: seq<Byte>)
    requires ProperReply(c, r)
    ensures r != []
  {
    hide Frame;
  }

  lemma AnswerKeepsInv(s: System, t: Ticket, r: seq<Byte>)
    requires Inv(s) && Enabled(s, Answer(t, r))
    ensures Inv(DoAnswer(s, t, r))
  {
    hide ProperReply, Honest;
    AnswerKeepsCore(s, t, r);
    AnswerKeepsChannel(s, t, r);
    HonestyLasts(s, DoAnswer(s, t, r));
    hide Correlated, Bookkeeping, Channel;
  }

  lemma TimeoutKeepsInv(s: System, t: Ticket)
    requires Inv(s) && t in s.session.timers
    ensures Inv(DoTimeout(s, t))
  {
    hide ProperReply, Meaning;
  }

  lemma ResumeKeepsInv(s: System, t: Ticket)
    requires Inv(s) && Enabled(s, Resume(t))
    ensures Inv(DoResume(s, t))
  {
    hide ProperReply, Meaning;
  }

  lemma DisconnectKeepsInv(s: System)
    requires Inv(s)
    ensures Inv(DoDisconnect(s))
  {
    hide ProperReply, Honest;
    HonestyLasts(s, DoDisconnect(s));
    hide Correlated;
  }

  lemma DisconnectedKeepsInv(s: System)
    requires Inv(s)
    ensures Inv(DoDisconnected(s))
  {
    hide ProperReply, Honest;
    HonestyLasts(s, DoDisconnected(s));
    hide Correlated;
  }

  lemma StepKeepsInv(s: System, e: Event)
    requires Inv(s) && Enabled(s, e) && Serialised(s, e) && Clean(e)
    ensures Inv(Apply(s, e))
  {
    hide Structure, Correlated, DoPerform, DoAcknowledge, DoFailWrite, DoAnswer, DoDeliver, DoNotify,
         DoTimeout, DoResume, DoDisconnect, DoDisconnected;
    match e {
      case Perform(c) => PerformKeepsInv(s, c);
      case WriteAcknowledged(t) => AcknowledgeKeepsInv(s, t);
      case WriteFailed(t) => FailWriteKeepsInv(s, t);
      case Answer(t, r) => AnswerKeepsInv(s, t, r);
      case Deliver(n) =>
        DeliverKeepsStructure(s, n);
        DeliverKeepsCorrelated(s, n);
      case Notify(text) => ControlMessageKeepsInv(s, text);
      case Timeout(t) => TimeoutKeepsInv(s, t);
      case Resume(t) => ResumeKeepsInv(s, t);
      case Disconnect => DisconnectKeepsInv(s);
      case Disconnected => DisconnectedKeepsInv(s);
    }
  }

  lemma {:induction false} RunKeepsInv(s: System, events: seq<Event>)
    requires Inv(s) && IsSerialRun(s, events) && AllClean(events)
    ensures IsRun(s, events) && Inv(After(s, events))
    decreases |events|
  {
    hide Inv, Apply, Enabled, Serialised, Clean;
    if events != [] {
      StepKeepsInv(s, events[0]);
      RunKeepsInv(Apply(s, events[0]), events[1..]);
    }
  }

  lemma StartInv()
    ensures Inv(START)
  {
  }
}
