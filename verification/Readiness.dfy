/**
 Exactly when a session that is not ready can become ready again: the comments
 promise that a failed command can be retried, and the code decides otherwise.
 */
module Readiness {
  import opened Wrappers
  import opened Crc
  import opened Commands
  import opened Session
  import opened Protocol
  import opened Settlement
  import Ambiguity

  /** A waiter whose bytes so far begin some proper reply. */
  ghost predicate Completable(f: Fields) {
    f.pendingResponse.Some? && f.currentCommand.Some? &&
    exists reply :: ProperReply(f.currentCommand.value, reply) && f.responseBuffer <= reply
  }

  /** A call that has its response but has not returned it. */
  ghost predicate HoldsResponse(s: System) {
    exists t :: t in s.calls && t in s.session.settled && s.session.settled[t].Resolved?
  }

  ghost predicate Down(s: System) {
    !s.session.IsReady() && !Completable(s.session) && !HoldsResponse(s)
  }

  // ---------------------------------------------------------------------
  // Failures take the session down.

  /**
   Whatever event settles a waiter with an error that is not the device's word,
   takes the session down: timeout, failed write, control message, and every
   reply that is unreadable or too long.
   */
  lemma FailuresTakeDown(s: System, e: Event, t: Ticket)
    requires Core(s) && Enabled(s, e) && Serialised(s, e) && s.session.pendingResponse == Some(t)
    ensures var d := Apply(s, e);
            t in d.session.settled && !IsAnswer(d.session.settled[t]) ==> Down(d)
  {
    var chunk := if e.Deliver? then s.wire[..e.count] else if e.Notify? then e.data else [];
    NotificationFailure(s.session, chunk, t);
    OneCall(s, t);
    hide Core, ProperReply, Fields.HandleNotification;
  }

  lemma OneCall(s: System, t: Ticket)
    requires Core(s) && s.session.pendingResponse == Some(t)
    ensures t !in s.session.settled && forall u :: u in s.calls ==> u == t
  {
    hide ProperReply;
  }

  lemma NotificationFailure(f: Fields, chunk: seq<Byte>, t: Ticket)
    requires f.pendingResponse == Some(t) && t !in f.settled
    ensures var g := f.HandleNotification(chunk);
            t in g.settled && !IsAnswer(g.settled[t]) ==>
              g.pendingResponse == None && !g.IsReady() &&
              (g.settled[t].error.BadConnection? || g.settled[t].error.ParseError?)
  {
    hide HasValidCrc, IsAsciiControlMessage, Frame;
  }

  // ---------------------------------------------------------------------
  // Down is for good.

  lemma HopelessNotification(f: Fields, chunk: seq<Byte>)
    requires !f.IsReady() && !Completable(f)
    ensures var g := f.HandleNotification(chunk);
            !g.IsReady() && !Completable(g) &&
            forall t :: t in g.settled && g.settled[t].Resolved? ==> t in f.settled && f.settled[t] == g.settled[t]
  {
    hide IsAsciiControlMessage, IsValidResponse, IsExceptionResponse, ResponseSize;
    if f.pendingResponse.Some? && f.currentCommand.Some? {
      var c, buffer := f.currentCommand.value, f.responseBuffer + chunk;
      forall reply | buffer <= reply
        ensures !ProperReply(c, reply)
      {
        assert f.responseBuffer <= reply;
      }
      assert buffer <= buffer && !ProperReply(c, buffer);
    }
  }

  lemma StepStaysDown(s: System, e: Event)
    requires Down(s) && Enabled(s, e)
    ensures Serialised(s, e) && Down(Apply(s, e)) && Apply(s, e).next == s.next
  {
    hide Completable, ProperReply;
    HopelessNotification(s.session, if e.Deliver? then s.wire[..e.count] else if e.Notify? then e.data else []);
    hide Fields.HandleNotification;
    NothingToComplete(s.session);
  }

  lemma NothingToComplete(s: Fields)
    ensures forall f: Fields :: f.pendingResponse == None ==> !Completable(f)
    ensures Completable(s.EndDisconnect()) <==> Completable(s)
  {
  }

  /** Nothing but a new session revives it: no reply, however late, and no further request is sent. */
  lemma {:induction false} DownForGood(s: System, events: seq<Event>)
    requires Down(s) && IsRun(s, events)
    ensures Down(After(s, events)) && After(s, events).next == s.next
    decreases |events|
  {
    hide Apply, Enabled, Serialised, Down;
    if events != [] {
      StepStaysDown(s, events[0]);
      DownForGood(Apply(s, events[0]), events[1..]);
    }
  }

  // ---------------------------------------------------------------------
  // Whatever is not down can come back.

  lemma ResponseRevives(s: System, t: Ticket) returns (events: seq<Event>)
    requires t in s.calls && t in s.session.settled && s.session.settled[t].Resolved?
    ensures IsRun(s, events) && AllClean(events) && After(s, events).session.state == Ready
  {
    SettledReturns(s, t);
    events := DriveSettled(s, t);
  }

  /** One more chunk of a proper reply, short enough not to read as a control message. */
  lemma ShortChunk(chunk: seq<Byte>)
    requires |chunk| <= 1
    ensures !IsAsciiControlMessage(chunk)
  {
  }

  /** The missing bytes, notified one by one, complete the reply. */
  lemma {:induction false} CompletionRevives(s: System, reply: seq<Byte>) returns (events: seq<Event>)
    requires Core(s) && s.session.pendingResponse.Some?
    requires ProperReply(s.session.currentCommand.value, reply) && s.session.responseBuffer <= reply
    ensures IsRun(s, events) && After(s, events).session.state == Ready
    decreases |reply| - |s.session.responseBuffer|
  {
    hide ProperReply, IsAsciiControlMessage, Meaning, Fields.HandleNotification, Bookkeeping;
    var f := s.session;
    var n := |f.responseBuffer|;
    var stop := if n < |reply| then n + 1 else n;
    var chunk := reply[n..stop];
    assert f.responseBuffer + chunk + reply[stop..] == reply;
    ShortChunk(chunk);
    ChunkOfReply(f, f.pendingResponse.value, reply, chunk, reply[stop..], s.disconnected > 0);
    var rest := [];
    if stop < |reply| {
      StepKeepsCore(s, Notify(chunk));
      rest := CompletionRevives(Apply(s, Notify(chunk)), reply);
    }
    RunStep(s, Notify(chunk), rest);
    events := [Notify(chunk)] + rest;
  }

  /**
   A session that is not ready can become ready again if and only if a call holds
   a response it has not returned, or a waiter's bytes begin a proper reply.
   */
  lemma ReadyAgainExactly(s: System)
    requires Core(s) && !s.session.IsReady()
    ensures (exists events :: IsRun(s, events) && After(s, events).session.IsReady()) <==>
            HoldsResponse(s) || Completable(s.session)
  {
    hide Core;
    if HoldsResponse(s) {
      var t :| t in s.calls && t in s.session.settled && s.session.settled[t].Resolved?;
      var events := ResponseRevives(s, t);
    } else if Completable(s.session) {
      var reply :| ProperReply(s.session.currentCommand.value, reply) && s.session.responseBuffer <= reply;
      var events := CompletionRevives(s, reply);
    } else {
      forall events | IsRun(s, events)
        ensures !After(s, events).session.IsReady()
      {
        DownForGood(s, events);
      }
    }
  }

  // ---------------------------------------------------------------------
  // On a clean channel.

  /** The rest of the reply on the wire, delivered byte by byte, revives the session. */
  lemma {:induction false} WireRevives(s: System) returns (events: seq<Event>)
    requires Inv(s) && s.session.pendingResponse.Some? && s.wire != []
    ensures IsRun(s, events) && AllClean(events) && After(s, events).session.state == Ready
    decreases |s.wire|
  {
    hide ProperReply, IsAsciiControlMessage, Meaning, Fields.HandleNotification, Bookkeeping, Channel, Correlated,
         Coupled;
    var t := s.session.pendingResponse.value;
    ShortChunk(s.wire[..1]);
    DeliverToWaiter(s, 1, t);
    var rest := [];
    if |s.wire| > 1 {
      StepKeepsInv(s, Deliver(1));
      rest := WireRevives(Apply(s, Deliver(1)));
    }
    RunStep(s, Deliver(1), rest);
    events := [Deliver(1)] + rest;
    assert forall i :: 0 < i < |events| ==> events[i] == rest[i - 1];
  }

  /** Either the device has yet to answer the waiter, or its answer is on the wire. */
  lemma WaiterIsServed(s: System) returns (events: seq<Event>)
    requires Inv(s) && s.session.pendingResponse.Some?
    ensures IsRun(s, events) && AllClean(events) && After(s, events).session.state == Ready
  {
    if s.wire != [] {
      events := WireRevives(s);
    } else {
      var t, reply := AnswerIsOpen(s);
      hide Inv, Enabled, Apply, ProperReply;
      StepKeepsInv(s, Answer(t, reply));
      var rest := WireRevives(Apply(s, Answer(t, reply)));
      RunStep(s, Answer(t, reply), rest);
      events := [Answer(t, reply)] + rest;
      assert forall i :: 0 < i < |events| ==> events[i] == rest[i - 1];
    }
  }

  /** With nothing on the wire the device may still answer the waiter, for instance with an exception. */
  lemma AnswerIsOpen(s: System) returns (t: Ticket, reply: seq<Byte>)
    requires Inv(s) && s.session.pendingResponse.Some? && s.wire == []
    ensures Enabled(s, Answer(t, reply)) && Serialised(s, Answer(t, reply))
    ensures var d := Apply(s, Answer(t, reply)); d.wire != [] && d.session == s.session
  {
    t := s.session.pendingResponse.value;
    reply := ExceptionReply(s.asked[t], 2);
    Ambiguity.ExceptionReplyIsProper(s.asked[t], 2);
    hide ProperReply, ExceptionReply, Correlated;
  }

  /** On a clean channel any waiter will do, so a session is down exactly without a waiter and a held response. */
  lemma ReadyAgainOnCleanChannel(s: System)
    requires Inv(s) && !s.session.IsReady()
    ensures (exists events :: IsRun(s, events) && AllClean(events) && After(s, events).session.IsReady()) <==>
            HoldsResponse(s) || s.session.pendingResponse.Some?
    ensures Down(s) <==> !HoldsResponse(s) && s.session.pendingResponse.None?
  {
    hide Inv;
    if HoldsResponse(s) {
      var t :| t in s.calls && t in s.session.settled && s.session.settled[t].Resolved?;
      var events := ResponseRevives(s, t);
    } else if s.session.pendingResponse.Some? {
      var events := WaiterIsServed(s);
      if Down(s) {
        DownForGood(s, events);
      }
    } else {
      forall events | IsRun(s, events)
        ensures !After(s, events).session.IsReady()
      {
        DownForGood(s, events);
      }
    }
  }

  // ---------------------------------------------------------------------
  // It happens.

  /**
   A held response is reachable: a reply that beats its write acknowledgement, with
   a disconnect in between, makes the session ready while `disconnect` still runs.
   */
  lemma LateResumeRevives(c: Command, reply: seq<Byte>)
    requires IsValidResponse(c, reply)
    ensures Enabled(START, Perform(c)) &&
            var s1 := Apply(START, Perform(c));
            Enabled(s1, Answer(0, reply)) &&
            var s2 := Apply(s1, Answer(0, reply));
            Enabled(s2, Deliver(|reply|)) &&
            var s3 := Apply(s2, Deliver(|reply|));
            RevivedLate(s3)
  {
    Ambiguity.FirstPerform(c);
    FirstReply(c, reply);
    hide HasValidCrc, IsAsciiControlMessage, IsValidResponse, DoPerform, DoAnswer, DoDeliver, RevivedLate;
    RevivesFrom(c, reply);
  }

  /** A disconnect now, and then the end of the call, leave the session ready before `disconnect` returns. */
  ghost predicate RevivedLate(s: System) {
    Enabled(s, Disconnect) &&
    var s1 := Apply(s, Disconnect);
    Enabled(s1, WriteAcknowledged(0)) &&
    var s2 := Apply(s1, WriteAcknowledged(0));
    Enabled(s2, Resume(0)) &&
    var s3 := Apply(s2, Resume(0));
    s3.session.state == Ready && s3.disconnected < s3.disconnects
  }

  lemma RevivesFrom(c: Command, reply: seq<Byte>)
    ensures RevivedLate(System(INITIALISED.(settled := map[0 := Resolved(reply)]), 1, map[0 := Call(c, Writing)], map[],
                               map[0 := c], {}, map[0 := reply], [], 0, 0))
  {
    hide HasValidCrc, IsAsciiControlMessage, IsValidResponse, DoPerform, DoAnswer, DoDeliver;
  }

  lemma FirstReply(c: Command, reply: seq<Byte>)
    requires IsValidResponse(c, reply)
    ensures var s1 := System(INITIALISED.BeginPerform(0, c), 1, map[0 := Call(c, Writing)], map[],
                             map[0 := c], {0}, map[], [], 0, 0);
            DoDeliver(DoAnswer(s1, 0, reply), |reply|) ==
            System(INITIALISED.(settled := map[0 := Resolved(reply)]), 1, map[0 := Call(c, Writing)], map[],
                   map[0 := c], {}, map[0 := reply], [], 0, 0)
  {
    NoPrefixIsException(c, reply, |reply|);
    assert reply[..|reply|] == reply;
    hide IsAsciiControlMessage, IsValidResponse, IsExceptionResponse, Fields.HandleNotification, DoAnswer, DoDeliver;
    Ambiguity.WholeReply(INITIALISED.BeginPerform(0, c), c, 0, c, reply);
    var s1 := System(INITIALISED.BeginPerform(0, c), 1, map[0 := Call(c, Writing)], map[],
                     map[0 := c], {0}, map[], [], 0, 0);
    Ambiguity.DeliveredWhole(s1, 0, reply);
  }
}
