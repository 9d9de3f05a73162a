/**
 Settlement over every serial run, whatever bytes are notified: promises settle
 once, calls end, and exactly those lose their waiter that a disconnect finds
 unsettled.
 */
module Settlement {
  import opened Wrappers
  import opened Session
  import opened Protocol

  // ---------------------------------------------------------------------
  // Once.

  /** A call whose write fails throws the transport's error, whatever its waiter was told, and the session goes down. */
  lemma WriteFailureThrows(s: System, t: Ticket)
    requires Enabled(s, WriteFailed(t))
    ensures var d := Apply(s, WriteFailed(t));
            t !in d.calls && t in d.returned && d.returned[t] == Rejected(TransportError) &&
            d.session.state == Disconnecting && d.session.pendingResponse == None
  {
  }

  /** A disconnect shows in the state while it lasts and when it ends. */
  lemma DisconnectShows(s: System)
    ensures DoDisconnect(s).session.state == Disconnecting && DoDisconnected(s).session.state == NotConnected
    ensures DoDisconnect(s).disconnects == s.disconnects + 1 && DoDisconnected(s).disconnected == s.disconnected + 1
  {
  }

  /** A timed-out waiter is told so. */
  lemma TimeoutTells(s: System, t: Ticket)
    requires Core(s) && Enabled(s, Timeout(t))
    ensures var d := Apply(s, Timeout(t));
            t in d.session.settled && d.session.settled[t] == Rejected(CommandTimeout) &&
            d.session.state == CommandErrorWait && d.session.pendingResponse == None
  {
    hide ProperReply;
  }

  /** No step settles a promise that is already settled, or touches a result already returned. */
  lemma SettlementIsFinal(s: System, e: Event, t: Ticket)
    requires Core(s) && Enabled(s, e) && Serialised(s, e)
    ensures s.session.pendingResponse == Some(t) ==> t !in s.session.settled
    ensures t in s.session.settled ==>
              t in Apply(s, e).session.settled && Apply(s, e).session.settled[t] == s.session.settled[t]
    ensures t in s.returned ==> t in Apply(s, e).returned && Apply(s, e).returned[t] == s.returned[t]
  {
    NotificationsKeepCoupled(s, e);
    hide ProperReply, Fields.HandleNotification;
  }

  /** `NotificationKeepsCoupled`, for the two events that notify. */
  lemma NotificationsKeepCoupled(s: System, e: Event)
    requires Core(s) && Enabled(s, e)
    ensures e.Deliver? || e.Notify? ==>
              var f := s.session;
              var after := Apply(s, e).session;
              Coupled(after, s.disconnected > 0) &&
              if after.pendingResponse == f.pendingResponse
              then after.settled == f.settled && after.currentCommand == f.currentCommand
              else after.pendingResponse == None && SettlesWaiter(f, after)
  {
    hide Coupled, Fields.HandleNotification, ProperReply;
    if e.Deliver? {
      NotificationKeepsCoupled(s.session, s.wire[..e.count], s.disconnected > 0);
    } else if e.Notify? {
      NotificationKeepsCoupled(s.session, e.data, s.disconnected > 0);
    }
  }

  // ---------------------------------------------------------------------
  // Without a disconnect every call ends.

  /** Every call that has not returned still has its waiter, or its result. */
  ghost predicate NoneLost(s: System) {
    forall t :: t in s.calls ==> s.session.pendingResponse == Some(t) || t in s.session.settled
  }

  lemma StepLosesNone(s: System, e: Event)
    requires Core(s) && NoneLost(s) && s.disconnects == s.disconnected == 0
    requires Enabled(s, e) && Serialised(s, e) && !e.Disconnect?
    ensures NoneLost(Apply(s, e)) && Apply(s, e).disconnects == Apply(s, e).disconnected == 0
  {
    NotificationsKeepCoupled(s, e);
    hide ProperReply, Fields.HandleNotification;
  }

  ghost predicate NoDisconnect(events: seq<Event>) {
    forall i :: 0 <= i < |events| ==> !events[i].Disconnect?
  }

  lemma {:induction false} RunLosesNone(s: System, events: seq<Event>)
    requires Core(s) && NoneLost(s) && s.disconnects == s.disconnected == 0
    requires IsSerialRun(s, events) && NoDisconnect(events)
    ensures IsRun(s, events) && Core(After(s, events)) && NoneLost(After(s, events))
    decreases |events|
  {
    hide Core, NoneLost, Apply, Enabled, Serialised;
    if events != [] {
      StepKeepsCore(s, events[0]);
      StepLosesNone(s, events[0]);
      RunLosesNone(Apply(s, events[0]), events[1..]);
    }
  }

  /** The events that bring a call to its end when the device stays silent. */
  function Drive(s: System, t: Ticket): seq<Event>
    requires t in s.calls
  {
    (if s.session.pendingResponse == Some(t) then [Timeout(t)] else []) + DriveSettled(s, t)
  }

  function DriveSettled(s: System, t: Ticket): seq<Event>
    requires t in s.calls
  {
    (if s.calls[t].phase == Writing then [WriteAcknowledged(t)] else []) + [Resume(t)]
  }

  lemma RunStep(s: System, e: Event, rest: seq<Event>)
    requires Enabled(s, e) && IsRun(Apply(s, e), rest)
    ensures IsRun(s, [e] + rest) && After(s, [e] + rest) == After(Apply(s, e), rest)
  {
    hide Enabled, Apply;
    assert ([e] + rest)[1..] == rest;
  }

  lemma ResumeReturns(s: System, t: Ticket)
    requires t in s.calls && s.calls[t].phase == Waiting && t in s.session.settled
    ensures IsRun(s, [Resume(t)])
    ensures After(s, [Resume(t)]) == DoResume(s, t)
  {
    RunStep(s, Resume(t), []);
  }

  lemma SettledReturns(s: System, t: Ticket)
    requires t in s.calls && t in s.session.settled
    ensures IsRun(s, DriveSettled(s, t))
    ensures var d := After(s, DriveSettled(s, t));
            t in d.returned && d.session == s.session.FinishPerform(s.session.settled[t])
  {
    if s.calls[t].phase == Writing {
      var next := Apply(s, WriteAcknowledged(t));
      ResumeReturns(next, t);
      RunStep(s, WriteAcknowledged(t), [Resume(t)]);
    } else {
      ResumeReturns(s, t);
      assert [] + [Resume(t)] == [Resume(t)];
    }
  }

  /** A call with a waiter or a result can end: its timer, the write acknowledgement and one resumption suffice. */
  lemma CallsCanEnd(s: System, t: Ticket)
    requires Core(s) && t in s.calls
    requires s.session.pendingResponse == Some(t) || t in s.session.settled
    ensures IsRun(s, Drive(s, t)) && t in After(s, Drive(s, t)).returned
  {
    hide IsRun, After, ProperReply;
    if s.session.pendingResponse == Some(t) {
      var next := Apply(s, Timeout(t));
      SettledReturns(next, t);
      RunStep(s, Timeout(t), DriveSettled(next, t));
    } else {
      SettledReturns(s, t);
      assert Drive(s, t) == DriveSettled(s, t);
    }
  }

  /** Without a disconnect every request has returned, or can be driven to return. */
  lemma EveryCallEnds(events: seq<Event>, t: Ticket)
    requires IsSerialRun(START, events) && NoDisconnect(events)
    ensures IsRun(START, events)
    ensures var s := After(START, events);
            t in s.asked ==>
              (t in s.returned && t !in s.calls) ||
              (t !in s.returned && t in s.calls && IsRun(s, Drive(s, t)) && t in After(s, Drive(s, t)).returned)
  {
    StartInv();
    RunLosesNone(START, events);
    var s := After(START, events);
    hide After, IsRun, IsSerialRun, ProperReply;
    if t in s.calls {
      CallsCanEnd(s, t);
    }
  }

  // ---------------------------------------------------------------------
  // Exactly which calls can return.

  /** In flight with neither a waiter nor a result. */
  ghost predicate Lost(s: System, t: Ticket) {
    t in s.calls && t !in s.session.settled && s.session.pendingResponse != Some(t)
  }

  /** Lost, and past the write: nothing is left that could end it. */
  ghost predicate Dropped(s: System, t: Ticket) {
    Lost(s, t) && s.calls[t].phase == Waiting
  }

  lemma LostMeansNobodyWaits(s: System, t: Ticket)
    requires Core(s) && Lost(s, t)
    ensures s.session.pendingResponse == None && t !in s.returned && s.session.timers == {}
  {
    hide ProperReply;
  }

  /** Only a failed write ends a lost call, and its acknowledgement drops it. */
  lemma StepKeepsLost(s: System, e: Event, t: Ticket)
    requires Core(s) && Lost(s, t) && Enabled(s, e) && Serialised(s, e) && e != WriteFailed(t)
    ensures Lost(Apply(s, e), t)
    ensures s.calls[t].phase == Waiting || e == WriteAcknowledged(t) ==> Dropped(Apply(s, e), t)
    ensures s.calls[t].phase == Writing && e != WriteAcknowledged(t) ==> Apply(s, e).calls[t].phase == Writing
  {
    LostMeansNobodyWaits(s, t);
    hide Core, ProperReply;
    if e.Deliver? {
      NobodyListens(s.session, s.wire[..e.count]);
    } else if e.Notify? {
      NobodyListens(s.session, e.data);
    }
    hide Fields.HandleNotification;
  }

  lemma StepKeepsDropped(s: System, e: Event, t: Ticket)
    requires Core(s) && Dropped(s, t) && Enabled(s, e) && Serialised(s, e)
    ensures Dropped(Apply(s, e), t)
  {
    assert e != WriteFailed(t);
    hide Core, Apply, Serialised, ProperReply;
    StepKeepsLost(s, e, t);
  }

  ghost predicate WriteHolds(events: seq<Event>, t: Ticket) {
    forall i :: 0 <= i < |events| ==> events[i] != WriteFailed(t)
  }

  lemma {:induction false} LostForever(s: System, events: seq<Event>, t: Ticket)
    requires Core(s) && Lost(s, t) && IsSerialRun(s, events) && WriteHolds(events, t)
    ensures IsRun(s, events) && t !in After(s, events).returned
    decreases |events|
  {
    if events == [] {
      LostMeansNobodyWaits(s, t);
    } else {
      hide Apply, Enabled, Serialised, Core, Lost;
      StepKeepsCore(s, events[0]);
      StepKeepsLost(s, events[0], t);
      LostForever(Apply(s, events[0]), events[1..], t);
    }
  }

  /** A dropped call returns in no continuation. */
  lemma {:induction false} DroppedForever(s: System, events: seq<Event>, t: Ticket)
    requires Core(s) && Dropped(s, t) && IsSerialRun(s, events)
    ensures IsRun(s, events) && t !in After(s, events).returned && Dropped(After(s, events), t)
    decreases |events|
  {
    if events == [] {
      LostMeansNobodyWaits(s, t);
    } else {
      hide Apply, Enabled, Serialised, Core, Dropped, Lost;
      StepKeepsCore(s, events[0]);
      StepKeepsDropped(s, events[0], t);
      DroppedForever(Apply(s, events[0]), events[1..], t);
    }
  }

  lemma {:induction false} LoneCallIsSerial(s: System, events: seq<Event>)
    requires IsRun(s, events)
    requires forall i :: 0 <= i < |events| ==> !events[i].Perform?
    ensures IsSerialRun(s, events)
    decreases |events|
  {
    if events != [] {
      hide Apply, Enabled;
      LoneCallIsSerial(Apply(s, events[0]), events[1..]);
    }
  }

  /** The events that end a call that is not dropped, whatever the device does. */
  ghost function Ending(s: System, t: Ticket): seq<Event>
    requires t in s.calls
  {
    if Lost(s, t) then [WriteFailed(t)] else Drive(s, t)
  }

  lemma EndingReturns(s: System, t: Ticket)
    requires Core(s) && t in s.calls && !Dropped(s, t)
    ensures IsRun(s, Ending(s, t)) && t in After(s, Ending(s, t)).returned
    ensures forall i :: 0 <= i < |Ending(s, t)| ==> !Ending(s, t)[i].Perform?
  {
    if Lost(s, t) {
      RunStep(s, WriteFailed(t), []);
      assert [WriteFailed(t)] + [] == Ending(s, t);
    } else {
      CallsCanEnd(s, t);
    }
  }

  /** Some serial continuation returns the call. */
  ghost predicate CanReturn(s: System, t: Ticket) {
    exists events :: IsSerialRun(s, events) && IsRun(s, events) && t in After(s, events).returned
  }

  /** Some serial continuation in which its write does not fail returns the call. */
  ghost predicate CanReturnWritten(s: System, t: Ticket) {
    exists events :: IsSerialRun(s, events) && IsRun(s, events) && WriteHolds(events, t) &&
                     t in After(s, events).returned
  }

  /** Unless its write fails, a call in flight can return if and only if it has a waiter or a result. */
  lemma ReturnsUnlessLost(s: System, t: Ticket)
    requires Core(s) && t in s.calls
    ensures CanReturnWritten(s, t) <==> !Lost(s, t)
  {
    if !Lost(s, t) {
      CallsCanEnd(s, t);
      LoneCallIsSerial(s, Drive(s, t));
      assert WriteHolds(Drive(s, t), t);
    } else {
      forall events | IsSerialRun(s, events) && WriteHolds(events, t)
        ensures IsRun(s, events) && t !in After(s, events).returned
      {
        LostForever(s, events, t);
      }
    }
  }

  /** Counting write failures too, it can return if and only if it is not dropped. */
  lemma ReturnsUnlessDropped(s: System, t: Ticket)
    requires Core(s) && t in s.calls
    ensures CanReturn(s, t) <==> !Dropped(s, t)
  {
    if Dropped(s, t) {
      forall events | IsSerialRun(s, events)
        ensures IsRun(s, events) && t !in After(s, events).returned
      {
        DroppedForever(s, events, t);
      }
    } else {
      EndingReturns(s, t);
      LoneCallIsSerial(s, Ending(s, t));
    }
  }

  /**
   A disconnect loses exactly the calls in flight that are not settled, in the
   middle of the write as much as after it.
   */
  lemma DisconnectLoses(s: System, t: Ticket)
    requires Core(s) && t in s.calls
    ensures var d := Apply(s, Disconnect);
            Core(d) && t in d.calls &&
            (Lost(d, t) <==> t !in s.session.settled) &&
            (CanReturnWritten(d, t) <==> t in s.session.settled) &&
            (CanReturn(d, t) <==> t in s.session.settled || s.calls[t].phase == Writing)
  {
    StepKeepsCore(s, Disconnect);
    var d := Apply(s, Disconnect);
    ReturnsUnlessLost(d, t);
    ReturnsUnlessDropped(d, t);
    hide Core, CanReturn, CanReturnWritten;
  }

  /**
   A disconnect drops exactly the unsettled calls: at once when they await the response, else with
   the write's acknowledgement.
   */
  lemma DisconnectDrops(s: System, t: Ticket)
    requires t in s.calls
    ensures Enabled(s, Disconnect)
    ensures s.calls[t].phase == Waiting ==> (Dropped(Apply(s, Disconnect), t) <==> t !in s.session.settled)
    ensures s.calls[t].phase == Writing ==>
              Enabled(Apply(s, Disconnect), WriteAcknowledged(t)) &&
              (Dropped(Apply(Apply(s, Disconnect), WriteAcknowledged(t)), t) <==> t !in s.session.settled)
  {
  }
}
