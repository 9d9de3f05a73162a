/** Attribution over whole runs: what `perform` returns belongs to its request. */
module Correlation {
  import opened Crc
  import opened Commands
  import opened Session
  import opened Protocol

  // ---------------------------------------------------------------------
  // Replies are never attributed to the wrong request.

  /**
   In every run without overlapping calls over a clean channel, whatever
   `perform` returns for a request is the reply the device made to that very
   request, and a MODBUS exception it throws is the one the device reported for it.
   */
  lemma ResultsAreOwnReplies(events: seq<Event>, t: Ticket)
    requires IsSerialRun(START, events) && AllClean(events)
    ensures IsRun(START, events)
    ensures IsOwn(After(START, events), t)
  {
    StartInv();
    RunKeepsInv(START, events);
    InvMeansOwn(After(START, events), t);
    hide Inv, IsOwn;
  }

  /** A returned response, or a MODBUS exception, is the device's reply to that ticket's request. */
  ghost predicate IsOwn(s: System, t: Ticket) {
    t in s.returned && IsAnswer(s.returned[t]) ==>
      t in s.asked && t in s.replies &&
      match s.returned[t]
      case Resolved(response) => response == s.replies[t] && IsValidResponse(s.asked[t], s.replies[t])
      case Rejected(error) =>
        IsExceptionResponse(s.asked[t], s.replies[t]) &&
        var code := s.replies[t][2];
        (error == DeviceBusy(5) <==> code == 5) && (error == ModbusError(code) <==> code != 5)
  }

  lemma InvMeansOwn(s: System, t: Ticket)
    requires Inv(s)
    ensures IsOwn(s, t)
  {
    hide HasValidCrc, Frame;
  }

  /** A session that is ready has heard everything the device had to say. */
  lemma ReadyMeansQuiet(events: seq<Event>)
    requires IsSerialRun(START, events) && AllClean(events)
    ensures IsRun(START, events)
    ensures var s := After(START, events); s.session.state == Ready ==> s.open == {} && s.wire == []
  {
    StartInv();
    RunKeepsInv(START, events);
    hide After, IsRun, IsSerialRun;
  }
}
