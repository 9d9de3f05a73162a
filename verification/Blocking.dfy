/**
 When a work item never ends: exactly when its call was dropped by a disconnect.
 Its address is then blocked, although other addresses go on and although the
 session may be replaced.
 */
module Blocking {
  import opened Wrappers
  import opened Commands
  import opened Bridge
  import P = Protocol
  import Q = Queue
  import Settlement

  /** Item `k` is running and its call is dropped. */
  ghost predicate Blocked(b: Bridge, k: nat) {
    && Running(b, k) && k in b.calls && b.calls[k].link in b.sessions
    && Settlement.Dropped(b.sessions[b.calls[k].link], b.calls[k].ticket)
  }

  /** The link and ticket of a running item's call. */
  lemma CallFacts(b: Bridge, k: nat)
    requires Inv(b) && Running(b, k) && k in b.calls
    ensures var l, t := b.calls[k].link, b.calls[k].ticket;
            l in b.sessions && l.address == AddressOf(b, k) && P.Core(b.sessions[l]) &&
            (t in b.sessions[l].calls <==> t !in b.sessions[l].returned)
  {
    assert JobOk(b, k);
    SessionCore(b, b.calls[k].link);
  }

  lemma DroppedIsInFlight(s: P.System, t: Ticket)
    requires P.Core(s) && Settlement.Dropped(s, t)
    ensures t in s.calls && t !in s.returned
  {
    CallsHaveNotReturned(s);
  }

  // ---------------------------------------------------------------------
  // How an item comes to be blocked.

  /** A step of the session of the item's call shows in that session alone. */
  lemma StepShows(b: Bridge, k: nat, e: P.Event)
    requires Running(b, k) && k in b.calls && b.calls[k].link in b.sessions
    requires P.Enabled(b.sessions[b.calls[k].link], e) && !e.Perform?
    ensures var l, t := b.calls[k].link, b.calls[k].ticket;
            Enabled(b, Step(l, e)) &&
            var d := Apply(b, Step(l, e));
            Running(d, k) && d.calls == b.calls && l in d.sessions && d.sessions[l] == P.Apply(b.sessions[l], e) &&
            (Blocked(d, k) <==> Settlement.Dropped(P.Apply(b.sessions[l], e), t))
  {
    hide P.Apply, P.Enabled, Settlement.Dropped;
  }

  /**
   A disconnect blocks the running item exactly if its call was not settled: at
   once when it awaits the response, and otherwise with its write's acknowledgement.
   */
  lemma DisconnectBlocks(b: Bridge, k: nat)
    requires Running(b, k) && k in b.calls && b.calls[k].link in b.sessions
    requires b.calls[k].ticket in b.sessions[b.calls[k].link].calls
    ensures var l, t := b.calls[k].link, b.calls[k].ticket;
            var s := b.sessions[l];
            Enabled(b, Step(l, P.Disconnect)) &&
            var d := Apply(b, Step(l, P.Disconnect));
            (s.calls[t].phase == P.Waiting ==> (Blocked(d, k) <==> t !in s.session.settled)) &&
            (s.calls[t].phase == P.Writing ==>
               Enabled(d, Step(l, P.WriteAcknowledged(t))) &&
               (Blocked(Apply(d, Step(l, P.WriteAcknowledged(t))), k) <==> t !in s.session.settled))
  {
    hide P.Apply, P.Enabled, Settlement.Dropped, Blocked, Running, Enabled, Apply;
    var l, t := b.calls[k].link, b.calls[k].ticket;
    var s := b.sessions[l];
    Settlement.DisconnectDrops(s, t);
    StepShows(b, k, P.Disconnect);
    if s.calls[t].phase == P.Writing {
      StepShows(Apply(b, Step(l, P.Disconnect)), k, P.WriteAcknowledged(t));
    }
  }

  // ---------------------------------------------------------------------
  // Blocked is for good.

  lemma BeginKeepsBlocked(b: Bridge, j: nat, k: nat)
    requires Inv(b) && Enabled(b, Begin(j)) && Blocked(b, k)
    ensures Blocked(Apply(b, Begin(j)), k) && AddressOf(Apply(b, Begin(j)), k) == AddressOf(b, k)
  {
    hide Inv, P.Core, P.DoPerform, P.Serialised, Settlement.Dropped, Q.Chain.Fulfilled, Q.Chain.Linked;
    CallFacts(b, k);
    DroppedIsInFlight(b.sessions[b.calls[k].link], b.calls[k].ticket);
    if AddressOf(b, j) == AddressOf(b, k) {
      StartFindsNoCall(b, j, b.calls[k].link);
      assert false;
    }
  }

  lemma EndKeepsBlocked(b: Bridge, j: nat, failed: bool, k: nat)
    requires Inv(b) && Enabled(b, End(j, failed)) && Blocked(b, k)
    ensures Blocked(Apply(b, End(j, failed)), k) && AddressOf(Apply(b, End(j, failed)), k) == AddressOf(b, k)
  {
    hide Inv, P.Core, Settlement.Dropped;
    CallFacts(b, k);
    DroppedIsInFlight(b.sessions[b.calls[k].link], b.calls[k].ticket);
    assert j != k;
  }

  lemma SessionStepKeepsBlocked(b: Bridge, l: Link, event: P.Event, k: nat)
    requires Inv(b) && Enabled(b, Step(l, event)) && Blocked(b, k)
    ensures Blocked(Apply(b, Step(l, event)), k) && AddressOf(Apply(b, Step(l, event)), k) == AddressOf(b, k)
  {
    hide Inv, P.Core, P.Apply, P.Enabled, Settlement.Dropped;
    if l == b.calls[k].link {
      CallFacts(b, k);
      Settlement.StepKeepsDropped(b.sessions[l], event, b.calls[k].ticket);
    }
  }

  lemma SubmitKeepsBlocked(b: Bridge, a: string, c: Command, k: nat)
    requires Enabled(b, Submit(a, c)) && Blocked(b, k)
    ensures Blocked(Apply(b, Submit(a, c)), k) && AddressOf(Apply(b, Submit(a, c)), k) == AddressOf(b, k)
  {
    hide Settlement.Dropped;
  }

  /** Replacing the session leaves the item waiting for the promise of the old one. */
  lemma ReplacementKeepsBlocked(b: Bridge, a: string, k: nat)
    requires Inv(b) && Blocked(b, k)
    ensures Blocked(b.(installed := b.installed - {a}), k)
    ensures a in b.generations ==> Blocked(DoInstall(b, a), k) && AddressOf(DoInstall(b, a), k) == AddressOf(b, k)
  {
    hide Inv, Settlement.Dropped;
    if a in b.generations {
      NewLink(b, a);
    }
  }

  lemma StepKeepsBlocked(b: Bridge, e: Event, k: nat)
    requires Inv(b) && Enabled(b, e) && Blocked(b, k)
    ensures Blocked(Apply(b, e), k) && AddressOf(Apply(b, e), k) == AddressOf(b, k)
  {
    assert AddressOf(b, k) == b.queue.items[k].address;
    hide Inv, Settlement.Dropped, DoInstall, DoBegin;
    match e {
      case Submit(a, c) => SubmitKeepsBlocked(b, a, c, k);
      case Begin(j) => BeginKeepsBlocked(b, j, k);
      case Step(l, event) => SessionStepKeepsBlocked(b, l, event, k);
      case End(j, failed) => EndKeepsBlocked(b, j, failed, k);
      case Remove(a) => ReplacementKeepsBlocked(b, a, k);
      case Install(a) => ReplacementKeepsBlocked(b, a, k);
    }
  }

  /**
   The address stays blocked in every continuation, across any number of
   reconnects: item `k` never ends, and no later item of its address ever starts,
   those submitted afterwards included.
   */
  lemma {:induction false} BlockedForever(b: Bridge, events: seq<Event>, k: nat)
    requires Inv(b) && IsRun(b, events) && Blocked(b, k)
    ensures var d := After(b, events);
            Running(d, k) && AddressOf(d, k) == AddressOf(b, k) &&
            forall j: nat :: k < j < |d.queue.items| && AddressOf(d, j) == AddressOf(b, k) ==>
                               d.queue.items[j].progress == Q.Queued
    decreases |events|
  {
    if events == [] {
      LaterOnesWait(b, k);
    } else {
      hide Inv, Apply, Enabled, Blocked;
      StepKeepsInv(b, events[0]);
      StepKeepsBlocked(b, events[0], k);
      BlockedForever(Apply(b, events[0]), events[1..], k);
    }
  }

  lemma LaterOnesWait(b: Bridge, k: nat)
    requires Inv(b) && Running(b, k)
    ensures forall j: nat :: k < j < |b.queue.items| && AddressOf(b, j) == AddressOf(b, k) ==>
                               b.queue.items[j].progress == Q.Queued
  {
    hide P.Core;
    forall j: nat | k < j < |b.queue.items| && AddressOf(b, j) == AddressOf(b, k)
      ensures b.queue.items[j].progress == Q.Queued
    {
      assert Q.ItemOk(b.queue, j) && Q.Before(b.queue, k, j);
    }
  }

  // ---------------------------------------------------------------------
  // Whatever is not blocked can end.

  /** The session's own events, as events of the whole. */
  function Lift(l: Link, events: seq<P.Event>): seq<Event> {
    seq(|events|, i requires 0 <= i < |events| => Step(l, events[i]))
  }

  ghost predicate Silent(events: seq<P.Event>) {
    forall i :: 0 <= i < |events| ==> !events[i].Perform?
  }

  lemma RunStep(b: Bridge, e: Event, rest: seq<Event>)
    requires Enabled(b, e) && IsRun(Apply(b, e), rest)
    ensures IsRun(b, [e] + rest) && After(b, [e] + rest) == After(Apply(b, e), rest)
  {
    hide Enabled, Apply;
    assert ([e] + rest)[1..] == rest;
  }

  /** A run of one session followed by a run of the whole. */
  lemma {:induction false} LiftRun(b: Bridge, l: Link, events: seq<P.Event>, rest: seq<Event>)
    requires l in b.sessions && P.IsRun(b.sessions[l], events) && Silent(events)
    requires IsRun(b.(sessions := b.sessions[l := P.After(b.sessions[l], events)]), rest)
    ensures IsRun(b, Lift(l, events) + rest)
    ensures After(b, Lift(l, events) + rest) ==
            After(b.(sessions := b.sessions[l := P.After(b.sessions[l], events)]), rest)
    decreases |events|
  {
    if events == [] {
      assert b.(sessions := b.sessions[l := b.sessions[l]]) == b;
      assert Lift(l, events) + rest == rest;
    } else {
      hide P.Enabled, P.Apply;
      var e := Step(l, events[0]);
      var d := Apply(b, e);
      assert d.sessions[l := P.After(d.sessions[l], events[1..])] == b.sessions[l := P.After(b.sessions[l], events)];
      LiftRun(d, l, events[1..], rest);
      RunStep(b, e, Lift(l, events[1..]) + rest);
      assert [e] + (Lift(l, events[1..]) + rest) == Lift(l, events) + rest;
    }
  }

  ghost predicate CanEnd(b: Bridge, k: nat) {
    exists events :: IsRun(b, events) && k < |After(b, events).queue.items| &&
                     After(b, events).queue.items[k].progress == Q.Finished
  }

  lemma EndNow(b: Bridge, k: nat)
    requires Enabled(b, End(k, false))
    ensures IsRun(b, [End(k, false)])
    ensures After(b, [End(k, false)]) == b.(queue := b.queue.Finish(k))
  {
    RunStep(b, End(k, false), []);
    assert [End(k, false)] + [] == [End(k, false)];
    hide IsRun, P.Enabled;
  }

  /** A running item that is not blocked is brought to its end, with nothing else moved in the queue. */
  lemma FinishingRun(b: Bridge, k: nat) returns (events: seq<Event>)
    requires Inv(b) && Running(b, k) && !Blocked(b, k)
    ensures IsRun(b, events) && After(b, events).queue == b.queue.Finish(k)
  {
    hide Inv;
    events := [End(k, false)];
    if k !in b.calls {
      EndNow(b, k);
    } else {
      CallFacts(b, k);
      var l, t := b.calls[k].link, b.calls[k].ticket;
      var s := b.sessions[l];
      if t in s.returned {
        EndNow(b, k);
      } else {
        Settlement.EndingReturns(s, t);
        var ending := Settlement.Ending(s, t);
        hide Settlement.Ending, Settlement.Dropped, P.IsRun, P.After, P.Core;
        var d := b.(sessions := b.sessions[l := P.After(s, ending)]);
        EndNow(d, k);
        LiftRun(b, l, ending, events);
        events := Lift(l, ending) + events;
      }
    }
  }

  lemma {:induction false} RunConcat(b: Bridge, events: seq<Event>, rest: seq<Event>)
    requires IsRun(b, events) && IsRun(After(b, events), rest)
    ensures IsRun(b, events + rest) && After(b, events + rest) == After(After(b, events), rest)
    decreases |events|
  {
    if events == [] {
      assert [] + rest == rest;
    } else {
      hide Enabled, Apply;
      RunConcat(Apply(b, events[0]), events[1..], rest);
      RunStep(b, events[0], events[1..] + rest);
      assert [events[0]] + (events[1..] + rest) == events + rest;
    }
  }

  ghost predicate Outstanding(b: Bridge, k: nat) {
    k < |b.queue.items| && b.queue.items[k].progress != Q.Finished
  }

  /** No item of the address of `k`, up to `k` itself, is blocked. */
  ghost predicate NoneBlockedBefore(b: Bridge, k: nat)
    requires k < |b.queue.items|
  {
    forall j: nat :: j <= k && AddressOf(b, j) == AddressOf(b, k) ==> !Blocked(b, j)
  }

  /** The oldest outstanding item of the address: it is no later than `k`, and runs or may start. */
  lemma Head(b: Bridge, k: nat) returns (h: nat)
    requires Inv(b) && Outstanding(b, k)
    ensures Q.Waiting(b.queue.items, AddressOf(b, k)) != [] && h == Q.Waiting(b.queue.items, AddressOf(b, k))[0]
    ensures h <= k && Outstanding(b, h) && AddressOf(b, h) == AddressOf(b, k)
    ensures Running(b, h) || Enabled(b, Begin(h))
  {
    var q := Q.Waiting(b.queue.items, AddressOf(b, k));
    Q.WaitingIsSorted(b.queue.items, AddressOf(b, k));
    assert k in q;
    h := q[0];
    Q.NoLostWakeup(b.queue, AddressOf(b, k));
    hide Q.Inv, P.Core;
  }

  /** Once begun, an item is not blocked at once: its write is only starting. */
  lemma BegunIsNotBlocked(b: Bridge, h: nat)
    requires Inv(b) && Enabled(b, Begin(h))
    ensures var d := Apply(b, Begin(h));
            Running(d, h) && !Blocked(d, h) && d.queue == b.queue.Start(h)
  {
    NotYetCalled(b, h);
    hide Inv, Q.Chain.Fulfilled, Q.Chain.Linked;
  }

  /** While another item of the address runs, only that one can be blocked there. */
  lemma OnlyOneRuns(b: Bridge, h: nat, k: nat)
    requires Inv(b) && Running(b, h) && Outstanding(b, k) && k != h && AddressOf(b, h) == AddressOf(b, k)
    requires h < k
    ensures forall j: nat :: j < |b.queue.items| && j != h && AddressOf(b, j) == AddressOf(b, k) ==> !Running(b, j)
  {
    hide P.Core;
    forall j: nat | j < |b.queue.items| && j != h && AddressOf(b, j) == AddressOf(b, k)
      ensures !Running(b, j)
    {
      if Running(b, j) {
        Q.MutualExclusion(b.queue, j, h);
      }
    }
  }

  /** The items of the address are driven to their ends one after the other. */
  lemma {:induction false} DriveTo(b: Bridge, k: nat) returns (events: seq<Event>)
    requires Inv(b) && Outstanding(b, k) && NoneBlockedBefore(b, k)
    ensures IsRun(b, events) && k < |After(b, events).queue.items|
    ensures After(b, events).queue.items[k].progress == Q.Finished
    decreases |Q.Waiting(b.queue.items, AddressOf(b, k))|
  {
    hide Inv, Blocked, IsRun, After, Enabled, Apply;
    var h := Head(b, k);
    var begun, first := b, [];
    NothingMore(b);
    if !Running(b, h) {
      begun, first := Apply(b, Begin(h)), [Begin(h)] + [];
      BegunIsNotBlocked(b, h);
      StepKeepsInv(b, Begin(h));
      NothingMore(begun);
      RunStep(b, Begin(h), []);
      QueueStarts(b, h);
    }
    var finishing := FinishingRun(begun, h);
    RunConcat(b, first, finishing);
    events := first + finishing;
    var d := After(begun, finishing);
    if h != k {
      RunKeepsInv(begun, finishing);
      FinishedHead(begun, d, h, k);
      var rest := DriveTo(d, k);
      RunConcat(b, events, rest);
      events := events + rest;
    }
  }

  /** Starting an item moves nothing in the queue. */
  lemma QueueStarts(b: Bridge, h: nat)
    requires Inv(b) && Enabled(b, Begin(h))
    ensures var d := Apply(b, Begin(h));
            h < |b.queue.items| && |d.queue.items| == |b.queue.items| &&
            (forall j: nat :: j < |b.queue.items| ==> AddressOf(d, j) == AddressOf(b, j)) &&
            (forall k: nat :: Outstanding(b, k) ==> Outstanding(d, k)) &&
            forall a: string :: Q.Waiting(d.queue.items, a) == Q.Waiting(b.queue.items, a)
  {
    hide P.Core, Q.Chain.Fulfilled, Q.Chain.Linked, P.DoPerform;
    forall a: string
      ensures Q.Waiting(b.queue.Start(h).items, a) == Q.Waiting(b.queue.items, a)
    {
      Q.StartRefines(b.queue, h, a);
    }
  }

  /** With the head finished the queue is one shorter, and no item of the address runs or is blocked. */
  lemma FinishedHead(b: Bridge, d: Bridge, h: nat, k: nat)
    requires Inv(b) && Inv(d) && Running(b, h) && d.queue == b.queue.Finish(h)
    requires h < k && Outstanding(b, k) && AddressOf(b, h) == AddressOf(b, k)
    ensures Outstanding(d, k) && AddressOf(d, k) == AddressOf(b, k) && NoneBlockedBefore(d, k)
    ensures |Q.Waiting(d.queue.items, AddressOf(d, k))| < |Q.Waiting(b.queue.items, AddressOf(b, k))|
  {
    hide Inv, Q.Inv, Settlement.Dropped, Q.Waiting;
    OnlyOneRuns(b, h, k);
    QueueInv(b);
    Q.FinishRefines(b.queue, h, "");
    forall j: nat | j <= k && AddressOf(d, j) == AddressOf(d, k)
      ensures !Running(d, j)
    {
      assert AddressOf(b, j) == AddressOf(b, k);
    }
  }

  lemma QueueInv(b: Bridge)
    requires Inv(b)
    ensures Q.Inv(b.queue)
  {
  }

  /** A running work item can end if and only if it is not blocked. */
  lemma EndsUnlessBlocked(b: Bridge, k: nat)
    requires Inv(b) && Running(b, k)
    ensures CanEnd(b, k) <==> !Blocked(b, k)
  {
    hide Inv;
    if Blocked(b, k) {
      forall events | IsRun(b, events)
        ensures Running(After(b, events), k)
      {
        BlockedForever(b, events, k);
      }
    } else {
      var events := FinishingRun(b, k);
    }
  }

  /** Any outstanding work item can end if and only if no item of its address up to it is blocked. */
  lemma EndsExactly(b: Bridge, k: nat)
    requires Inv(b) && Outstanding(b, k)
    ensures CanEnd(b, k) <==> NoneBlockedBefore(b, k)
  {
    hide Inv;
    if NoneBlockedBefore(b, k) {
      var events := DriveTo(b, k);
    } else {
      var j: nat :| j <= k && AddressOf(b, j) == AddressOf(b, k) && Blocked(b, j);
      forall events | IsRun(b, events)
        ensures k < |After(b, events).queue.items| ==> After(b, events).queue.items[k].progress != Q.Finished
      {
        BlockedForever(b, events, j);
        AddressesStay(b, events, k);
      }
    }
  }

  lemma {:induction false} AddressesStay(b: Bridge, events: seq<Event>, k: nat)
    requires IsRun(b, events) && k < |b.queue.items|
    ensures k < |After(b, events).queue.items| && AddressOf(After(b, events), k) == AddressOf(b, k)
    decreases |events|
  {
    if events != [] {
      AddressStays(b, events[0], k);
      hide Apply, Enabled;
      AddressesStay(Apply(b, events[0]), events[1..], k);
    }
  }

  lemma AddressStays(b: Bridge, e: Event, k: nat)
    requires Enabled(b, e) && k < |b.queue.items|
    ensures k < |Apply(b, e).queue.items| && AddressOf(Apply(b, e), k) == AddressOf(b, k)
  {
    hide P.Apply, P.DoPerform, Accepts, Q.Chain.Linked, Q.Chain.Fulfilled;
  }

  // ---------------------------------------------------------------------
  // It happens.

  /**
   From the start: a session is installed, an item's command is written, and a
   disconnect comes before the reply. With the session replaced by one that is
   ready, the address is still blocked.
   */
  lemma BlockedIsReachable(a: string, c: Command)
    ensures exists events ::
              IsRun(Initial({a}), events) && Blocked(After(Initial({a}), events), 0) &&
              Accepts(After(Initial({a}), events), a)
  {
    hide IsRun, After, Blocked, Accepts, Inv;
    NothingMore(CallStarted(a, c));
    CallStarts(a, c, []);
    InitialInv({a});
    RunKeepsInv(Initial({a}), [Install(a)] + ([Submit(a, c)] + ([Begin(0)] + [])));
    var events := CallStrands(a, c);
    CallStarts(a, c, events);
    var all := [Install(a)] + ([Submit(a, c)] + ([Begin(0)] + events));
  }

  /** The first session of `a`, with the first item's call in the middle of its write. */
  ghost function CallStarted(a: string, c: Command): Bridge {
    Bridge(Q.Chain([Q.Item(a, None, Q.Running)], map[a := 0]),
           map[Link(a, 0) := P.DoPerform(P.START, c)], map[a := 1], {a}, [c],
           map[0 := CallName(Link(a, 0), 0)])
  }

  lemma CallStarts(a: string, c: Command, rest: seq<Event>)
    requires IsRun(CallStarted(a, c), rest)
    ensures var events := [Install(a)] + ([Submit(a, c)] + ([Begin(0)] + rest));
            IsRun(Initial({a}), events) && After(Initial({a}), events) == After(CallStarted(a, c), rest)
  {
    hide IsRun, After, P.DoPerform;
    var b1 := Bridge(Q.EMPTY, map[Link(a, 0) := P.START], map[a := 1], {a}, [], map[]);
    var b2 := Bridge(Q.Chain([Q.Item(a, None, Q.Queued)], map[a := 0]), map[Link(a, 0) := P.START],
                     map[a := 1], {a}, [c], map[]);
    assert Apply(Initial({a}), Install(a)) == b1;
    assert Apply(b1, Submit(a, c)) == b2;
    assert b2.queue.Linked() && b2.queue.CanStart(0);
    assert Accepts(b2, a) && Current(b2, a) == Some(Link(a, 0));
    assert Apply(b2, Begin(0)) == CallStarted(a, c);
    RunStep(b2, Begin(0), rest);
    RunStep(b1, Submit(a, c), [Begin(0)] + rest);
    RunStep(Initial({a}), Install(a), [Submit(a, c)] + ([Begin(0)] + rest));
  }

  /** A reconnect hands out a ready session, and the address is as blocked as before. */
  lemma ReconnectDoesNotFree(b: Bridge, k: nat, a: string)
    requires Inv(b) && Blocked(b, k) && a in b.installed && a in b.generations
    ensures IsRun(b, [Remove(a), Install(a)])
    ensures var d := After(b, [Remove(a), Install(a)]); Inv(d) && Blocked(d, k) && Accepts(d, a)
  {
    hide Inv, Blocked, IsRun, After;
    var removed := Apply(b, Remove(a));
    var d := Apply(removed, Install(a));
    StepKeepsInv(b, Remove(a));
    StepKeepsInv(removed, Install(a));
    StepKeepsBlocked(b, Remove(a), k);
    StepKeepsBlocked(removed, Install(a), k);
    assert Current(d, a) == Some(Link(a, b.generations[a])) && Accepts(d, a);
    NothingMore(d);
    RunStep(removed, Install(a), []);
    RunStep(b, Remove(a), [Install(a)] + []);
    assert [Remove(a)] + ([Install(a)] + []) == [Remove(a), Install(a)];
  }

  /** The disconnect and the write's acknowledgement block the first item. */
  lemma CallDrops(a: string, c: Command)
    ensures var l, b := Link(a, 0), CallStarted(a, c);
            Enabled(b, Step(l, P.Disconnect)) &&
            var d := Apply(b, Step(l, P.Disconnect));
            Enabled(d, Step(l, P.WriteAcknowledged(0))) &&
            var e := Apply(d, Step(l, P.WriteAcknowledged(0)));
            Blocked(e, 0) && a in e.installed && a in e.generations
  {
    var b := CallStarted(a, c);
    var s := b.sessions[Link(a, 0)];
    assert s.calls == map[0 := P.Call(c, P.Writing)] && s.session.settled == map[];
    hide P.DoPerform, P.Apply, P.Enabled, Blocked;
    DisconnectBlocks(b, 0);
  }

  lemma CallStrands(a: string, c: Command) returns (events: seq<Event>)
    requires Inv(CallStarted(a, c))
    ensures IsRun(CallStarted(a, c), events)
    ensures Blocked(After(CallStarted(a, c), events), 0) && Accepts(After(CallStarted(a, c), events), a)
  {
    hide IsRun, After, CallStarted, Blocked, Inv, Accepts, Apply, Enabled;
    CallDrops(a, c);
    var b := CallStarted(a, c);
    var disconnect, acknowledge := Step(Link(a, 0), P.Disconnect), Step(Link(a, 0), P.WriteAcknowledged(0));
    var d := Apply(b, disconnect);
    StepKeepsInv(b, disconnect);
    StepKeepsInv(d, acknowledge);
    ReconnectDoesNotFree(Apply(d, acknowledge), 0, a);
    RunStep(d, acknowledge, [Remove(a), Install(a)]);
    events := [acknowledge] + [Remove(a), Install(a)];
    RunStep(b, disconnect, events);
    events := [disconnect] + events;
  }

  lemma NothingMore(b: Bridge)
    ensures IsRun(b, []) && After(b, []) == b
  {
  }
}
