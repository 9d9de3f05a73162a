/**
 The calls of src/bluetooth/manager.ts cut at their awaits, so that they may
 overlap: the device loops reconnect their addresses concurrently, and
 `disconnectAll` may run while one of them is still reconnecting.

 Sessions and pending removals are numbered as they are created. A session that
 holds a native session is in `held`.
 */
module Ownership {

  type Id = nat

  /** An awaited disconnect, about to delete its address; a reconnect then opens a new session there. */
  datatype Removal = Removal(address: string, reopens: bool)

  datatype Owners = Owners(
    sessions: map<string, Id>,     // the manager's map
    held: set<Id>,                 // sessions whose transport holds a native session
    opening: map<Id, string>,      // sessions in `connectAndInitialize`
    closing: map<Id, Removal>,     // disconnects that a reconnect or `disconnectAll` awaits
    next: Id)

  datatype Event =
    | Close(address: string, reopens: bool)   // a call disconnects the installed session, up to its await
    | Delete(removal: Id)          // the `finally` after it, and what a reconnect does next
    | Open(address: string)        // a call starts to initialise a session where none is installed
    | Hold(id: Id)                 // its transport obtains a native session
    | LetGo(id: Id)                // a failed attempt is cleaned up
    | Fail(id: Id)                 // initialisation gives up
    | Finish(id: Id)               // it succeeds, and the session is installed

  const START := Owners(map[], {}, map[], map[], 0)

  predicate Enabled(s: Owners, e: Event) {
    match e
    case Close(a, _) => a in s.sessions
    case Delete(r) => r in s.closing
    case Open(_) => true
    case Hold(id) => id in s.opening && id !in s.held
    case LetGo(id) => id in s.opening && id in s.held
    case Fail(id) => id in s.opening && id !in s.held
    case Finish(id) => id in s.opening && id in s.held
  }

  function DoOpen(s: Owners, a: string): Owners {
    s.(opening := s.opening[s.next := a], next := s.next + 1)
  }

  function Apply(s: Owners, e: Event): Owners
    requires Enabled(s, e)
  {
    match e
    case Close(a, reopens) =>
      s.(held := s.held - {s.sessions[a]}, closing := s.closing[s.next := Removal(a, reopens)], next := s.next + 1)
    case Delete(r) =>
      var a := s.closing[r].address;
      var deleted := s.(sessions := s.sessions - {a}, closing := s.closing - {r});
      if s.closing[r].reopens then DoOpen(deleted, a) else deleted
    case Open(a) => DoOpen(s, a)
    case Hold(id) => s.(held := s.held + {id})
    case LetGo(id) => s.(held := s.held - {id})
    case Fail(id) => s.(opening := s.opening - {id})
    case Finish(id) => s.(sessions := s.sessions[s.opening[id] := id], opening := s.opening - {id})
  }

  ghost predicate IsRun(s: Owners, events: seq<Event>)
    decreases |events|
  {
    events == [] || (Enabled(s, events[0]) && IsRun(Apply(s, events[0]), events[1..]))
  }

  ghost function After(s: Owners, events: seq<Event>): Owners
    requires IsRun(s, events)
    decreases |events|
  {
    if events == [] then s else After(Apply(s, events[0]), events[1..])
  }

  // ---------------------------------------------------------------------
  // Any interleaving.

  ghost predicate Installed(s: Owners, id: Id) {
    exists a :: a in s.sessions && s.sessions[a] == id
  }

  /** It holds a native session that nobody will ever release. */
  ghost predicate Orphan(s: Owners, id: Id) {
    id in s.held && !Installed(s, id) && id !in s.opening
  }

  ghost predicate Inv(s: Owners) {
    && (forall id :: id in s.held || id in s.opening || id in s.closing ==> id < s.next)
    && (forall a :: a in s.sessions ==> s.sessions[a] < s.next && s.sessions[a] !in s.opening)
    && (forall a, b :: a in s.sessions && b in s.sessions && s.sessions[a] == s.sessions[b] ==> a == b)
  }

  lemma StepKeepsInv(s: Owners, e: Event)
    requires Inv(s) && Enabled(s, e)
    ensures Inv(Apply(s, e))
  {
  }

  /** The step takes this session out of the map. */
  ghost predicate Unmaps(s: Owners, e: Event, id: Id) {
    match e
    case Finish(other) => other in s.opening && s.opening[other] in s.sessions && s.sessions[s.opening[other]] == id
    case Delete(r) =>
      r in s.closing && s.closing[r].address in s.sessions && s.sessions[s.closing[r].address] == id
    case _ => false
  }

  lemma InstalledAfter(s: Owners, e: Event, id: Id)
    requires Inv(s) && Enabled(s, e)
    ensures Installed(Apply(s, e), id) <==> (Installed(s, id) && !Unmaps(s, e, id)) || e == Finish(id)
  {
    var d := Apply(s, e);
    forall a | a in s.sessions && s.sessions[a] == id && !Unmaps(s, e, id)
      ensures a in d.sessions && d.sessions[a] == id
    {
    }
    forall a | a in d.sessions && d.sessions[a] == id && e != Finish(id)
      ensures a in s.sessions && s.sessions[a] == id && !Unmaps(s, e, id)
    {
    }
    assert e == Finish(id) ==> s.opening[id] in d.sessions;
  }

  /** A session holds a native session from `Hold` on, until it lets it go or is closed. */
  lemma HeldAfter(s: Owners, e: Event, id: Id)
    requires Enabled(s, e)
    ensures id in Apply(s, e).held <==>
            e == Hold(id) || (id in s.held && e != LetGo(id) && (e.Close? ==> s.sessions[e.address] != id))
  {
  }

  /**
   A step leaks exactly a session that it takes out of the map while it is still
   held: by installing over it, or by deleting another session than was disconnected.
   */
  lemma LeaksExactly(s: Owners, e: Event, id: Id)
    requires Inv(s) && Enabled(s, e)
    ensures Orphan(Apply(s, e), id) <==> Orphan(s, id) || (Unmaps(s, e, id) && id in s.held)
  {
    InstalledAfter(s, e, id);
    hide Installed;
    NotBoth(s, id);
    if Unmaps(s, e, id) {
      UnmappedWasInstalled(s, e, id);
    }
  }

  lemma NotBoth(s: Owners, id: Id)
    requires Inv(s)
    ensures id in s.opening || id >= s.next ==> !Installed(s, id)
  {
  }

  lemma UnmappedWasInstalled(s: Owners, e: Event, id: Id)
    requires Unmaps(s, e, id)
    ensures Installed(s, id)
  {
  }

  /** A leaked session is never released, whatever is called later. */
  lemma {:induction false} LeakedForever(s: Owners, events: seq<Event>, id: Id)
    requires Inv(s) && IsRun(s, events) && Orphan(s, id)
    ensures Orphan(After(s, events), id)
    decreases |events|
  {
    hide Inv, Enabled, Apply, Orphan;
    if events != [] {
      StepKeepsInv(s, events[0]);
      LeaksExactly(s, events[0], id);
      LeakedForever(Apply(s, events[0]), events[1..], id);
    }
  }

  // ---------------------------------------------------------------------
  // Calls that overlap only on different addresses.

  ghost predicate Busy(s: Owners, a: string) {
    || (exists id :: id in s.opening && s.opening[id] == a)
    || (exists r :: r in s.closing && s.closing[r].address == a)
  }

  /** No call starts on an address that another call is working on, or opens over an installed session. */
  ghost predicate Exclusive(s: Owners, e: Event) {
    match e
    case Close(a, _) => !Busy(s, a)
    case Open(a) => !Busy(s, a) && a !in s.sessions
    case _ => true
  }

  ghost predicate AllExclusive(s: Owners, events: seq<Event>)
    requires IsRun(s, events)
    decreases |events|
  {
    events == [] || (Exclusive(s, events[0]) && AllExclusive(Apply(s, events[0]), events[1..]))
  }

  /**
   At most one call works on an address; what is opened there is not installed yet, what is closed
   there is let go.
   */
  ghost predicate OneAtATime(s: Owners) {
    && (forall i, j :: i in s.opening && j in s.opening && s.opening[i] == s.opening[j] ==> i == j)
    && (forall q, r :: q in s.closing && r in s.closing && s.closing[q].address == s.closing[r].address ==> q == r)
    && (forall i, r :: i in s.opening && r in s.closing ==> s.opening[i] != s.closing[r].address)
    && (forall i :: i in s.opening ==> s.opening[i] !in s.sessions)
    && (forall r :: r in s.closing ==>
          s.closing[r].address in s.sessions && s.sessions[s.closing[r].address] !in s.held)
  }

  /** The native sessions held are those of installed sessions not being closed, and of sessions being opened. */
  ghost predicate Owned(s: Owners) {
    && (forall id :: id in s.held ==> Installed(s, id) || id in s.opening)
    && (forall a :: a in s.sessions && !Busy(s, a) ==> s.sessions[a] in s.held)
  }

  lemma OpenStaysOneAtATime(s: Owners, a: string)
    requires Inv(s) && OneAtATime(s) && !Busy(s, a) && a !in s.sessions
    ensures OneAtATime(DoOpen(s, a))
  {
  }

  lemma DeleteStaysOneAtATime(s: Owners, r: Id)
    requires Inv(s) && OneAtATime(s) && r in s.closing
    ensures OneAtATime(Apply(s, Delete(r)))
  {
    var a := s.closing[r].address;
    var deleted := s.(sessions := s.sessions - {a}, closing := s.closing - {r});
    assert OneAtATime(deleted) && Inv(deleted) && !Busy(deleted, a);
    OpenStaysOneAtATime(deleted, a);
    hide OneAtATime, Inv, Busy, DoOpen;
  }

  lemma StepStaysOneAtATime(s: Owners, e: Event)
    requires Inv(s) && OneAtATime(s) && Enabled(s, e) && Exclusive(s, e)
    ensures OneAtATime(Apply(s, e))
  {
    match e {
      case Open(a) => OpenStaysOneAtATime(s, a);
      case Delete(r) => DeleteStaysOneAtATime(s, r);
      case _ =>
    }
    hide DoOpen;
  }

  /** An address that is not busy after the step was not busy before it, or the step ended the work on it. */
  lemma BusyAfter(s: Owners, e: Event, a: string)
    requires Inv(s) && OneAtATime(s) && Enabled(s, e)
    requires Busy(s, a) && !Busy(Apply(s, e), a)
    ensures e.Delete? || e.Fail? ==> a !in Apply(s, e).sessions
    ensures e.Delete? || e.Fail? || e.Finish?
    ensures e.Finish? ==> s.opening[e.id] == a
  {
    BusyStays(s, e, a);
    assert e.Fail? ==> s.opening[e.id] !in s.sessions;
    hide Inv, OneAtATime, Busy;
  }

  /** Work on an address ends only with its removal, its failure or its success. */
  lemma BusyStays(s: Owners, e: Event, a: string)
    requires Inv(s) && Enabled(s, e) && Busy(s, a)
    ensures Busy(Apply(s, e), a) || (e.Delete? && s.closing[e.removal].address == a) ||
            ((e.Fail? || e.Finish?) && s.opening[e.id] == a)
  {
    var d := Apply(s, e);
    forall id | id in s.opening && s.opening[id] == a && !((e.Fail? || e.Finish?) && e.id == id)
      ensures id in d.opening && d.opening[id] == a
    {
    }
    forall r | r in s.closing && s.closing[r].address == a && !(e.Delete? && e.removal == r)
      ensures r in d.closing && d.closing[r].address == a
    {
    }
  }

  lemma ClosingIsBusy(s: Owners, a: string, reopens: bool)
    requires a in s.sessions
    ensures Busy(Apply(s, Close(a, reopens)), a)
  {
    var d := Apply(s, Close(a, reopens));
    assert s.next in d.closing && d.closing[s.next].address == a;
  }

  lemma InstalledStayHeld(s: Owners, e: Event, a: string)
    requires Inv(s) && OneAtATime(s) && Owned(s) && Enabled(s, e) && Exclusive(s, e)
    requires a in Apply(s, e).sessions && !Busy(Apply(s, e), a)
    ensures Apply(s, e).sessions[a] in Apply(s, e).held
  {
    var d := Apply(s, e);
    if Busy(s, a) {
      BusyAfter(s, e, a);
    }
    if e.Close? {
      ClosingIsBusy(s, e.address, e.reopens);
    }
    hide Busy;
  }

  lemma StepStaysOwned(s: Owners, e: Event)
    requires Inv(s) && OneAtATime(s) && Owned(s) && Enabled(s, e) && Exclusive(s, e)
    ensures OneAtATime(Apply(s, e)) && Owned(Apply(s, e))
  {
    StepStaysOneAtATime(s, e);
    var d := Apply(s, e);
    forall id | id in d.held
      ensures Installed(d, id) || id in d.opening
    {
      HeldIsAccounted(s, e, id);
    }
    forall a | a in d.sessions && !Busy(d, a)
      ensures d.sessions[a] in d.held
    {
      InstalledStayHeld(s, e, a);
    }
  }

  lemma HeldIsAccounted(s: Owners, e: Event, id: Id)
    requires Inv(s) && OneAtATime(s) && Owned(s) && Enabled(s, e) && id in Apply(s, e).held
    ensures Installed(Apply(s, e), id) || id in Apply(s, e).opening
  {
    InstalledAfter(s, e, id);
    hide Installed;
  }

  /**
   However calls on different addresses overlap, nothing is leaked: a native
   session is held exactly by an installed session that is not being closed, or by
   one that is being opened. With no call in progress, exactly by the installed ones.
   */
  lemma {:induction false} OwnedThroughout(s: Owners, events: seq<Event>)
    requires Inv(s) && OneAtATime(s) && Owned(s) && IsRun(s, events) && AllExclusive(s, events)
    ensures var d := After(s, events);
            Owned(d) && (forall id :: !Orphan(d, id)) &&
            (d.opening == map[] && d.closing == map[] ==> forall id :: id in d.held <==> Installed(d, id))
    decreases |events|
  {
    if events != [] {
      hide Inv, OneAtATime, Owned, Enabled, Apply, Exclusive;
      StepKeepsInv(s, events[0]);
      StepStaysOwned(s, events[0]);
      OwnedThroughout(Apply(s, events[0]), events[1..]);
    }
  }

  lemma StartOwned()
    ensures Inv(START) && OneAtATime(START) && Owned(START)
  {
  }

  // ---------------------------------------------------------------------
  // After `disconnectAll`.

  /** The calls in progress go on, and no new one is made; `connectAll` has a session being opened whenever it waits. */
  ghost predicate NoNewCall(events: seq<Event>) {
    forall i :: 0 <= i < |events| ==> !events[i].Open? && !events[i].Close?
  }

  /** Nothing is held, and nothing will be unless a new call is made. */
  ghost predicate ReleasedForGood(s: Owners) {
    forall events :: IsRun(s, events) && NoNewCall(events) ==> After(s, events).held == {}
  }

  /** A reconnect still awaits its disconnect. */
  ghost predicate Reopens(s: Owners) {
    exists r :: r in s.closing && s.closing[r].reopens
  }

  lemma {:induction false} NothingComes(s: Owners, events: seq<Event>)
    requires s.sessions == map[] && s.opening == map[] && s.held == {} && !Reopens(s)
    requires IsRun(s, events) && NoNewCall(events)
    ensures After(s, events).held == {}
    decreases |events|
  {
    if events != [] {
      NothingComes(Apply(s, events[0]), events[1..]);
    }
  }

  /**
   With the map emptied, the native sessions are released for good if and only if
   none has leaked, no session is still being opened, and no reconnect still awaits
   its disconnect: one that does will open and install a session with nobody left
   to release it.
   */
  lemma DisconnectAllReleases(s: Owners)
    requires Inv(s) && s.sessions == map[]
    ensures ReleasedForGood(s) <==> s.opening == map[] && !Reopens(s) && forall id :: !Orphan(s, id)
  {
    if s.opening != map[] {
      var id :| id in s.opening;
      StillComes(s, id);
    } else if Reopens(s) {
      var r :| r in s.closing && s.closing[r].reopens;
      StillReopens(s, r);
    } else if id :| Orphan(s, id) {
      assert IsRun(s, []) && After(s, []) == s;
    } else {
      assert forall id :: id in s.held ==> Orphan(s, id);
      forall events | IsRun(s, events) && NoNewCall(events)
        ensures After(s, events).held == {}
      {
        NothingComes(s, events);
      }
    }
  }

  lemma StillComes(s: Owners, id: Id)
    requires id in s.opening
    ensures !ReleasedForGood(s)
  {
    if id in s.held {
      assert IsRun(s, []) && After(s, []) == s;
    } else {
      RunStep(s, Hold(id), []);
    }
  }

  lemma StillReopens(s: Owners, r: Id)
    requires Inv(s) && r in s.closing && s.closing[r].reopens
    ensures !ReleasedForGood(s)
  {
    var reopened := Apply(s, Delete(r));
    RunStep(reopened, Hold(s.next), []);
    RunStep(s, Delete(r), [Hold(s.next)] + []);
  }

  lemma RunStep(s: Owners, e: Event, rest: seq<Event>)
    requires Enabled(s, e) && IsRun(Apply(s, e), rest)
    ensures IsRun(s, [e] + rest) && After(s, [e] + rest) == After(Apply(s, e), rest)
  {
    hide Enabled, Apply;
    assert ([e] + rest)[1..] == rest;
  }

  // ---------------------------------------------------------------------
  // It happens.

  /** A session that a reconnect and `disconnectAll` both disconnect. */
  function BothClosing(a: string): Owners {
    Owners(map[a := 0], {}, map[], map[1 := Removal(a, true), 2 := Removal(a, false)], 3)
  }

  lemma NothingMore(s: Owners)
    ensures IsRun(s, []) && After(s, []) == s
  {
  }

  /** The state is reached from the start, so whatever follows it is. */
  lemma BothClose(a: string, rest: seq<Event>) returns (events: seq<Event>)
    requires IsRun(BothClosing(a), rest)
    ensures IsRun(START, events) && After(START, events) == After(BothClosing(a), rest)
  {
    hide IsRun, After;
    var opening := Owners(map[], {}, map[0 := a], map[], 1);
    var holding := Owners(map[], {0}, map[0 := a], map[], 1);
    var connected := Owners(map[a := 0], {0}, map[], map[], 1);
    var reconnecting := Owners(map[a := 0], {}, map[], map[1 := Removal(a, true)], 2);
    assert Apply(START, Open(a)) == opening && Apply(opening, Hold(0)) == holding;
    assert Apply(holding, Finish(0)) == connected;
    assert Apply(connected, Close(a, true)) == reconnecting;
    assert Apply(reconnecting, Close(a, false)) == BothClosing(a);
    events := Prepend(reconnecting, Close(a, false), rest);
    events := Prepend(connected, Close(a, true), events);
    events := Prepend(holding, Finish(0), events);
    events := Prepend(opening, Hold(0), events);
    events := Prepend(START, Open(a), events);
  }

  lemma Prepend(s: Owners, e: Event, rest: seq<Event>) returns (events: seq<Event>)
    requires Enabled(s, e) && IsRun(Apply(s, e), rest)
    ensures IsRun(s, events) && After(s, events) == After(Apply(s, e), rest)
  {
    RunStep(s, e, rest);
    events := [e] + rest;
  }

  /**
   A reconnect that overlaps `disconnectAll` on its address: both close the old
   session, the reconnect installs a new one, and the late delete drops it.
   */
  lemma OverlapLeaks(a: string)
    ensures exists events, id :: IsRun(START, events) && Orphan(After(START, events), id)
  {
    var reopened := Owners(map[], {}, map[3 := a], map[2 := Removal(a, false)], 4);
    var holding := Owners(map[], {3}, map[3 := a], map[2 := Removal(a, false)], 4);
    var replaced := Owners(map[a := 3], {3}, map[], map[2 := Removal(a, false)], 4);
    var end := Owners(map[], {3}, map[], map[], 4);
    assert !Installed(end, 3) && Orphan(end, 3);
    hide IsRun, After, Installed, Orphan;
    assert Apply(BothClosing(a), Delete(1)) == reopened && Apply(reopened, Hold(3)) == holding;
    assert Apply(holding, Finish(3)) == replaced && Apply(replaced, Delete(2)) == end;
    NothingMore(end);
    var events := Prepend(replaced, Delete(2), []);
    events := Prepend(holding, Finish(3), events);
    events := Prepend(reopened, Hold(3), events);
    events := Prepend(BothClosing(a), Delete(1), events);
    events := BothClose(a, events);
    assert After(START, events) == end;
  }

  /**
   The reconnect outlives `disconnectAll`: the map is empty, nothing is held,
   nothing has leaked and nothing is being opened, and still not all is released.
   */
  lemma ReconnectOutlives(a: string)
    ensures exists events ::
              IsRun(START, events) &&
              var s := After(START, events);
              s.sessions == map[] && s.held == {} && s.opening == map[] && !ReleasedForGood(s)
  {
    var end := Owners(map[], {}, map[], map[1 := Removal(a, true)], 3);
    StillReopens(end, 1);
    hide IsRun, After, ReleasedForGood;
    assert Apply(BothClosing(a), Delete(2)) == end;
    NothingMore(end);
    var events := Prepend(BothClosing(a), Delete(2), []);
    events := BothClose(a, events);
    assert After(START, events) == end;
  }
}
