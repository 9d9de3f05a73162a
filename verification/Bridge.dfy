/**
 The work queue in front of the sessions, as src/app/device-executor.ts uses it:
 polling reads, pack selections and external writes all run `perform` inside a
 work item of their device's address, on the session that the manager hands out
 when the work begins. Reconnecting removes that session and installs another,
 outside the queue and at any time.

 `isReady` alone would let two calls overlap. Here no serialisation is assumed:
 it follows from the queue, and with it the attribution of every reply.
 */
module Bridge {
  import opened Wrappers
  import opened Commands
  import Session
  import P = Protocol
  import Q = Queue
  import Correlation

  type Ticket = Session.Ticket

  /** One session of an address: its first, its second, and so on. */
  datatype Link = Link(address: string, generation: nat)

  datatype CallName = CallName(link: Link, ticket: Ticket)

  datatype Bridge = Bridge(
    queue: Q.Chain,
    sessions: map<Link, P.System>,    // every session created so far; old ones live on with their timers and promises
    generations: map<string, nat>,    // how many sessions each configured address has had
    installed: set<string>,           // addresses whose newest session the manager hands out
    jobs: seq<Command>,               // the command of each work item
    calls: map<nat, CallName>)        // the call that a work item made, unless it was refused

  datatype Event =
    | Submit(address: string, command: Command)
    | Begin(k: nat)
    | Step(link: Link, event: P.Event)
    | End(k: nat, failed: bool)
    | Remove(address: string)
    | Install(address: string)

  function AddressOf(b: Bridge, k: nat): string
    requires k < |b.queue.items|
  {
    b.queue.items[k].address
  }

  ghost predicate Running(b: Bridge, k: nat) {
    k < |b.queue.items| && b.queue.items[k].progress == Q.Running
  }

  /** The session that `getSession` returns. */
  function Current(b: Bridge, a: string): Option<Link> {
    if a in b.installed && a in b.generations && b.generations[a] > 0 then Some(Link(a, b.generations[a] - 1)) else None
  }

  /** Whether `perform` is accepted: there is a session, and it is ready. */
  ghost predicate Accepts(b: Bridge, a: string) {
    Current(b, a).Some? && Current(b, a).value in b.sessions && b.sessions[Current(b, a).value].session.IsReady()
  }

  ghost predicate Enabled(b: Bridge, e: Event) {
    match e
    case Submit(a, _) => a in b.generations
    case Begin(k) => b.queue.Linked() && b.queue.CanStart(k) && k < |b.jobs|
    case Step(l, event) => l in b.sessions && !event.Perform? && P.Enabled(b.sessions[l], event)
    case End(k, _) =>
      Running(b, k) &&
      (k in b.calls ==> b.calls[k].link in b.sessions && b.calls[k].ticket in b.sessions[b.calls[k].link].returned)
    case Remove(a) => a in b.installed
    case Install(a) => a in b.generations && a !in b.installed
  }

  ghost function DoBegin(b: Bridge, k: nat): Bridge
    requires k < |b.queue.items| && k < |b.jobs|
  {
    var a := AddressOf(b, k);
    var begun := b.(queue := b.queue.Start(k));
    if Accepts(b, a) then
      var l := Current(b, a).value;
      begun.(sessions := b.sessions[l := P.DoPerform(b.sessions[l], b.jobs[k])],
             calls := b.calls[k := CallName(l, b.sessions[l].next)])
    else begun
  }

  ghost function DoInstall(b: Bridge, a: string): Bridge
    requires a in b.generations
  {
    b.(sessions := b.sessions[Link(a, b.generations[a]) := P.START],
       generations := b.generations[a := b.generations[a] + 1],
       installed := b.installed + {a})
  }

  ghost function Apply(b: Bridge, e: Event): Bridge
    requires Enabled(b, e)
  {
    match e
    case Submit(a, c) => b.(queue := b.queue.Enqueue(a), jobs := b.jobs + [c])
    case Begin(k) => DoBegin(b, k)
    case Step(l, event) => b.(sessions := b.sessions[l := P.Apply(b.sessions[l], event)])
    case End(k, _) => b.(queue := b.queue.Finish(k))
    case Remove(a) => b.(installed := b.installed - {a})
    case Install(a) => DoInstall(b, a)
  }

  // ---------------------------------------------------------------------
  // The invariant of every run.

  /** A call in flight belongs to the work item of its address that is running. */
  ghost predicate Owned(b: Bridge, l: Link, t: Ticket) {
    exists k: nat :: Running(b, k) && AddressOf(b, k) == l.address && k in b.calls && b.calls[k] == CallName(l, t)
  }

  ghost predicate SessionOk(b: Bridge, l: Link)
    requires l in b.sessions
  {
    && P.Core(b.sessions[l])
    && l.address in b.generations && l.generation < b.generations[l.address]
    && forall t: Ticket :: t in b.sessions[l].calls ==> Owned(b, l, t)
  }

  /** The call of a work item is known to its session as a request for the item's command. */
  ghost predicate JobOk(b: Bridge, k: nat)
    requires k < |b.queue.items| == |b.jobs|
  {
    k in b.calls ==>
      var l, t := b.calls[k].link, b.calls[k].ticket;
      b.queue.items[k].progress != Q.Queued && l.address == AddressOf(b, k) &&
      l in b.sessions && t in b.sessions[l].asked && b.sessions[l].asked[t] == b.jobs[k]
  }

  ghost predicate Inv(b: Bridge) {
    && Q.Inv(b.queue)
    && |b.jobs| == |b.queue.items|
    && (forall k :: k in b.calls ==> k < |b.jobs|)
    && (forall k: nat :: k < |b.jobs| ==> JobOk(b, k))
    && (forall l :: l in b.sessions ==> SessionOk(b, l))
  }

  /** When a work item of an address may start, no call is in flight on any session of that address. */
  lemma StartFindsNoCall(b: Bridge, k: nat, l: Link)
    requires Inv(b) && Enabled(b, Begin(k)) && l in b.sessions && l.address == AddressOf(b, k)
    ensures b.sessions[l].calls == map[]
    ensures P.Serialised(b.sessions[l], P.Perform(b.jobs[k]))
  {
    hide P.Core;
    Q.StartsWhenFirst(b.queue, k);
    assert SessionOk(b, l);
    if t: Ticket :| t in b.sessions[l].calls {
      NobodyElseOwns(b, k, l, t);
    }
  }

  lemma NobodyElseOwns(b: Bridge, k: nat, l: Link, t: Ticket)
    requires Q.Inv(b.queue) && b.queue.CanStart(k) && l.address == AddressOf(b, k)
    ensures !Owned(b, l, t)
  {
    Q.StartsWhenFirst(b.queue, k);
    forall j: nat | j < |b.queue.items| && AddressOf(b, j) == AddressOf(b, k)
      ensures !Running(b, j)
    {
      NoneRunsBefore(b.queue, j, k);
    }
  }

  lemma NoneRunsBefore(c: Q.Chain, j: nat, k: nat)
    requires Q.Inv(c) && j < |c.items| && k < |c.items|
    requires c.items[j].address == c.items[k].address
    requires c.items[k].progress == Q.Queued && Q.First(c, k)
    ensures c.items[j].progress != Q.Running
  {
    assert Q.ItemOk(c, j);
    assert j < k ==> Q.Before(c, j, k);
    assert k < j ==> Q.Before(c, k, j);
  }

  /** Ownership survives as long as running items and their calls do. */
  lemma OwnershipStays(b: Bridge, d: Bridge, l: Link)
    requires forall k: nat :: Running(b, k) && AddressOf(b, k) == l.address ==>
               Running(d, k) && AddressOf(d, k) == l.address
    requires forall k :: k in b.calls ==> k in d.calls && d.calls[k] == b.calls[k]
    ensures forall t: Ticket :: Owned(b, l, t) ==> Owned(d, l, t)
  {
    forall t: Ticket | Owned(b, l, t)
      ensures Owned(d, l, t)
    {
      var k: nat :| Running(b, k) && AddressOf(b, k) == l.address && k in b.calls && b.calls[k] == CallName(l, t);
      assert Running(d, k) && AddressOf(d, k) == l.address;
    }
  }

  lemma SubmitKeepsInv(b: Bridge, a: string, c: Command)
    requires Inv(b) && Enabled(b, Submit(a, c))
    ensures Inv(Apply(b, Submit(a, c)))
  {
    hide P.Core;
    Q.EnqueueKeepsInv(b.queue, a);
    var d := Apply(b, Submit(a, c));
    hide Q.Inv;
    forall k: nat | k < |d.jobs|
      ensures JobOk(d, k)
    {
      if k < |b.jobs| {
        assert JobOk(b, k);
      }
    }
    forall l | l in d.sessions
      ensures SessionOk(d, l)
    {
      assert SessionOk(b, l);
      OwnershipStays(b, d, l);
    }
  }

  lemma PerformEffect(s: P.System, c: Command)
    requires P.Core(s) && s.calls == map[] && s.session.IsReady()
    ensures P.Core(P.DoPerform(s, c))
    ensures var d := P.DoPerform(s, c);
            (forall t: Ticket :: t in s.asked ==> t in d.asked && d.asked[t] == s.asked[t]) &&
            (forall t: Ticket :: t in d.calls ==> t == s.next) &&
            s.next in d.asked && d.asked[s.next] == c
  {
    P.PerformKeepsCore(s, c);
  }

  /** The queue moves item `k` on, and the sessions stay: all that is needed is that calls still have owners. */
  lemma BeginRefusedKeepsInv(b: Bridge, k: nat)
    requires Inv(b) && Enabled(b, Begin(k))
    ensures Inv(b.(queue := b.queue.Start(k)))
  {
    hide P.Core, Q.Chain.Fulfilled;
    Q.StartKeepsInv(b.queue, k);
    var d := b.(queue := b.queue.Start(k));
    hide Q.Inv;
    forall i: nat | i < |d.jobs|
      ensures JobOk(d, i)
    {
      assert JobOk(b, i);
    }
    forall l | l in d.sessions
      ensures SessionOk(d, l)
    {
      assert SessionOk(b, l);
      OwnershipStays(b, d, l);
    }
  }

  /** A running item without a call makes one on a session that has none in flight. */
  lemma CallKeepsInv(b: Bridge, k: nat, l: Link, s: P.System)
    requires Inv(b) && Running(b, k) && k !in b.calls && l in b.sessions && l.address == AddressOf(b, k)
    requires P.Core(s)
    requires forall t: Ticket :: t in b.sessions[l].asked ==> t in s.asked && s.asked[t] == b.sessions[l].asked[t]
    requires b.sessions[l].next in s.asked && s.asked[b.sessions[l].next] == b.jobs[k]
    requires forall t: Ticket :: t in s.calls ==> t == b.sessions[l].next
    ensures Inv(b.(sessions := b.sessions[l := s], calls := b.calls[k := CallName(l, b.sessions[l].next)]))
  {
    hide P.Core, Q.Inv;
    var d := b.(sessions := b.sessions[l := s], calls := b.calls[k := CallName(l, b.sessions[l].next)]);
    assert SessionOk(b, l);
    forall i: nat | i < |d.jobs|
      ensures JobOk(d, i)
    {
      assert JobOk(b, i);
    }
    forall m | m in d.sessions
      ensures SessionOk(d, m)
    {
      assert SessionOk(b, m);
      OwnershipStays(b, d, m);
      assert Running(d, k) && AddressOf(d, k) == l.address;
    }
  }

  lemma BeginKeepsInv(b: Bridge, k: nat)
    requires Inv(b) && Enabled(b, Begin(k))
    ensures Inv(Apply(b, Begin(k)))
  {
    BeginRefusedKeepsInv(b, k);
    var a := AddressOf(b, k);
    if Accepts(b, a) {
      var l := Current(b, a).value;
      NotYetCalled(b, k);
      StartFindsNoCall(b, k, l);
      SessionCore(b, l);
      PerformEffect(b.sessions[l], b.jobs[k]);
      hide Inv, P.Core, P.DoPerform;
      CallKeepsInv(b.(queue := b.queue.Start(k)), k, l, P.DoPerform(b.sessions[l], b.jobs[k]));
    }
  }

  lemma NotYetCalled(b: Bridge, k: nat)
    requires Inv(b) && Enabled(b, Begin(k))
    ensures k !in b.calls && k < |b.queue.items| && b.queue.items[k].progress == Q.Queued
  {
    hide P.Core, Q.Inv, Q.Chain.Fulfilled;
    assert JobOk(b, k);
  }

  lemma SessionCore(b: Bridge, l: Link)
    requires Inv(b) && l in b.sessions
    ensures P.Core(b.sessions[l])
    ensures l.address in b.generations && l.generation < b.generations[l.address]
  {
    hide P.Core, Q.Inv;
    assert SessionOk(b, l);
  }

  lemma StepEffect(s: P.System, e: P.Event)
    requires P.Core(s) && P.Enabled(s, e) && !e.Perform?
    ensures P.Core(P.Apply(s, e))
    ensures P.Apply(s, e).asked == s.asked
    ensures P.Apply(s, e).calls.Keys <= s.calls.Keys
  {
    P.StepKeepsCore(s, e);
    hide P.Core;
  }

  /** The session `l` becomes `s`, which knows the same requests and has no new call. */
  lemma ReplaceKeepsInv(b: Bridge, l: Link, s: P.System)
    requires Inv(b) && l in b.sessions && P.Core(s)
    requires s.asked == b.sessions[l].asked && s.calls.Keys <= b.sessions[l].calls.Keys
    ensures Inv(b.(sessions := b.sessions[l := s]))
  {
    var d := b.(sessions := b.sessions[l := s]);
    hide P.Core, Q.Inv;
    forall i: nat | i < |d.jobs|
      ensures JobOk(d, i)
    {
      assert JobOk(b, i);
    }
    forall m | m in d.sessions
      ensures SessionOk(d, m)
    {
      assert SessionOk(b, m);
      OwnershipStays(b, d, m);
      assert forall t: Ticket :: t in s.calls ==> t in s.calls.Keys;
    }
  }

  lemma SessionStepKeepsInv(b: Bridge, l: Link, e: P.Event)
    requires Inv(b) && Enabled(b, Step(l, e))
    ensures Inv(Apply(b, Step(l, e)))
  {
    SessionCore(b, l);
    StepEffect(b.sessions[l], e);
    hide Inv, P.Core, P.Apply, P.Enabled;
    ReplaceKeepsInv(b, l, P.Apply(b.sessions[l], e));
  }

  /** Of the calls at an address, only the running item's own can be in flight. */
  lemma RunningOwner(b: Bridge, k: nat, l: Link, t: Ticket)
    requires Inv(b) && Running(b, k) && l in b.sessions && l.address == AddressOf(b, k) && t in b.sessions[l].calls
    ensures k in b.calls && b.calls[k] == CallName(l, t)
  {
    hide P.Core;
    assert SessionOk(b, l);
    var j: nat :| Running(b, j) && AddressOf(b, j) == l.address && j in b.calls && b.calls[j] == CallName(l, t);
    Q.MutualExclusion(b.queue, j, k);
  }

  lemma CallsHaveNotReturned(s: P.System)
    requires P.Core(s)
    ensures forall t :: t in s.returned ==> t !in s.calls
  {
  }

  lemma EndFindsNoCall(b: Bridge, k: nat, l: Link)
    requires Inv(b) && Enabled(b, End(k, false)) && l in b.sessions && l.address == AddressOf(b, k)
    ensures b.sessions[l].calls == map[]
  {
    hide Inv, P.Core;
    SessionCore(b, l);
    CallsHaveNotReturned(b.sessions[l]);
    forall t: Ticket | t in b.sessions[l].calls
      ensures k in b.calls && b.calls[k] == CallName(l, t)
    {
      RunningOwner(b, k, l, t);
    }
  }

  lemma EndKeepsJob(b: Bridge, k: nat, i: nat)
    requires Inv(b) && Running(b, k) && i < |b.jobs|
    ensures JobOk(b.(queue := b.queue.Finish(k)), i)
  {
    hide P.Core, Q.Inv;
    assert JobOk(b, i);
  }

  lemma EndKeepsSession(b: Bridge, k: nat, l: Link)
    requires Inv(b) && Enabled(b, End(k, false)) && l in b.sessions
    ensures SessionOk(b.(queue := b.queue.Finish(k)), l)
  {
    hide P.Core, Q.Inv, JobOk;
    assert SessionOk(b, l);
    if l.address == AddressOf(b, k) {
      EndFindsNoCall(b, k, l);
    } else {
      OwnershipStays(b, b.(queue := b.queue.Finish(k)), l);
    }
  }

  lemma EndKeepsInv(b: Bridge, k: nat, failed: bool)
    requires Inv(b) && Enabled(b, End(k, failed))
    ensures Inv(Apply(b, End(k, failed)))
  {
    Q.FinishKeepsInv(b.queue, k);
    hide P.Core, Q.Inv, P.Enabled, JobOk, SessionOk;
    var d := b.(queue := b.queue.Finish(k));
    forall i: nat | i < |d.jobs|
      ensures JobOk(d, i)
    {
      EndKeepsJob(b, k, i);
    }
    forall l | l in d.sessions
      ensures SessionOk(d, l)
    {
      EndKeepsSession(b, k, l);
    }
  }

  lemma NewLink(b: Bridge, a: string)
    requires Inv(b) && a in b.generations
    ensures Link(a, b.generations[a]) !in b.sessions
  {
    hide P.Core, Q.Inv;
    assert forall l :: l in b.sessions ==> SessionOk(b, l);
  }

  lemma InstallKeepsJob(b: Bridge, a: string, i: nat)
    requires Inv(b) && a in b.generations && i < |b.jobs|
    ensures JobOk(DoInstall(b, a), i)
  {
    NewLink(b, a);
    hide P.Core, Q.Inv;
    assert JobOk(b, i);
  }

  lemma InstallKeepsSession(b: Bridge, a: string, l: Link)
    requires Inv(b) && a in b.generations && l in DoInstall(b, a).sessions
    ensures SessionOk(DoInstall(b, a), l)
  {
    NewLink(b, a);
    P.StartInv();
    hide P.Core, Q.Inv, JobOk;
    if l in b.sessions {
      assert SessionOk(b, l);
      OwnershipStays(b, DoInstall(b, a), l);
    }
  }

  lemma InstallKeepsInv(b: Bridge, a: string)
    requires Inv(b) && Enabled(b, Install(a))
    ensures Inv(Apply(b, Install(a)))
  {
    hide Q.Inv, JobOk, SessionOk;
    var d := DoInstall(b, a);
    forall i: nat | i < |d.jobs|
      ensures JobOk(d, i)
    {
      InstallKeepsJob(b, a, i);
    }
    forall l | l in d.sessions
      ensures SessionOk(d, l)
    {
      InstallKeepsSession(b, a, l);
    }
  }

  lemma RemoveKeepsInv(b: Bridge, a: string)
    requires Inv(b)
    ensures Inv(b.(installed := b.installed - {a}))
  {
    var d := b.(installed := b.installed - {a});
    hide P.Core, Q.Inv;
    forall i: nat | i < |d.jobs|
      ensures JobOk(d, i)
    {
      assert JobOk(b, i);
    }
    forall l | l in d.sessions
      ensures SessionOk(d, l)
    {
      assert SessionOk(b, l);
      OwnershipStays(b, d, l);
    }
  }

  /** Whatever the sessions hear, and whenever they are replaced, calls stay owned by the running items. */
  lemma StepKeepsInv(b: Bridge, e: Event)
    requires Inv(b) && Enabled(b, e)
    ensures Inv(Apply(b, e))
  {
    match e {
      case Submit(a, c) => SubmitKeepsInv(b, a, c);
      case Begin(k) => BeginKeepsInv(b, k);
      case Step(l, event) => SessionStepKeepsInv(b, l, event);
      case End(k, failed) => EndKeepsInv(b, k, failed);
      case Remove(a) => RemoveKeepsInv(b, a);
      case Install(a) => InstallKeepsInv(b, a);
    }
    hide Inv, Enabled, P.Apply, DoBegin, DoInstall;
  }

  // ---------------------------------------------------------------------
  // Whole runs.

  ghost predicate IsRun(b: Bridge, events: seq<Event>)
    decreases |events|
  {
    events == [] || (Enabled(b, events[0]) && IsRun(Apply(b, events[0]), events[1..]))
  }

  ghost function After(b: Bridge, events: seq<Event>): Bridge
    requires IsRun(b, events)
    decreases |events|
  {
    if events == [] then b else After(Apply(b, events[0]), events[1..])
  }

  /** No address has had a session yet. */
  function Initial(addresses: set<string>): Bridge {
    Bridge(Q.EMPTY, map[], map a | a in addresses :: 0, {}, [], map[])
  }

  lemma InitialInv(addresses: set<string>)
    ensures Inv(Initial(addresses))
  {
    Q.EmptyInv();
    hide Q.Inv;
  }

  lemma {:induction false} RunKeepsInv(b: Bridge, events: seq<Event>)
    requires Inv(b) && IsRun(b, events)
    ensures Inv(After(b, events))
    decreases |events|
  {
    hide Inv, Apply, Enabled;
    if events != [] {
      StepKeepsInv(b, events[0]);
      RunKeepsInv(Apply(b, events[0]), events[1..]);
    }
  }

  /** In every run at most one call per address is in flight, over all the sessions the address has had. */
  lemma OneCallPerAddress(addresses: set<string>, events: seq<Event>, l: Link, m: Link, t: Ticket, u: Ticket)
    requires IsRun(Initial(addresses), events)
    requires var b := After(Initial(addresses), events);
             l in b.sessions && m in b.sessions && l.address == m.address &&
             t in b.sessions[l].calls && u in b.sessions[m].calls
    ensures l == m && t == u
  {
    InitialInv(addresses);
    RunKeepsInv(Initial(addresses), events);
    var b := After(Initial(addresses), events);
    hide After, IsRun, Q.Inv, P.Core;
    assert SessionOk(b, l);
    var k: nat :| Running(b, k) && AddressOf(b, k) == l.address && k in b.calls && b.calls[k] == CallName(l, t);
    RunningOwner(b, k, m, u);
  }

  // ---------------------------------------------------------------------
  // On clean channels.

  predicate Clean(e: Event) {
    e.Step? ==> P.Clean(e.event)
  }

  ghost predicate AllClean(events: seq<Event>) {
    forall i :: 0 <= i < |events| ==> Clean(events[i])
  }

  ghost predicate Correlated(b: Bridge) {
    forall l :: l in b.sessions ==> P.Inv(b.sessions[l])
  }

  lemma StepKeepsCorrelated(b: Bridge, e: Event)
    requires Inv(b) && Correlated(b) && Enabled(b, e) && Clean(e)
    ensures Correlated(Apply(b, e))
  {
    hide Inv, P.Inv;
    match e {
      case Begin(k) =>
        if Accepts(b, AddressOf(b, k)) {
          var l := Current(b, AddressOf(b, k)).value;
          StartFindsNoCall(b, k, l);
          P.PerformKeepsInv(b.sessions[l], b.jobs[k]);
        }
      case Step(l, event) => P.StepKeepsInv(b.sessions[l], event);
      case Install(a) => P.StartInv();
      case _ =>
    }
    hide P.DoPerform, P.Apply, P.Enabled, P.Serialised;
  }

  lemma {:induction false} CleanRunKeepsCorrelated(b: Bridge, events: seq<Event>)
    requires Inv(b) && Correlated(b) && IsRun(b, events) && AllClean(events)
    ensures Correlated(After(b, events))
    decreases |events|
  {
    hide Inv, Correlated, Apply, Enabled, Clean;
    if events != [] {
      StepKeepsInv(b, events[0]);
      StepKeepsCorrelated(b, events[0]);
      CleanRunKeepsCorrelated(Apply(b, events[0]), events[1..]);
    }
  }

  /**
   In every run of the queue and the sessions over clean channels, across any
   number of reconnects and with any mix of submissions: whatever response a work
   item's call returns, or MODBUS exception it throws, is the device's own reply
   to that item's command.
   */
  lemma JobsGetOwnReplies(addresses: set<string>, events: seq<Event>, k: nat)
    requires IsRun(Initial(addresses), events) && AllClean(events)
    ensures var b := After(Initial(addresses), events);
            k in b.calls ==>
              var l, t := b.calls[k].link, b.calls[k].ticket;
              k < |b.jobs| && l in b.sessions && t in b.sessions[l].asked && b.sessions[l].asked[t] == b.jobs[k] &&
              Correlation.IsOwn(b.sessions[l], t)
  {
    InitialInv(addresses);
    RunKeepsInv(Initial(addresses), events);
    CleanRunKeepsCorrelated(Initial(addresses), events);
    var b := After(Initial(addresses), events);
    hide After, IsRun, Q.Inv, P.Core, P.Inv, Correlation.IsOwn;
    if k in b.calls {
      assert JobOk(b, k);
      Correlation.InvMeansOwn(b.sessions[b.calls[k].link], b.calls[k].ticket);
    }
  }
}
