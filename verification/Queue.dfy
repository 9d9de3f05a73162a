/**
 The per-address promise-chain mutex and interruptible sleep of
 src/app/device-queue.ts, and the plain FIFO lock that it refines.

 Work item `k` is the `k`-th call of `enqueue`. Its chained promise, `queued`,
 is fulfilled once the promise it waited for is and `release` has been called.
 */
module Queue {
  import opened Wrappers

  datatype Progress = Queued | Running | Finished

  datatype Item = Item(address: string, previous: Option<nat>, progress: Progress)

  /** `tails` is the source's `deviceQueues`; the items stand for the promises it chains. */
  datatype Chain = Chain(items: seq<Item>, tails: map<string, nat>)
  {
    ghost predicate Linked() {
      forall k :: 0 <= k < |items| && items[k].previous.Some? ==> items[k].previous.value < k
    }

    /** Whether the chained promise of item `k` is fulfilled. */
    ghost predicate Fulfilled(k: nat)
      requires Linked() && k < |items|
    {
      items[k].progress == Finished &&
      (items[k].previous.Some? ==> Fulfilled(items[k].previous.value))
    }

    /** Whether item `k` gets past `await previous`. */
    ghost predicate CanStart(k: nat)
      requires Linked()
    {
      k < |items| && items[k].progress == Queued &&
      (items[k].previous.Some? ==> Fulfilled(items[k].previous.value))
    }

    function Enqueue(address: string): Chain {
      var previous := if address in tails then Some(tails[address]) else None;
      Chain(items + [Item(address, previous, Queued)], tails[address := |items|])
    }

    function Start(k: nat): Chain
      requires k < |items|
    {
      this.(items := items[k := items[k].(progress := Running)])
    }

    /** The `finally` block, which runs whether the work succeeded or threw. */
    function Finish(k: nat): Chain
      requires k < |items|
    {
      var address := items[k].address;
      Chain(items[k := items[k].(progress := Finished)],
            if address in tails && tails[address] == k then tails - {address} else tails)
    }
  }

  const EMPTY := Chain([], map[])

  /** `j` is an earlier item of the same address. */
  ghost predicate Before(c: Chain, j: nat, k: nat) {
    j < k < |c.items| && c.items[j].address == c.items[k].address
  }

  /** All earlier items of the address of `k` are done. */
  ghost predicate First(c: Chain, k: nat) {
    forall j: nat :: Before(c, j, k) ==> c.items[j].progress == Finished
  }

  ghost predicate ItemOk(c: Chain, k: nat)
    requires k < |c.items|
  {
    // It waits for the one right before it, or for none when all before it were done.
    && (c.items[k].previous.None? ==> First(c, k))
    && (c.items[k].previous.Some? ==>
          Before(c, c.items[k].previous.value, k) &&
          forall j: nat :: Before(c, j, k) ==> j <= c.items[k].previous.value)
    // Whoever has started had everybody before it finished.
    && (c.items[k].progress != Queued ==> First(c, k))
  }

  /** The map entry is the latest item of its address and is outstanding; without one, all are done. */
  ghost predicate TailOk(c: Chain, address: string) {
    if address in c.tails then
      c.tails[address] < |c.items| && c.items[c.tails[address]].address == address &&
      c.items[c.tails[address]].progress != Finished &&
      forall k: nat :: k < |c.items| && c.items[k].address == address ==> k <= c.tails[address]
    else
      forall k: nat :: k < |c.items| && c.items[k].address == address ==> c.items[k].progress == Finished
  }

  ghost predicate Inv(c: Chain) {
    && c.Linked()
    && (forall k: nat :: k < |c.items| ==> ItemOk(c, k))
    && (forall a: string :: TailOk(c, a))
  }

  lemma EmptyInv()
    ensures Inv(EMPTY)
  {
  }

  /** Under the invariant the chain of promises collapses to its last link. */
  lemma {:induction false} FulfilledIsFinished(c: Chain, k: nat)
    requires Inv(c) && k < |c.items|
    ensures c.Fulfilled(k) <==> c.items[k].progress == Finished
  {
    assert ItemOk(c, k);
    if c.items[k].progress == Finished && c.items[k].previous.Some? {
      assert Before(c, c.items[k].previous.value, k);
      FulfilledIsFinished(c, c.items[k].previous.value);
    }
  }

  /** An item may start exactly when every earlier item of its address has finished. */
  lemma StartsWhenFirst(c: Chain, k: nat)
    requires Inv(c) && k < |c.items|
    ensures c.CanStart(k) <==> c.items[k].progress == Queued && First(c, k)
  {
    assert ItemOk(c, k);
    if c.items[k].previous.Some? {
      var p := c.items[k].previous.value;
      FulfilledIsFinished(c, p);
      assert ItemOk(c, p);
      assert forall j: nat :: Before(c, j, k) && j < p ==> Before(c, j, p);
    }
  }

  /** Items that finish, or are added behind, leave the facts about an item standing. */
  lemma ItemStays(c: Chain, d: Chain, k: nat)
    requires k < |c.items| <= |d.items| && ItemOk(c, k)
    requires forall j: nat :: j < |c.items| ==>
      d.items[j].address == c.items[j].address && d.items[j].previous == c.items[j].previous &&
      (c.items[j].progress == Finished ==> d.items[j].progress == Finished)
    requires d.items[k].progress == c.items[k].progress || First(d, k)
    ensures ItemOk(d, k)
  {
    assert forall j: nat :: Before(d, j, k) <==> Before(c, j, k);
  }

  lemma EnqueueKeepsInv(c: Chain, address: string)
    requires Inv(c)
    ensures Inv(c.Enqueue(address))
  {
    var d, n := c.Enqueue(address), |c.items|;
    assert TailOk(c, address);
    forall k: nat | k < |d.items|
      ensures ItemOk(d, k)
    {
      if k < n {
        ItemStays(c, d, k);
      }
    }
    forall a: string
      ensures TailOk(d, a)
    {
      assert TailOk(c, a);
    }
  }

  lemma StartKeepsInv(c: Chain, k: nat)
    requires Inv(c) && c.CanStart(k)
    ensures Inv(c.Start(k))
  {
    var d := c.Start(k);
    StartsWhenFirst(c, k);
    assert forall j: nat :: Before(d, j, k) <==> Before(c, j, k);
    forall i: nat | i < |d.items|
      ensures ItemOk(d, i)
    {
      ItemStays(c, d, i);
    }
    forall a: string
      ensures TailOk(d, a)
    {
      assert TailOk(c, a);
    }
  }

  lemma FinishKeepsInv(c: Chain, k: nat)
    requires Inv(c) && k < |c.items| && c.items[k].progress == Running
    ensures Inv(c.Finish(k))
  {
    var d := c.Finish(k);
    assert ItemOk(c, k);
    assert forall j: nat :: Before(d, j, k) <==> Before(c, j, k);
    forall i: nat | i < |d.items|
      ensures ItemOk(d, i)
    {
      ItemStays(c, d, i);
    }
    forall a: string
      ensures TailOk(d, a)
    {
      assert TailOk(c, a);
      assert forall i: nat :: i < |c.items| && c.items[i].address == c.items[k].address && i < k ==> Before(c, i, k);
    }
  }

  // ---------------------------------------------------------------------
  // Refinement of one FIFO lock per address.

  /** The unfinished items of an address in arrival order: its lock's queue, holder first. */
  function Waiting(items: seq<Item>, address: string): (q: seq<nat>)
    ensures forall i :: 0 <= i < |q| ==>
              q[i] < |items| && items[q[i]].address == address && items[q[i]].progress != Finished
  {
    if items == [] then []
    else
      var n := |items| - 1;
      var before := Waiting(items[..n], address);
      if items[n].address == address && items[n].progress != Finished then before + [n] else before
  }

  /** The queue lists exactly the outstanding items, each once, oldest first. */
  lemma {:induction false} WaitingIsSorted(items: seq<Item>, address: string)
    ensures var q := Waiting(items, address);
            (forall i, j :: 0 <= i < j < |q| ==> q[i] < q[j]) &&
            forall k :: 0 <= k < |items| && items[k].address == address && items[k].progress != Finished ==> k in q
  {
    if items != [] {
      WaitingIsSorted(items[..|items| - 1], address);
    }
  }

  /** Only progress towards `Finished` shows in the queue. */
  lemma {:induction false} WaitingAgrees(items: seq<Item>, changed: seq<Item>, address: string)
    requires |items| == |changed|
    requires forall i :: 0 <= i < |items| ==>
      changed[i].address == items[i].address &&
      (items[i].address == address ==> (changed[i].progress == Finished <==> items[i].progress == Finished))
    ensures Waiting(changed, address) == Waiting(items, address)
  {
    if items != [] {
      var n := |items| - 1;
      WaitingAgrees(items[..n], changed[..n], address);
    }
  }

  lemma WaitingStep(items: seq<Item>, address: string)
    requires items != []
    ensures var n := |items| - 1;
            var before := Waiting(items[..n], address);
            Waiting(items, address) ==
              if items[n].address == address && items[n].progress != Finished then before + [n] else before
  {
  }

  lemma {:induction false} WaitingDropsHead(items: seq<Item>, k: nat)
    requires k < |items| && items[k].progress != Finished
    requires forall j :: 0 <= j < k && items[j].address == items[k].address ==> items[j].progress == Finished
    ensures var q := Waiting(items, items[k].address);
            q != [] && q[0] == k &&
            Waiting(items[k := items[k].(progress := Finished)], items[k].address) == q[1..]
    decreases |items|
  {
    var a, n := items[k].address, |items| - 1;
    hide Waiting;
    var changed := items[k := items[k].(progress := Finished)];
    WaitingStep(items, a);
    WaitingStep(changed, a);
    if k < n {
      WaitingDropsHead(items[..n], k);
      assert changed[..n] == items[..n][k := items[k].(progress := Finished)];
    } else {
      assert changed[..n] == items[..n];
      NothingWaits(items[..n], a);
    }
  }

  lemma {:induction false} NothingWaits(items: seq<Item>, address: string)
    requires forall j :: 0 <= j < |items| && items[j].address == address ==> items[j].progress == Finished
    ensures Waiting(items, address) == []
  {
    if items != [] {
      NothingWaits(items[..|items| - 1], address);
    }
  }

  /** Enqueueing joins the back of one lock's queue and leaves the other addresses alone. */
  lemma EnqueueRefines(c: Chain, address: string, other: string)
    ensures Waiting(c.Enqueue(address).items, address) == Waiting(c.items, address) + [|c.items|]
    ensures other != address ==> Waiting(c.Enqueue(address).items, other) == Waiting(c.items, other)
  {
    assert c.Enqueue(address).items[..|c.items|] == c.items;
  }

  /** The lock is granted to the head of the queue and to nobody else; granting it moves nothing. */
  lemma StartRefines(c: Chain, k: nat, address: string)
    requires Inv(c) && k < |c.items|
    ensures var q := Waiting(c.items, c.items[k].address);
            c.CanStart(k) <==> q != [] && q[0] == k && c.items[k].progress == Queued
    ensures c.CanStart(k) ==> Waiting(c.Start(k).items, address) == Waiting(c.items, address)
  {
    var a := c.items[k].address;
    var q := Waiting(c.items, a);
    StartsWhenFirst(c, k);
    WaitingIsSorted(c.items, a);
    if c.CanStart(k) {
      assert forall j: nat :: j < k && c.items[j].address == a ==> Before(c, j, k);
      WaitingDropsHead(c.items, k);
      WaitingAgrees(c.items, c.Start(k).items, address);
    } else if q != [] && q[0] == k {
      assert forall j: nat :: Before(c, j, k) && c.items[j].progress != Finished ==> j in q;
    }
  }

  /** The holder is the head; finishing, by success or by failure, passes the lock on. */
  lemma FinishRefines(c: Chain, k: nat, other: string)
    requires Inv(c) && k < |c.items| && c.items[k].progress == Running
    ensures var a := c.items[k].address;
            var q := Waiting(c.items, a);
            q != [] && q[0] == k && Waiting(c.Finish(k).items, a) == q[1..] &&
            (other != a ==> Waiting(c.Finish(k).items, other) == Waiting(c.items, other))
  {
    assert ItemOk(c, k);
    assert forall j: nat :: j < k && c.items[j].address == c.items[k].address ==> Before(c, j, k);
    WaitingDropsHead(c.items, k);
    if other != c.items[k].address {
      WaitingAgrees(c.items, c.Finish(k).items, other);
    }
  }

  /** At most one item of an address is running. */
  lemma MutualExclusion(c: Chain, j: nat, k: nat)
    requires Inv(c) && j < |c.items| && k < |c.items|
    requires c.items[j].address == c.items[k].address
    requires c.items[j].progress == Running && c.items[k].progress == Running
    ensures j == k
  {
    assert ItemOk(c, j) && ItemOk(c, k);
    assert j < k ==> Before(c, j, k);
    assert k < j ==> Before(c, k, j);
  }

  /** Work never waits for nothing: while any is outstanding, the oldest is running or may start. */
  lemma NoLostWakeup(c: Chain, address: string)
    requires Inv(c) && Waiting(c.items, address) != []
    ensures var head := Waiting(c.items, address)[0];
            c.items[head].progress == Running || c.CanStart(head)
  {
    StartRefines(c, Waiting(c.items, address)[0], address);
  }

  /** The map has an entry for an address exactly while work of that address is outstanding, and it is the newest. */
  lemma EntryWhileOutstanding(c: Chain, address: string)
    requires Inv(c)
    ensures var q := Waiting(c.items, address);
            (address in c.tails <==> q != []) &&
            (address in c.tails ==> q[|q| - 1] == c.tails[address])
  {
    var q := Waiting(c.items, address);
    WaitingIsSorted(c.items, address);
    assert TailOk(c, address);
    if address in c.tails {
      assert c.tails[address] in q;
    } else {
      NothingWaits(c.items, address);
    }
  }

  // ---------------------------------------------------------------------
  // Whole runs.

  datatype Event = Enqueued(address: string) | Started(k: nat) | Ended(k: nat, failed: bool)

  ghost predicate Enabled(c: Chain, e: Event) {
    match e
    case Enqueued(_) => true
    case Started(k) => c.Linked() && c.CanStart(k)
    case Ended(k, _) => k < |c.items| && c.items[k].progress == Running
  }

  ghost function Apply(c: Chain, e: Event): Chain
    requires Enabled(c, e)
  {
    match e
    case Enqueued(a) => c.Enqueue(a)
    case Started(k) => c.Start(k)
    case Ended(k, _) => c.Finish(k)
  }

  lemma StepKeepsInv(c: Chain, e: Event)
    requires Inv(c) && Enabled(c, e)
    ensures Inv(Apply(c, e))
  {
    match e {
      case Enqueued(a) => EnqueueKeepsInv(c, a);
      case Started(k) => StartKeepsInv(c, k);
      case Ended(k, _) => FinishKeepsInv(c, k);
    }
  }

  // ---------------------------------------------------------------------
  // The object.

  class DeviceWorkQueue {
    var stopRequested: bool
    var sleepWaiters: set<nat>
    var deviceQueues: map<string, nat>
    var items: seq<Item>        // the promises created so far
    var woken: seq<nat>         // the sleepers resolved so far, in order
    var sleeps: nat             // sleepers created so far

    ghost function Contents(): Chain
      reads this
    {
      Chain(items, deviceQueues)
    }

    /** A sleeper is registered until it has been resolved, and is resolved once. */
    ghost predicate SleepersValid()
      reads this
    {
      && (forall w :: w in sleepWaiters ==> w < sleeps && w !in woken)
      && (forall w :: 0 <= w < sleeps ==> w in sleepWaiters || w in woken)
      && (forall i, j :: 0 <= i < j < |woken| ==> woken[i] != woken[j])
      && (forall w :: w in woken ==> w < sleeps)
    }

    constructor ()
      ensures Contents() == EMPTY && SleepersValid() && !stopRequested
    {
      stopRequested := false;
      sleepWaiters := {};
      deviceQueues := map[];
      items := [];
      woken := [];
      sleeps := 0;
    }

    /** `enqueue` up to its await. */
    method Enqueue(address: string) returns (k: nat)
      requires Inv(Contents())
      modifies this`items, this`deviceQueues
      ensures Contents() == old(Contents()).Enqueue(address) && k == |old(items)|
      ensures Inv(Contents())
    {
      EnqueueKeepsInv(Contents(), address);
      var previous := None;
      if address in deviceQueues {
        previous := Some(deviceQueues[address]);
      }
      k := |items|;
      items := items + [Item(address, previous, Queued)];
      deviceQueues := deviceQueues[address := k];
    }

    /** The await of `previous` returns and the work begins. */
    method Begin(k: nat)
      requires Inv(Contents()) && Contents().CanStart(k)
      modifies this`items
      ensures Contents() == old(Contents()).Start(k) && Inv(Contents())
    {
      StartKeepsInv(Contents(), k);
      items := items[k := items[k].(progress := Running)];
    }

    /** The `finally` block. */
    method Release(k: nat)
      requires Inv(Contents()) && k < |items| && items[k].progress == Running
      modifies this`items, this`deviceQueues
      ensures Contents() == old(Contents()).Finish(k) && Inv(Contents())
    {
      FinishKeepsInv(Contents(), k);
      var address := items[k].address;
      items := items[k := items[k].(progress := Finished)];
      if address in deviceQueues && deviceQueues[address] == k {
        deviceQueues := deviceQueues - {address};
      }
    }

    method Reset()
      modifies this`stopRequested
      ensures !stopRequested
    {
      stopRequested := false;
    }

    /** `sleep` up to its await; `None` when it returns at once. */
    method BeginSleep(ms: int) returns (sleeper: Option<nat>)
      requires SleepersValid()
      modifies this`sleepWaiters, this`sleeps
      ensures SleepersValid()
      ensures sleeper.None? <==> stopRequested || ms <= 0
      ensures sleeper.None? ==> sleepWaiters == old(sleepWaiters) && sleeps == old(sleeps)
      ensures sleeper.Some? ==> sleeper.value == old(sleeps) && sleepWaiters == old(sleepWaiters) + {sleeper.value}
    {
      if stopRequested || ms <= 0 {
        return None;
      }
      sleeper := Some(sleeps);
      sleepWaiters := sleepWaiters + {sleeps};
      sleeps := sleeps + 1;
    }

    /** `done`, called by the timer: a second call has no effect. */
    method Wake(sleeper: nat)
      requires SleepersValid() && sleeper < sleeps
      modifies this`sleepWaiters, this`woken
      ensures SleepersValid()
      ensures sleepWaiters == old(sleepWaiters) - {sleeper}
      ensures woken == if sleeper in old(sleepWaiters) then old(woken) + [sleeper] else old(woken)
    {
      if sleeper !in sleepWaiters {
        return;
      }
      sleepWaiters := sleepWaiters - {sleeper};
      woken := woken + [sleeper];
    }

    /** `stop` wakes every registered sleeper exactly once. */
    method Stop()
      requires SleepersValid()
      modifies this`stopRequested, this`sleepWaiters, this`woken
      ensures SleepersValid() && stopRequested && sleepWaiters == {}
      ensures old(woken) <= woken
      ensures forall w :: 0 <= w < sleeps ==> w in woken
    {
      stopRequested := true;
      while sleepWaiters != {}
        invariant SleepersValid() && stopRequested && old(woken) <= woken
        decreases |sleepWaiters|
      {
        var w :| w in sleepWaiters;
        Wake(w);
      }
    }
  }
}
