/**
 Adaptive polling: src/app/polling-state.ts, and the schedule that the loop in
 src/app/device-handler.ts keeps with it. All times are whole milliseconds.
 */
module Polling {

  function Min(a: int, b: int): int { if a <= b then a else b }
  function Max(a: int, b: int): int { if a >= b then a else b }

  datatype Options = Options(
    fastIntervalMs: int,
    fullIntervalMs: int,
    commandDelayMs: int,
    busyPenaltyMs: int,
    recoveryStepMs: int,
    maxFastIntervalMs: int,
    maxFullIntervalMs: int,
    maxCommandDelayMs: int)

  const DEFAULTS := Options(2500, 15000, 150, 750, 50, 8000, 45000, 750)

  /** `normalizePollingOptions` of the legacy number argument. */
  function FromInterval(intervalMs: int): Options {
    if intervalMs <= 0 then DEFAULTS
    else DEFAULTS.(fastIntervalMs := intervalMs,
                   fullIntervalMs := Max(intervalMs * 4, DEFAULTS.fullIntervalMs))
  }

  /** Every base is positive and at most its maximum, and the steps do not go backwards. */
  predicate Sane(o: Options) {
    && 0 < o.fastIntervalMs <= o.maxFastIntervalMs
    && 0 < o.fullIntervalMs && BaseFull(o) <= o.maxFullIntervalMs
    && 0 <= o.commandDelayMs <= o.maxCommandDelayMs
    && 0 <= o.busyPenaltyMs && 0 < o.recoveryStepMs
  }

  /** The full interval that a fresh schedule starts from. */
  function BaseFull(o: Options): int {
    Max(o.fullIntervalMs, o.fastIntervalMs)
  }

  /** The numbers: a positive legacy interval replaces the fast one and, if four times as long, the full one. */
  lemma IntervalMeans(intervalMs: int)
    ensures intervalMs <= 0 ==> FromInterval(intervalMs) == Options(2500, 15000, 150, 750, 50, 8000, 45000, 750)
    ensures 0 < intervalMs <= 3750 ==>
              FromInterval(intervalMs) == Options(intervalMs, 15000, 150, 750, 50, 8000, 45000, 750)
    ensures intervalMs >= 3750 ==>
              FromInterval(intervalMs) == Options(intervalMs, 4 * intervalMs, 150, 750, 50, 8000, 45000, 750)
  {
  }

  /** A legacy interval of more than eight seconds is longer than the backoff maximum it is given. */
  lemma IntervalSane(intervalMs: int)
    ensures Sane(FromInterval(intervalMs)) <==> intervalMs <= 8000
  {
  }

  // ---------------------------------------------------------------------
  // Backoff and recovery.

  datatype Timing = Timing(fastMs: int, fullMs: int, delayMs: int)

  function Initial(o: Options): Timing {
    Timing(o.fastIntervalMs, BaseFull(o), o.commandDelayMs)
  }

  function BackOff(t: Timing, o: Options): Timing {
    Timing(Min(t.fastMs + o.busyPenaltyMs, o.maxFastIntervalMs),
           Min(t.fullMs + o.busyPenaltyMs * 2, o.maxFullIntervalMs),
           Min(t.delayMs + o.recoveryStepMs, o.maxCommandDelayMs))
  }

  function Recover(t: Timing, o: Options): Timing {
    Timing(Max(o.fastIntervalMs, t.fastMs - o.recoveryStepMs),
           Max(o.fullIntervalMs, t.fullMs - o.recoveryStepMs * 2),
           Max(o.commandDelayMs, t.delayMs - o.recoveryStepMs))
  }

  /** The timing after cycles that were busy (true) or not (false). */
  function AfterCycles(t: Timing, o: Options, busy: seq<bool>): Timing {
    if busy == [] then t
    else
      var before := AfterCycles(t, o, busy[..|busy| - 1]);
      if busy[|busy| - 1] then BackOff(before, o) else Recover(before, o)
  }

  predicate InBounds(t: Timing, o: Options) {
    && o.fastIntervalMs <= t.fastMs <= o.maxFastIntervalMs
    && o.fullIntervalMs <= t.fullMs <= o.maxFullIntervalMs
    && o.commandDelayMs <= t.delayMs <= o.maxCommandDelayMs
  }

  /** Whatever the cycles report, every timing stays between its base and its maximum. */
  lemma {:induction false} CyclesStayInBounds(t: Timing, o: Options, busy: seq<bool>)
    requires Sane(o) && InBounds(t, o)
    ensures InBounds(AfterCycles(t, o, busy), o)
  {
    if busy != [] {
      CyclesStayInBounds(t, o, busy[..|busy| - 1]);
    }
  }

  /** The fast interval is never shorter than configured exactly when it was configured within its maximum. */
  lemma BackoffNeverShortens(o: Options)
    requires o.busyPenaltyMs >= 0
    ensures (forall busy :: o.fastIntervalMs <= AfterCycles(Initial(o), o, busy).fastMs)
            <==> o.fastIntervalMs <= o.maxFastIntervalMs
  {
    if o.fastIntervalMs <= o.maxFastIntervalMs {
      forall busy
        ensures o.fastIntervalMs <= AfterCycles(Initial(o), o, busy).fastMs
      {
        FastAtLeastBase(o, busy);
      }
    } else {
      assert [true][..0] == [];
      assert AfterCycles(Initial(o), o, [true]) == BackOff(Initial(o), o);
    }
  }

  lemma {:induction false} FastAtLeastBase(o: Options, busy: seq<bool>)
    requires o.busyPenaltyMs >= 0 && o.fastIntervalMs <= o.maxFastIntervalMs
    ensures o.fastIntervalMs <= AfterCycles(Initial(o), o, busy).fastMs
  {
    if busy != [] {
      FastAtLeastBase(o, busy[..|busy| - 1]);
    }
  }

  /**
   The full interval is never shorter than the one a fresh schedule starts from
   exactly when that is within its maximum and was not raised to the fast interval.
   */
  lemma FullNeverShortens(o: Options)
    requires o.busyPenaltyMs >= 0 && o.recoveryStepMs > 0
    ensures (forall busy :: BaseFull(o) <= AfterCycles(Initial(o), o, busy).fullMs)
            <==> BaseFull(o) <= o.maxFullIntervalMs && o.fullIntervalMs >= o.fastIntervalMs
  {
    if BaseFull(o) <= o.maxFullIntervalMs && o.fullIntervalMs >= o.fastIntervalMs {
      forall busy
        ensures BaseFull(o) <= AfterCycles(Initial(o), o, busy).fullMs
      {
        FullAtLeastBase(o, busy);
      }
    } else {
      var shorter := [BaseFull(o) > o.maxFullIntervalMs];
      assert shorter[..0] == [];
      assert !(BaseFull(o) <= AfterCycles(Initial(o), o, shorter).fullMs);
    }
  }

  lemma {:induction false} FullAtLeastBase(o: Options, busy: seq<bool>)
    requires o.busyPenaltyMs >= 0 && BaseFull(o) <= o.maxFullIntervalMs && o.fullIntervalMs >= o.fastIntervalMs
    ensures BaseFull(o) <= AfterCycles(Initial(o), o, busy).fullMs
  {
    if busy != [] {
      FullAtLeastBase(o, busy[..|busy| - 1]);
    }
  }

  function Repeat(b: bool, k: nat): seq<bool> {
    if k == 0 then [] else Repeat(b, k - 1) + [b]
  }

  /** `k` busy cycles in a row from any timing within bounds, in closed form. */
  lemma {:induction false} BusyClosedForm(t: Timing, o: Options, k: nat)
    requires Sane(o) && InBounds(t, o)
    ensures AfterCycles(t, o, Repeat(true, k)) ==
            Timing(Min(t.fastMs + k * o.busyPenaltyMs, o.maxFastIntervalMs),
                   Min(t.fullMs + k * (2 * o.busyPenaltyMs), o.maxFullIntervalMs),
                   Min(t.delayMs + k * o.recoveryStepMs, o.maxCommandDelayMs))
  {
    if k > 0 {
      BusyClosedForm(t, o, k - 1);
      assert Repeat(true, k)[..|Repeat(true, k)| - 1] == Repeat(true, k - 1);
      OneMore(k, o.busyPenaltyMs);
      OneMore(k, 2 * o.busyPenaltyMs);
      OneMore(k, o.recoveryStepMs);
    }
  }

  /** `k` quiet cycles in a row from any timing within bounds, in closed form. */
  lemma {:induction false} QuietClosedForm(t: Timing, o: Options, k: nat)
    requires Sane(o) && InBounds(t, o)
    ensures AfterCycles(t, o, Repeat(false, k)) ==
            Timing(Max(o.fastIntervalMs, t.fastMs - k * o.recoveryStepMs),
                   Max(o.fullIntervalMs, t.fullMs - k * (2 * o.recoveryStepMs)),
                   Max(o.commandDelayMs, t.delayMs - k * o.recoveryStepMs))
  {
    if k > 0 {
      QuietClosedForm(t, o, k - 1);
      assert Repeat(false, k)[..|Repeat(false, k)| - 1] == Repeat(false, k - 1);
      OneMore(k, o.recoveryStepMs);
      OneMore(k, 2 * o.recoveryStepMs);
    }
  }

  lemma OneMore(k: nat, step: int)
    requires k > 0
    ensures k * step == (k - 1) * step + step
    ensures step >= 0 ==> (k - 1) * step >= 0
  {
  }

  /**
   Quiet cycles bring back exactly the configured timing, and the fewest that suffice are as many as
   the distance needs.
   */
  lemma RecoveryIsComplete(t: Timing, o: Options, k: nat)
    requires Sane(o) && InBounds(t, o)
    ensures AfterCycles(t, o, Repeat(false, k)) == Timing(o.fastIntervalMs, o.fullIntervalMs, o.commandDelayMs) <==>
            k * o.recoveryStepMs >= t.fastMs - o.fastIntervalMs &&
            k * (2 * o.recoveryStepMs) >= t.fullMs - o.fullIntervalMs &&
            k * o.recoveryStepMs >= t.delayMs - o.commandDelayMs
  {
    QuietClosedForm(t, o, k);
  }

  // ---------------------------------------------------------------------
  // The schedule of one device loop.

  datatype Schedule = Schedule(nextFast: int, nextFull: int, timing: Timing)

  function CreateSchedule(o: Options): Schedule {
    Schedule(0, 0, Initial(o))
  }

  /**
   A fresh schedule is due at once, in full, and with the configured timing, its full interval no
   shorter than the fast one.
   */
  lemma FreshIsDue(o: Options, now: int)
    ensures RunsFull(CreateSchedule(o), now) <==> now >= 0
    ensures RunsFast(CreateSchedule(o), now) <==> now >= 0
    ensures var t := CreateSchedule(o).timing;
            t.fastMs == o.fastIntervalMs && t.delayMs == o.commandDelayMs &&
            o.fullIntervalMs <= t.fullMs && o.fastIntervalMs <= t.fullMs &&
            (t.fullMs == o.fullIntervalMs || t.fullMs == o.fastIntervalMs)
  {
  }

  /** What a finished cycle, or the reconnect that replaced it, does to the schedule at time `now`. */
  datatype Ending = Quiet | Busy | Reconnected

  predicate RunsFull(s: Schedule, now: int) { now >= s.nextFull }

  predicate RunsFast(s: Schedule, now: int) { RunsFull(s, now) || now >= s.nextFast }

  function EndCycle(s: Schedule, o: Options, full: bool, ending: Ending, now: int): Schedule {
    match ending
    case Reconnected =>
      Schedule(now + s.timing.fastMs, now + s.timing.fullMs, s.timing)
    case _ =>
      var timing := if ending == Busy then BackOff(s.timing, o) else Recover(s.timing, o);
      Schedule(now + timing.fastMs, if full then now + timing.fullMs else s.nextFull, timing)
  }

  /** One pass of the loop: the clock at its start, how the cycle ended if one was due, and the clock then. */
  datatype Pass = Pass(start: int, ending: Ending, end: int)

  /**
   A schedule with its history: when it was last written, when `nextFull` was
   last set and from which interval, and the fast-only cycles started since.
   */
  datatype History = History(
    schedule: Schedule,
    clock: int,
    wroteAt: int,
    setAt: int,
    fullUsed: int,
    fastOnly: nat,
    unset: bool)

  function StartHistory(o: Options, clock: int): History {
    History(CreateSchedule(o), clock, 0, 0, 0, 0, true)
  }

  predicate Monotone(h: History, p: Pass) {
    h.clock <= p.start <= p.end
  }

  function Advance(h: History, o: Options, p: Pass): History {
    var s := h.schedule;
    if !RunsFast(s, p.start) then h.(clock := p.start)
    else
      var full := RunsFull(s, p.start);
      var next := EndCycle(s, o, full, p.ending, p.end);
      if full || p.ending == Reconnected
      then History(next, p.end, p.end, p.end, next.timing.fullMs, 0, false)
      else h.(schedule := next, clock := p.end, wroteAt := p.end, fastOnly := h.fastOnly + 1)
  }

  ghost predicate Inv(h: History, o: Options) {
    && InBounds(h.schedule.timing, o)
    && (if h.unset then
          h.schedule.nextFull == 0 <= h.clock && h.fastOnly == 0
        else
          h.schedule.nextFull == h.setAt + h.fullUsed && h.fullUsed <= o.maxFullIntervalMs &&
          h.schedule.nextFast == h.wroteAt + h.schedule.timing.fastMs &&
          h.wroteAt <= h.clock &&
          h.setAt + h.fastOnly * o.fastIntervalMs <= h.wroteAt &&
          (h.fastOnly > 0 ==> h.fastOnly * o.fastIntervalMs < h.fullUsed))
  }

  lemma AdvanceKeepsInv(h: History, o: Options, p: Pass)
    requires Sane(o) && Inv(h, o) && Monotone(h, p)
    ensures Inv(Advance(h, o, p), o)
  {
    OneMore(h.fastOnly + 1, o.fastIntervalMs);
  }

  function Replay(h: History, o: Options, passes: seq<Pass>): History {
    if passes == [] then h else Advance(Replay(h, o, passes[..|passes| - 1]), o, passes[|passes| - 1])
  }

  ghost predicate AllMonotone(h: History, o: Options, passes: seq<Pass>) {
    forall i :: 0 <= i < |passes| ==> Monotone(Replay(h, o, passes[..i]), passes[i])
  }

  lemma {:induction false} ReplayKeepsInv(h: History, o: Options, passes: seq<Pass>)
    requires Sane(o) && Inv(h, o) && AllMonotone(h, o, passes)
    ensures Inv(Replay(h, o, passes), o)
  {
    hide Inv;
    if passes != [] {
      var n := |passes| - 1;
      assert forall i :: 0 <= i < n ==> passes[..n][..i] == passes[..i];
      ReplayKeepsInv(h, o, passes[..n]);
      AdvanceKeepsInv(Replay(h, o, passes[..n]), o, passes[n]);
    }
  }

  /** Which of the passes that ran a cycle to its end were busy. */
  function BusyFlags(h: History, o: Options, passes: seq<Pass>): seq<bool> {
    if passes == [] then []
    else
      var n := |passes| - 1;
      BusyFlags(h, o, passes[..n]) +
      if RunsFast(Replay(h, o, passes[..n]).schedule, passes[n].start) && passes[n].ending != Reconnected
      then [passes[n].ending == Busy] else []
  }

  /**
   The timing after any passes is that of their cycles: a busy one backs off, a quiet one recovers,
   a reconnect does neither.
   */
  lemma {:induction false} TimingOfCycles(h: History, o: Options, passes: seq<Pass>)
    ensures Replay(h, o, passes).schedule.timing == AfterCycles(h.schedule.timing, o, BusyFlags(h, o, passes))
  {
    if passes != [] {
      hide Advance;
      var n := |passes| - 1;
      var flags := BusyFlags(h, o, passes[..n]);
      TimingOfCycles(h, o, passes[..n]);
      TimingOfPass(Replay(h, o, passes[..n]), o, passes[n]);
      AfterOneMore(h.schedule.timing, o, flags, passes[n].ending == Busy);
      assert flags + [] == flags;
    }
  }

  lemma TimingOfPass(h: History, o: Options, p: Pass)
    ensures var t := h.schedule.timing;
            Advance(h, o, p).schedule.timing ==
              if !RunsFast(h.schedule, p.start) || p.ending == Reconnected then t
              else if p.ending == Busy then BackOff(t, o) else Recover(t, o)
  {
  }

  lemma AfterOneMore(t: Timing, o: Options, busy: seq<bool>, b: bool)
    ensures AfterCycles(t, o, busy + [b]) ==
            if b then BackOff(AfterCycles(t, o, busy), o) else Recover(AfterCycles(t, o, busy), o)
  {
    assert (busy + [b])[..|busy|] == busy;
  }

  /**
   What a pass makes of the targets. With nothing due it leaves them alone; a cycle
   aims the next fast one from its own end, and the next full one too if it was full
   or ended in a reconnect.
   */
  lemma PassAims(h: History, o: Options, p: Pass)
    ensures var was, next := h.schedule, Advance(h, o, p).schedule;
            var due := p.start >= was.nextFull || p.start >= was.nextFast;
            next.nextFast == (if due then p.end + next.timing.fastMs else was.nextFast) &&
            next.nextFull ==
              (if due && (p.start >= was.nextFull || p.ending == Reconnected)
               then p.end + next.timing.fullMs else was.nextFull)
  {
  }

  /** No pass runs a full cycle or ends in a reconnect. */
  ghost predicate KeepFullPoll(h: History, o: Options, passes: seq<Pass>) {
    forall i :: 0 <= i < |passes| ==> KeepsFullPoll(Replay(h, o, passes[..i]).schedule, passes[i])
  }

  predicate KeepsFullPoll(s: Schedule, p: Pass) {
    p.start < s.nextFull && (p.start >= s.nextFast ==> p.ending != Reconnected)
  }

  /** How many of the passes run a cycle. */
  function Cycles(h: History, o: Options, passes: seq<Pass>): nat {
    if passes == [] then 0
    else
      var before, p := passes[..|passes| - 1], passes[|passes| - 1];
      var s := Replay(h, o, before).schedule;
      Cycles(h, o, before) + if p.start >= s.nextFast || p.start >= s.nextFull then 1 else 0
  }

  lemma {:induction false} FastCyclesCount(h: History, o: Options, passes: seq<Pass>)
    requires KeepFullPoll(h, o, passes)
    ensures var after := Replay(h, o, passes);
            after.fastOnly == h.fastOnly + Cycles(h, o, passes) &&
            after.fullUsed == h.fullUsed && after.setAt == h.setAt
  {
    if passes != [] {
      var n := |passes| - 1;
      assert forall i :: 0 <= i < n ==> passes[..n][..i] == passes[..i];
      assert KeepsFullPoll(Replay(h, o, passes[..n]).schedule, passes[n]);
      FastCyclesCount(h, o, passes[..n]);
    }
  }

  /**
   Over every run of the loop with a clock that does not go back: after a pass that schedules the full
   poll, the fast-only cycles before the next such pass fit into the interval it was scheduled with.
   */
  lemma FastCyclesFit(o: Options, clock: int, before: seq<Pass>, p: Pass, passes: seq<Pass>)
    requires Sane(o) && clock >= 0 && AllMonotone(StartHistory(o, clock), o, before)
    requires var h := Replay(StartHistory(o, clock), o, before);
             Monotone(h, p) && RunsFast(h.schedule, p.start) && !KeepsFullPoll(h.schedule, p) &&
             AllMonotone(Advance(h, o, p), o, passes) && KeepFullPoll(Advance(h, o, p), o, passes)
    ensures var aimed := Advance(Replay(StartHistory(o, clock), o, before), o, p);
            var cycles := Cycles(aimed, o, passes);
            cycles > 0 ==> cycles * o.fastIntervalMs < aimed.schedule.timing.fullMs <= o.maxFullIntervalMs
  {
    var h := Replay(StartHistory(o, clock), o, before);
    ReplayKeepsInv(StartHistory(o, clock), o, before);
    AdvanceKeepsInv(h, o, p);
    ReplayKeepsInv(Advance(h, o, p), o, passes);
    FastCyclesCount(Advance(h, o, p), o, passes);
  }

  /**
   A fast-only cycle starts no sooner than the stored interval after the last write, and leaves the
   full poll where it was.
   */
  lemma FastCycleIsSpaced(o: Options, clock: int, passes: seq<Pass>, p: Pass)
    requires Sane(o) && clock >= 0 && AllMonotone(StartHistory(o, clock), o, passes)
    requires var h := Replay(StartHistory(o, clock), o, passes);
             Monotone(h, p) && RunsFast(h.schedule, p.start) && !RunsFull(h.schedule, p.start)
    ensures var h := Replay(StartHistory(o, clock), o, passes);
            p.start >= h.wroteAt + h.schedule.timing.fastMs &&
            (p.ending != Reconnected ==> Advance(h, o, p).schedule.nextFull == h.schedule.nextFull)
  {
    ReplayKeepsInv(StartHistory(o, clock), o, passes);
  }

  // ---------------------------------------------------------------------
  // The mutable record.

  class DevicePollingState {
    var nextFastPollAt: int
    var nextFullPollAt: int
    var fastIntervalMs: int
    var fullIntervalMs: int
    var commandDelayMs: int

    ghost function Contents(): Schedule
      reads this
    {
      Schedule(nextFastPollAt, nextFullPollAt, Timing(fastIntervalMs, fullIntervalMs, commandDelayMs))
    }

    constructor (o: Options)
      ensures Contents() == CreateSchedule(o)
    {
      nextFastPollAt := 0;
      nextFullPollAt := 0;
      fastIntervalMs := o.fastIntervalMs;
      fullIntervalMs := Max(o.fullIntervalMs, o.fastIntervalMs);
      commandDelayMs := o.commandDelayMs;
    }

    method ScheduleNextPoll(now: int)
      modifies this`nextFastPollAt, this`nextFullPollAt
      ensures forall o, full :: Contents() == EndCycle(old(Contents()), o, full, Reconnected, now)
    {
      nextFastPollAt := now + fastIntervalMs;
      nextFullPollAt := now + fullIntervalMs;
    }

    method ApplyBusyBackoff(o: Options)
      modifies this`fastIntervalMs, this`fullIntervalMs, this`commandDelayMs
      ensures Contents().timing == BackOff(old(Contents().timing), o)
    {
      fastIntervalMs := Min(fastIntervalMs + o.busyPenaltyMs, o.maxFastIntervalMs);
      fullIntervalMs := Min(fullIntervalMs + o.busyPenaltyMs * 2, o.maxFullIntervalMs);
      commandDelayMs := Min(commandDelayMs + o.recoveryStepMs, o.maxCommandDelayMs);
    }

    method RecoverPollingState(o: Options)
      modifies this`fastIntervalMs, this`fullIntervalMs, this`commandDelayMs
      ensures Contents().timing == Recover(old(Contents().timing), o)
    {
      fastIntervalMs := Max(o.fastIntervalMs, fastIntervalMs - o.recoveryStepMs);
      fullIntervalMs := Max(o.fullIntervalMs, fullIntervalMs - o.recoveryStepMs * 2);
      commandDelayMs := Max(o.commandDelayMs, commandDelayMs - o.recoveryStepMs);
    }
  }
}
