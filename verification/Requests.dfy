/**
 The helper process's request table: src/bluetooth/helper-request.ts,
 helper-line-router.ts and the process events of helper-client.ts.

 A request is a caller that checks the disposed flag, waits for the helper to be
 ready, and then registers under a new id and writes its line, in one step. What
 each caller is told is kept as the sequence of `resolve` and `reject` calls made
 on its behalf.
 */
module Requests {
  import opened Wrappers

  type Id = nat
  type Call = nat
  type Payload = map<string, string>

  datatype Error =
    | Disposed
    | TimedOut
    | Helper(code: string, message: string)
    | WriteFailed
    | InvalidLine
    | ProcessFailed
    | StdinFailed
    | Exited
  datatype Outcome = Resolved(payload: Option<Payload>) | Rejected(error: Error)

  /** One stdout line, already parsed. */
  datatype Message =
    | Malformed
    | ReadyEvent
    | OtherEvent
    | Response(id: Option<Id>, payload: Option<Payload>)
    | Failure(id: Option<Id>, code: string, text: string)

  datatype ReadyPromise = Unsettled | Fulfilled | Broken(error: Error)

  datatype Table = Table(
    ready: ReadyPromise,
    readyResolved: bool,
    disposed: bool,
    waiting: set<Call>,
    pending: map<Id, Call>,
    timers: set<Id>,
    outcomes: map<Call, seq<Outcome>>
  )

  const NO_REQUESTS := Table(Unsettled, false, false, {}, map[], {}, map[])

  // ---------------------------------------------------------------------
  // What each event does.

  function Told(t: Table, c: Call): seq<Outcome> {
    if c in t.outcomes then t.outcomes[c] else []
  }

  function Settle(t: Table, c: Call, o: Outcome): Table {
    t.(outcomes := t.outcomes[c := Told(t, c) + [o]])
  }

  /** A promise keeps its first settlement. */
  function BreakReady(t: Table, e: Error): Table {
    if t.ready.Unsettled? && !t.readyResolved then t.(ready := Broken(e)) else t
  }

  function DoBegin(t: Table, c: Call): Table {
    if t.disposed then t.(outcomes := t.outcomes[c := [Rejected(Disposed)]])
    else t.(outcomes := t.outcomes[c := []], waiting := t.waiting + {c})
  }

  function DoResume(t: Table, c: Call, id: Id, writeFails: bool): Table {
    var awake := t.(waiting := t.waiting - {c});
    if t.ready.Broken? then Settle(awake, c, Rejected(t.ready.error))
    else if writeFails then Settle(awake, c, Rejected(WriteFailed))
    else awake.(pending := t.pending[id := c], timers := t.timers + {id})
  }

  /** Answers a pending request; an unknown id changes nothing. */
  function Answer(t: Table, id: Option<Id>, o: Outcome): Table {
    if id.None? || id.value !in t.pending then t
    else Settle(t, t.pending[id.value], o).(pending := t.pending - {id.value}, timers := t.timers - {id.value})
  }

  function DoLine(t: Table, m: Message): Table {
    match m
    case Malformed => BreakReady(t, InvalidLine)
    case ReadyEvent => t.(readyResolved := true, ready := if t.ready.Unsettled? then Fulfilled else t.ready)
    case OtherEvent => t
    case Response(id, payload) => Answer(t, id, Resolved(payload))
    case Failure(id, code, text) => Answer(t, id, Rejected(Helper(code, text)))
  }

  function DoExpire(t: Table, id: Id): Table {
    Answer(t, Some(id), Rejected(TimedOut)).(timers := t.timers - {id})
  }

  function TellAll(outcomes: map<Call, seq<Outcome>>, told: set<Call>, o: Outcome): map<Call, seq<Outcome>> {
    map c | c in outcomes :: if c in told then outcomes[c] + [o] else outcomes[c]
  }

  function RejectAll(t: Table, e: Error): Table {
    t.(outcomes := TellAll(t.outcomes, t.pending.Values, Rejected(e)),
       timers := t.timers - t.pending.Keys,
       pending := map[])
  }

  function DoProcessError(t: Table): Table {
    RejectAll(BreakReady(t, ProcessFailed), ProcessFailed)
  }

  /** The exit of a disposed helper forgets what is pending, with its timers still running. */
  function DoExit(t: Table): Table {
    if t.disposed then BreakReady(t, Disposed).(pending := map[])
    else RejectAll(BreakReady(t, Exited), Exited)
  }

  function DoDispose(t: Table): Table {
    RejectAll(t, Disposed).(disposed := true)
  }

  // ---------------------------------------------------------------------
  // Runs.

  datatype Event =
    | Begin(call: Call)
    | Resume(call: Call, newId: Id, writeFails: bool)
    | Line(message: Message)
    | Expire(id: Id)
    | ProcessError
    | StdinError
    | Exit
    | Dispose

  /** The table with its history: the ids handed out, those registered after a dispose, and those an exit forgot. */
  datatype System = System(table: Table, issued: map<Id, Call>, late: set<Id>, lost: set<Id>, exited: bool)

  const START := System(NO_REQUESTS, map[], {}, {}, false)

  predicate Enabled(s: System, e: Event) {
    match e
    case Begin(c) => c !in s.table.outcomes
    case Resume(c, id, _) => c in s.table.waiting && !s.table.ready.Unsettled? && id !in s.issued
    case Expire(id) => id in s.table.timers
    case Exit => !s.exited
    case _ => true
  }

  predicate Registers(t: Table, e: Event) {
    e.Resume? && t.ready.Fulfilled? && !e.writeFails
  }

  function Step(t: Table, e: Event): Table {
    match e
    case Begin(c) => DoBegin(t, c)
    case Resume(c, id, writeFails) => DoResume(t, c, id, writeFails)
    case Line(m) => DoLine(t, m)
    case Expire(id) => DoExpire(t, id)
    case ProcessError => DoProcessError(t)
    case StdinError => RejectAll(t, StdinFailed)
    case Exit => DoExit(t)
    case Dispose => DoDispose(t)
  }

  function Apply(s: System, e: Event): System {
    System(
      Step(s.table, e),
      if Registers(s.table, e) then s.issued[e.newId := e.call] else s.issued,
      if Registers(s.table, e) && s.table.disposed then s.late + {e.newId} else s.late,
      if e.Exit? && s.table.disposed then s.lost + s.table.pending.Keys else s.lost,
      s.exited || e.Exit?)
  }

  function After(events: seq<Event>): System {
    if events == [] then START else Apply(After(events[..|events| - 1]), events[|events| - 1])
  }

  ghost predicate IsRun(events: seq<Event>)
    decreases |events|
  {
    events == [] ||
    (IsRun(events[..|events| - 1]) && Enabled(After(events[..|events| - 1]), events[|events| - 1]))
  }

  lemma Extend(events: seq<Event>, e: Event)
    ensures After(events + [e]) == Apply(After(events), e)
    ensures IsRun(events + [e]) <==> IsRun(events) && Enabled(After(events), e)
  {
    assert (events + [e])[..|events|] == events;
  }

  /** What the caller registered under an id has been told. */
  function ToldAs(s: System, id: Id): seq<Outcome> {
    if id in s.issued then Told(s.table, s.issued[id]) else []
  }

  // ---------------------------------------------------------------------
  // Invariants of every run.

  /** Ids and callers belong together one to one; pending requests are among them, each with a running deadline. */
  ghost predicate Correlated(s: System) {
    var t := s.table;
    && t.pending.Keys <= t.timers <= s.issued.Keys
    && (forall id :: id in t.pending ==> t.pending[id] == s.issued[id])
    && (forall i, j :: i in s.issued && j in s.issued && s.issued[i] == s.issued[j] ==> i == j)
    && (forall id :: id in s.issued ==> s.issued[id] in t.outcomes && s.issued[id] !in t.waiting)
  }

  /** A caller is told at most one thing, and nothing while it waits for the helper. */
  ghost predicate Single(s: System) {
    && (forall c :: c in s.table.outcomes ==> |s.table.outcomes[c]| <= 1)
    && (forall c :: c in s.table.waiting ==> c in s.table.outcomes && s.table.outcomes[c] == [])
  }

  /** A registered request has been told nothing exactly if it is pending or was forgotten. */
  ghost predicate Accounted(s: System) {
    && s.lost <= s.late <= s.issued.Keys
    && (forall id :: id in s.issued ==>
          (Told(s.table, s.issued[id]) == [] <==> id in s.table.pending || id in s.lost))
    && (forall id :: id in s.lost ==> id !in s.table.pending)
    && (forall id :: id in s.table.timers ==> id in s.table.pending || id in s.lost)
  }

  ghost predicate Lifecycle(s: System) {
    && (s.table.disposed ==> s.table.pending.Keys <= s.late)
    && (!s.table.disposed ==> s.late == {})
    && (s.exited || s.table.readyResolved ==> !s.table.ready.Unsettled?)
    && (s.lost != {} ==> s.exited)
  }

  ghost predicate Inv(s: System) {
    Correlated(s) && Single(s) && Accounted(s) && Lifecycle(s)
  }

  lemma RejectAllKeepsInv(s: System, e: Error)
    requires Inv(s)
    ensures Inv(s.(table := RejectAll(s.table, e)))
  {
    var t := RejectAll(s.table, e);
    forall id | id in s.issued
      ensures Told(t, s.issued[id]) == [] <==> id in s.lost
    {
      var c := s.issued[id];
      if c in s.table.pending.Values {
        var other :| other in s.table.pending && s.table.pending[other] == c;
        assert other == id;
      }
    }
    forall c | c in t.outcomes
      ensures |t.outcomes[c]| <= 1
    {
      if c in s.table.pending.Values {
        var id :| id in s.table.pending && s.table.pending[id] == c;
        assert s.issued[id] == c && Told(s.table, c) == [];
      }
    }
  }

  lemma AnswerKeepsInv(s: System, id: Option<Id>, o: Outcome)
    requires Inv(s)
    ensures Inv(s.(table := Answer(s.table, id, o)))
  {
  }

  lemma BreakReadyKeepsInv(s: System, e: Error)
    requires Inv(s)
    ensures Inv(s.(table := BreakReady(s.table, e)))
  {
  }

  lemma BeginKeepsInv(s: System, c: Call)
    requires Inv(s) && c !in s.table.outcomes
    ensures Inv(s.(table := DoBegin(s.table, c)))
  {
    var s' := s.(table := DoBegin(s.table, c));
    assert Correlated(s');
    assert Single(s');
    assert Accounted(s') by {
      assert forall id :: id in s.issued ==> Told(s'.table, s.issued[id]) == Told(s.table, s.issued[id]);
    }
  }

  /** A caller that fails on waking up is told so, and never registers. */
  lemma WakingFailureKeepsInv(s: System, c: Call, o: Outcome)
    requires Inv(s) && c in s.table.waiting
    ensures Inv(s.(table := Settle(s.table.(waiting := s.table.waiting - {c}), c, o)))
  {
    var s' := s.(table := Settle(s.table.(waiting := s.table.waiting - {c}), c, o));
    assert Correlated(s');
    assert Single(s');
    assert Accounted(s') by {
      assert forall id :: id in s.issued ==> Told(s'.table, s.issued[id]) == Told(s.table, s.issued[id]);
    }
  }

  lemma RegisterKeepsInv(s: System, e: Event)
    requires Inv(s) && e.Resume? && Enabled(s, e) && Registers(s.table, e)
    ensures Inv(Apply(s, e))
  {
    var s' := Apply(s, e);
    assert e.newId !in s.issued;
    assert forall id :: id in s.issued ==> s.issued[id] != e.call && s'.issued[id] == s.issued[id];
    assert Correlated(s') by {
      assert forall id :: id in s'.issued ==> id in s.issued || id == e.newId;
    }
    assert Single(s');
    assert Accounted(s') by { RegisterAccounts(s, e); }
  }

  lemma RegisterAccounts(s: System, e: Event)
    requires Inv(s) && e.Resume? && Enabled(s, e) && Registers(s.table, e)
    ensures Accounted(Apply(s, e))
  {
    var s' := Apply(s, e);
    forall id | id in s'.issued
      ensures Told(s'.table, s'.issued[id]) == [] <==> id in s'.table.pending || id in s'.lost
    {
      if id != e.newId {
        assert id in s.issued;
      }
    }
  }

  lemma StepKeepsInv(s: System, e: Event)
    requires Inv(s) && Enabled(s, e)
    ensures Inv(Apply(s, e))
  {
    hide Inv;
    match e
    case Begin(c) => BeginKeepsInv(s, c);
    case Resume(c, id, writeFails) =>
      if s.table.ready.Broken? {
        WakingFailureKeepsInv(s, c, Rejected(s.table.ready.error));
      } else if writeFails {
        WakingFailureKeepsInv(s, c, Rejected(WriteFailed));
      } else {
        RegisterKeepsInv(s, e);
      }
    case Line(m) =>
      match m {
        case Malformed => BreakReadyKeepsInv(s, InvalidLine);
        case ReadyEvent => ReadyKeepsInv(s);
        case Response(id, payload) => AnswerKeepsInv(s, id, Resolved(payload));
        case Failure(id, code, text) => AnswerKeepsInv(s, id, Rejected(Helper(code, text)));
        case OtherEvent =>
      }
    case Expire(id) => ExpireKeepsInv(s, id);
    case ProcessError =>
      BreakReadyKeepsInv(s, ProcessFailed);
      RejectAllKeepsInv(s.(table := BreakReady(s.table, ProcessFailed)), ProcessFailed);
    case StdinError => RejectAllKeepsInv(s, StdinFailed);
    case Exit => ExitKeepsInv(s);
    case Dispose => DisposeKeepsInv(s);
  }

  lemma ReadyKeepsInv(s: System)
    requires Inv(s)
    ensures Inv(s.(table := DoLine(s.table, ReadyEvent)))
  {
  }

  lemma ExpireKeepsInv(s: System, id: Id)
    requires Inv(s)
    ensures Inv(s.(table := DoExpire(s.table, id)))
  {
    AnswerKeepsInv(s, Some(id), Rejected(TimedOut));
  }

  lemma ExitKeepsInv(s: System)
    requires Inv(s)
    ensures Inv(Apply(s, Exit))
  {
    var error := if s.table.disposed then Disposed else Exited;
    var broken := s.(table := BreakReady(s.table, error));
    BreakReadyKeepsInv(s, error);
    if !s.table.disposed {
      RejectAllKeepsInv(broken, Exited);
    }
  }

  lemma DisposeKeepsInv(s: System)
    requires Inv(s)
    ensures Inv(s.(table := DoDispose(s.table)))
  {
    RejectAllKeepsInv(s, Disposed);
  }

  lemma {:induction false} RunKeepsInv(events: seq<Event>)
    requires IsRun(events)
    ensures Inv(After(events))
    decreases |events|
  {
    hide Inv, Apply, Enabled;
    if events == [] {
      StartInv();
    } else {
      RunKeepsInv(events[..|events| - 1]);
      StepKeepsInv(After(events[..|events| - 1]), events[|events| - 1]);
    }
  }

  lemma StartInv()
    ensures Inv(START)
  {
  }

  // ---------------------------------------------------------------------
  // Settlement.

  /**
   In every run each caller is told at most one thing; a request registered before
   any dispose is pending exactly while it has been told nothing.
   */
  lemma SettledAtMostOnce(events: seq<Event>)
    requires IsRun(events)
    ensures var s := After(events);
            && (forall c :: c in s.table.outcomes ==> |s.table.outcomes[c]| <= 1)
            && (forall id :: id in s.issued && id !in s.late ==>
                  (id in s.table.pending <==> ToldAs(s, id) == []))
  {
    RunKeepsInv(events);
  }

  /** Nothing pending can hang: its deadline is running, and settles it. */
  lemma DeadlineSettles(events: seq<Event>, id: Id)
    requires IsRun(events) && id in After(events).table.pending
    ensures var s := After(events);
            && Enabled(s, Expire(id))
            && id !in Apply(s, Expire(id)).table.pending
            && ToldAs(Apply(s, Expire(id)), id) == [Rejected(TimedOut)]
  {
    RunKeepsInv(events);
  }

  /** A caller waiting for the helper registers, or is told its error, as soon as readiness is settled either way. */
  lemma WaitingEnds(events: seq<Event>, c: Call, id: Id, writeFails: bool)
    requires IsRun(events) && c in After(events).table.waiting && id !in After(events).issued
    requires !After(events).table.ready.Unsettled?
    ensures var s := After(events);
            && Enabled(s, Resume(c, id, writeFails))
            && (var s' := Apply(s, Resume(c, id, writeFails));
                (id in s'.table.pending && s'.table.pending[id] == c) || |Told(s'.table, c)| == 1)
  {
    RunKeepsInv(events);
  }

  /** Readiness is settled once the helper has said it is ready, or is gone. */
  lemma ReadinessSettles(events: seq<Event>)
    requires IsRun(events)
    ensures var s := After(events); s.exited || s.table.readyResolved ==> !s.table.ready.Unsettled?
  {
    RunKeepsInv(events);
  }

  /** The helper neither becomes ready nor fails: no ready line, no malformed line, no process error, no exit. */
  predicate Wedged(e: Event) {
    match e
    case Line(ReadyEvent) => false
    case Line(Malformed) => false
    case ProcessError => false
    case Exit => false
    case _ => true
  }

  ghost predicate AllWedged(events: seq<Event>) {
    forall i :: 0 <= i < |events| ==> Wedged(events[i])
  }

  lemma {:induction false} WedgedTellsNothing(events: seq<Event>, more: seq<Event>, c: Call)
    requires IsRun(events) && c in After(events).table.waiting && After(events).table.ready.Unsettled?
    requires IsRun(events + more) && AllWedged(more)
    ensures var t := After(events + more).table; t.ready.Unsettled? && c in t.waiting && Told(t, c) == []
    decreases |more|
  {
    RunKeepsInv(events);
    if more == [] {
      assert events + more == events;
    } else {
      var n := |more| - 1;
      assert (events + more)[..|events| + n] == events + more[..n];
      WedgedTellsNothing(events, more[..n], c);
      RunKeepsInv(events + more[..n]);
      WedgedStep(After(events + more[..n]), more[n], c);
    }
  }

  lemma WedgedStep(s: System, e: Event, c: Call)
    requires Inv(s) && Enabled(s, e) && Wedged(e) && s.table.ready.Unsettled? && c in s.table.waiting
    requires Told(s.table, c) == []
    ensures var t := Step(s.table, e); t.ready.Unsettled? && c in t.waiting && Told(t, c) == []
  {
  }

  lemma {:induction false} NewId(issued: map<Id, Call>) returns (id: Id)
    ensures id !in issued
    ensures forall other :: other in issued ==> other < id
    decreases |issued|
  {
    if issued == map[] {
      id := 0;
    } else {
      var some :| some in issued;
      var bound := NewId(issued - {some});
      id := if some < bound then bound else some + 1;
      assert forall other :: other in issued ==> other == some || other in issued - {some};
    }
  }

  /**
   A wedged helper does stall its callers: one that waits for readiness has no
   deadline, and can be told anything, while the helper neither becomes ready nor
   fails, if and only if readiness is settled already.
   */
  lemma WaitingToldExactly(events: seq<Event>, c: Call)
    requires IsRun(events) && c in After(events).table.waiting
    ensures (exists more :: IsRun(events + more) && AllWedged(more) && Told(After(events + more).table, c) != []) <==>
            !After(events).table.ready.Unsettled?
  {
    var s := After(events);
    if s.table.ready.Unsettled? {
      forall more | IsRun(events + more) && AllWedged(more)
        ensures Told(After(events + more).table, c) == []
      {
        WedgedTellsNothing(events, more, c);
      }
    } else {
      var id := NewId(s.issued);
      RunKeepsInv(events);
      var resumed := [Resume(c, id, false)];
      Extend(events, Resume(c, id, false));
      if Told(After(events + resumed).table, c) == [] {
        RegisteredThenExpires(s, c, id);
        Extend(events + resumed, Expire(id));
        var more := resumed + [Expire(id)];
        assert events + more == events + resumed + [Expire(id)];
        hide After, IsRun;
        assert AllWedged(more);
      } else {
        assert AllWedged(resumed);
      }
    }
  }

  lemma RegisteredThenExpires(s: System, c: Call, id: Id)
    requires Inv(s) && Enabled(s, Resume(c, id, false))
    ensures var s' := Apply(s, Resume(c, id, false));
            Told(s'.table, c) == [] ==> Enabled(s', Expire(id)) && Told(Apply(s', Expire(id)).table, c) != []
  {
  }

  /** The deadline of a request runs exactly while it is pending, but for requests that were forgotten. */
  lemma DeadlinesRunWhilePending(events: seq<Event>, id: Id)
    requires IsRun(events) && id !in After(events).lost
    ensures id in After(events).table.timers <==> id in After(events).table.pending
  {
    RunKeepsInv(events);
  }

  /** What each failure tells: the requests pending at the time, or the caller that it refuses. */
  lemma FailuresTell(events: seq<Event>, id: Id)
    requires IsRun(events) && id in After(events).table.pending
    ensures var t, c := After(events).table, After(events).table.pending[id];
            && Told(Step(t, ProcessError), c) == [Rejected(ProcessFailed)]
            && Told(Step(t, StdinError), c) == [Rejected(StdinFailed)]
            && Told(Step(t, Dispose), c) == [Rejected(Disposed)]
            && Told(Step(t, Exit), c) == if t.disposed then [] else [Rejected(Exited)]
  {
    RunKeepsInv(events);
    PendingFacts(After(events), id);
    FailuresTellCaller(After(events).table, id);
    hide After, IsRun, Inv, Step;
  }

  lemma FailuresTellCaller(t: Table, id: Id)
    requires id in t.pending && t.pending[id] in t.outcomes && Told(t, t.pending[id]) == []
    ensures var c := t.pending[id];
            && Told(Step(t, ProcessError), c) == [Rejected(ProcessFailed)]
            && Told(Step(t, StdinError), c) == [Rejected(StdinFailed)]
            && Told(Step(t, Dispose), c) == [Rejected(Disposed)]
            && Told(Step(t, Exit), c) == if t.disposed then [] else [Rejected(Exited)]
  {
    BreakReadyTellsNothing(t, ProcessFailed);
    BreakReadyTellsNothing(t, Exited);
    BreakReadyTellsNothing(t, Disposed);
    RejectAllTells(BreakReady(t, ProcessFailed), id, ProcessFailed);
    RejectAllTells(BreakReady(t, Exited), id, Exited);
    RejectAllTells(t, id, StdinFailed);
    RejectAllTells(t, id, Disposed);
    hide RejectAll, BreakReady;
  }

  lemma BreakReadyTellsNothing(t: Table, e: Error)
    ensures BreakReady(t, e).pending == t.pending && BreakReady(t, e).outcomes == t.outcomes
  {
  }

  lemma RejectAllTells(t: Table, id: Id, e: Error)
    requires id in t.pending && t.pending[id] in t.outcomes
    ensures Told(RejectAll(t, e), t.pending[id]) == Told(t, t.pending[id]) + [Rejected(e)]
  {
    assert t.pending[id] in t.pending.Values;
  }

  lemma PendingFacts(s: System, id: Id)
    requires Inv(s) && id in s.table.pending
    ensures id in s.issued && s.issued[id] == s.table.pending[id]
    ensures s.issued[id] in s.table.outcomes && Told(s.table, s.issued[id]) == []
  {
  }

  /** A caller is refused once disposed, told the error that broke readiness, or that its write failed. */
  lemma RefusalsTell(t: Table, c: Call, id: Id)
    ensures t.disposed ==> Told(DoBegin(t, c), c) == [Rejected(Disposed)]
    ensures !t.disposed ==> Told(DoBegin(t, c), c) == [] && c in DoBegin(t, c).waiting
    ensures t.ready.Broken? ==> Told(DoResume(t, c, id, false), c) == Told(t, c) + [Rejected(t.ready.error)]
    ensures t.ready.Fulfilled? ==> Told(DoResume(t, c, id, true), c) == Told(t, c) + [Rejected(WriteFailed)]
  {
  }

  /** Readiness is settled once, by the first of: the ready line, a malformed line, a process error, the exit. */
  lemma ReadySettlesOnce(s: System, e: Event)
    requires Inv(s) && Enabled(s, e)
    ensures var was, next := s.table.ready, Apply(s, e).table.ready;
            if !was.Unsettled? then next == was
            else match e
              case Line(ReadyEvent) => next == Fulfilled
              case Line(Malformed) => next == Broken(InvalidLine)
              case ProcessError => next == Broken(ProcessFailed)
              case Exit => next == Broken(if s.table.disposed then Disposed else Exited)
              case _ => next == Unsettled
  {
  }

  // ---------------------------------------------------------------------
  // Correlation.

  /** A line that names no pending request leaves the table as it was, up to readiness. */
  lemma ForeignLinesChangeNothing(t: Table, m: Message)
    requires m.Response? || m.Failure? ==> m.id.None? || m.id.value !in t.pending
    ensures DoLine(t, m).(ready := t.ready, readyResolved := t.readyResolved) == t
  {
  }

  /** The line that answers an id: its own response, or its own failure. */
  ghost predicate AnswerTo(e: Event, id: Id, o: Outcome) {
    match o
    case Resolved(payload) => e == Line(Response(Some(id), payload))
    case Rejected(Helper(code, text)) => e == Line(Failure(Some(id), code, text))
    case Rejected(_) => false
  }

  ghost predicate AnsweredBy(events: seq<Event>, id: Id, c: Call, o: Outcome, i: nat, j: nat) {
    j < i < |events| && events[j] == Resume(c, id, false) && AnswerTo(events[i], id, o)
  }

  predicate FromHelper(o: Outcome) {
    o.Resolved? || o.error.Helper?
  }

  /**
   An answer comes from one's own line: whatever the helper's answer a caller is
   told, the run holds, after its registration, the line with its id and that answer.
   */
  lemma {:induction false} AnswerComesFromOwnLine(events: seq<Event>, c: Call, o: Outcome)
    requires IsRun(events) && o in Told(After(events).table, c) && FromHelper(o)
    ensures exists id: Id, i: nat, j: nat :: AnsweredBy(events, id, c, o, i, j)
    decreases |events|
  {
    var n := |events| - 1;
    var before, e := events[..n], events[n];
    var s := After(before);
    RunKeepsInv(before);
    NotBroken(before);
    if o in Told(s.table, c) {
      AnswerComesFromOwnLine(before, c, o);
      var id: Id, i: nat, j: nat :| AnsweredBy(before, id, c, o, i, j);
      assert AnsweredBy(events, id, c, o, i, j);
    } else {
      var id := AnsweredHere(s, e, c, o);
      var j := RegisteredAt(before, id, c);
      assert AnsweredBy(events, id, c, o, n, j);
    }
  }

  /** What breaks readiness is never a helper's answer. */
  ghost predicate ReadyNotHelper(t: Table) {
    t.ready.Broken? ==> !t.ready.error.Helper?
  }

  lemma {:induction false} NotBroken(events: seq<Event>)
    requires IsRun(events)
    ensures ReadyNotHelper(After(events).table)
    decreases |events|
  {
    if events != [] {
      hide Step, Enabled;
      NotBroken(events[..|events| - 1]);
      StepNotBroken(After(events[..|events| - 1]).table, events[|events| - 1]);
    }
  }

  lemma StepNotBroken(t: Table, e: Event)
    requires ReadyNotHelper(t)
    ensures ReadyNotHelper(Step(t, e))
  {
  }

  /** The one step that newly tells a caller a helper's answer is the answering line. */
  lemma AnsweredHere(s: System, e: Event, c: Call, o: Outcome) returns (id: Id)
    requires Inv(s) && ReadyNotHelper(s.table) && Enabled(s, e)
    requires FromHelper(o) && o !in Told(s.table, c) && o in Told(Step(s.table, e), c)
    ensures id in s.table.pending && s.issued[id] == c && AnswerTo(e, id, o)
  {
    id := 0;
    match e
    case Line(Response(Some(answered), _)) => id := answered;
    case Line(Failure(Some(answered), _, _)) => id := answered;
    case _ => NoAnswerHere(s, e, c, o);
  }

  lemma NoAnswerHere(s: System, e: Event, c: Call, o: Outcome)
    requires ReadyNotHelper(s.table) && FromHelper(o)
    requires !(e.Line? && (e.message.Response? || e.message.Failure?))
    ensures o in Told(Step(s.table, e), c) ==> o in Told(s.table, c)
  {
  }

  lemma {:induction false} RegisteredAt(events: seq<Event>, id: Id, c: Call) returns (j: nat)
    requires IsRun(events) && id in After(events).issued && After(events).issued[id] == c
    ensures j < |events| && events[j] == Resume(c, id, false)
    decreases |events|
  {
    var n := |events| - 1;
    if Registers(After(events[..n]).table, events[n]) && events[n].newId == id {
      j := n;
    } else {
      j := RegisteredAt(events[..n], id, c);
    }
  }

  // ---------------------------------------------------------------------
  // Requests registered after a dispose.

  /** Event `i` is the exit, and finds the request registered after the dispose and still untold. */
  ghost predicate ForgottenAt(events: seq<Event>, id: Id, i: nat) {
    i < |events| && events[i].Exit? &&
    var s := After(events[..i]);
    id in s.late && ToldAs(s, id) == []
  }

  /** A request is forgotten if and only if it registers after a dispose and the exit finds it untold. */
  lemma {:induction false} ForgottenExactly(events: seq<Event>, id: Id)
    requires IsRun(events)
    ensures id in After(events).lost <==> exists i: nat :: ForgottenAt(events, id, i)
    decreases |events|
  {
    if events != [] {
      hide ForgottenAt, Apply, Enabled, Inv;
      var n := |events| - 1;
      var before := events[..n];
      RunKeepsInv(before);
      ForgottenExactly(before, id);
      ForgottenNow(events, id);
      ForgottenSnoc(before, events, id);
    }
  }

  lemma ForgottenSnoc(before: seq<Event>, events: seq<Event>, id: Id)
    requires events != [] && before == events[..|events| - 1]
    ensures (exists i: nat :: ForgottenAt(events, id, i)) <==>
            (exists i: nat :: ForgottenAt(before, id, i)) || ForgottenAt(events, id, |events| - 1)
  {
    hide ForgottenAt;
    ForgottenInRange(events, id);
    ForgottenInRange(before, id);
    forall i: nat | i < |before|
      ensures ForgottenAt(events, id, i) <==> ForgottenAt(before, id, i)
    {
      ForgottenEarlier(events, id, i);
    }
  }

  lemma ForgottenInRange(events: seq<Event>, id: Id)
    ensures forall i: nat :: ForgottenAt(events, id, i) ==> i < |events|
  {
    hide After;
  }

  lemma ForgottenEarlier(events: seq<Event>, id: Id, i: nat)
    requires i < |events| - 1
    ensures ForgottenAt(events, id, i) <==> ForgottenAt(events[..|events| - 1], id, i)
  {
    hide After;
    assert events[..|events| - 1][..i] == events[..i];
  }

  lemma ForgottenNow(events: seq<Event>, id: Id)
    requires events != [] && IsRun(events) && Inv(After(events[..|events| - 1]))
    ensures id in After(events).lost <==>
            id in After(events[..|events| - 1]).lost || ForgottenAt(events, id, |events| - 1)
  {
  }

  /** What was forgotten stays untold in every continuation, past its own deadline too. */
  lemma {:induction false} ForgottenForever(events: seq<Event>, more: seq<Event>, id: Id)
    requires IsRun(events + more) && IsRun(events) && id in After(events).lost
    ensures var s := After(events + more);
            id in s.lost && id in s.issued && ToldAs(s, id) == []
    decreases |more|
  {
    RunKeepsInv(events + more);
    if more == [] {
      assert events + more == events;
    } else {
      var n := |more| - 1;
      assert (events + more)[..|events| + n] == events + more[..n];
      ForgottenForever(events, more[..n], id);
      RunKeepsInv(events + more[..n]);
    }
  }

  /**
   A registered request is never told anything if and only if it is forgotten: all
   others, late ones included, have been told or can still be told.
   */
  lemma UntoldExactlyForgotten(events: seq<Event>, id: Id)
    requires IsRun(events) && id in After(events).issued
    ensures (forall more :: IsRun(events + more) ==> ToldAs(After(events + more), id) == []) <==>
            id in After(events).lost
  {
    var s := After(events);
    RunKeepsInv(events);
    if id in s.lost {
      forall more | IsRun(events + more)
        ensures ToldAs(After(events + more), id) == []
      {
        ForgottenForever(events, more, id);
      }
    } else if ToldAs(s, id) != [] {
      assert events + [] == events;
    } else {
      DeadlineSettles(events, id);
      Extend(events, Expire(id));
    }
  }

  /** It happens: a request that waits for readiness across a dispose is never answered, not even by its deadline. */
  lemma LateRequestIsForgotten(c: Call, id: Id)
    ensures exists events ::
              IsRun(events) && id in After(events).lost &&
              After(events).issued == map[id := c] && Told(After(events).table, c) == [] &&
              After(events).table.timers == {} && events != [] && events[|events| - 1] == Expire(id)
  {
    hide After, IsRun;
    assert IsRun([]) && After([]) == START by { StartIsRun(); }
    Extend([], Begin(c));
    var e1 := [] + [Begin(c)];
    Extend(e1, Dispose);
    var e2 := e1 + [Dispose];
    assert After(e2) == System(Table(Unsettled, false, true, {c}, map[], {}, map[c := []]), map[], {}, {}, false);
    Extend(e2, Line(ReadyEvent));
    var e3 := e2 + [Line(ReadyEvent)];
    Extend(e3, Resume(c, id, false));
    var e4 := e3 + [Resume(c, id, false)];
    assert After(e4) == System(Table(Fulfilled, true, true, {}, map[id := c], {id}, map[c := []]),
                               map[id := c], {id}, {}, false);
    LateEnding(e4, c, id);
  }

  lemma LateEnding(events: seq<Event>, c: Call, id: Id)
    requires IsRun(events)
    requires After(events) == System(Table(Fulfilled, true, true, {}, map[id := c], {id}, map[c := []]),
                                     map[id := c], {id}, {}, false)
    ensures exists events ::
              IsRun(events) && id in After(events).lost &&
              After(events).issued == map[id := c] && Told(After(events).table, c) == [] &&
              After(events).table.timers == {} && events != [] && events[|events| - 1] == Expire(id)
  {
    hide After, IsRun;
    Extend(events, Exit);
    var e5 := events + [Exit];
    assert After(e5).lost == {id} && After(e5).table.pending == map[] && After(e5).table.timers == {id};
    Extend(e5, Expire(id));
    var e6 := e5 + [Expire(id)];
    assert e6[|e6| - 1] == Expire(id);
  }

  lemma StartIsRun()
    ensures IsRun([]) && After([]) == START
  {
  }

  // ---------------------------------------------------------------------
  // The mutable client.

  lemma TellOneMore(outcomes: map<Call, seq<Outcome>>, told: set<Call>, c: Call, o: Outcome)
    requires c in outcomes && c !in told
    ensures c in TellAll(outcomes, told, o) && TellAll(outcomes, told, o)[c] == outcomes[c]
    ensures TellAll(outcomes, told + {c}, o) == TellAll(outcomes, told, o)[c := outcomes[c] + [o]]
  {
  }

  lemma TellNone(outcomes: map<Call, seq<Outcome>>, o: Outcome)
    ensures TellAll(outcomes, {}, o) == outcomes
  {
  }

  class HelperClient {
    var ready: ReadyPromise
    var readyResolved: bool
    var disposeRequested: bool
    var waiting: set<Call>
    var pending: map<Id, Call>
    var timers: set<Id>
    var outcomes: map<Call, seq<Outcome>>

    constructor ()
      ensures Contents() == NO_REQUESTS && Valid()
    {
      ready := Unsettled;
      readyResolved := false;
      disposeRequested := false;
      waiting := {};
      pending := map[];
      timers := {};
      outcomes := map[];
    }

    ghost function Contents(): Table
      reads this
    {
      Table(ready, readyResolved, disposeRequested, waiting, pending, timers, outcomes)
    }

    /** Different pending requests belong to different callers, as `Correlated` says of every run. */
    ghost predicate Valid()
      reads this
    {
      && (forall id :: id in pending ==> pending[id] in outcomes)
      && (forall i, j :: i in pending && j in pending && pending[i] == pending[j] ==> i == j)
    }

    method Tell(c: Call, o: Outcome)
      modifies this`outcomes
      ensures Contents() == Settle(old(Contents()), c, o)
    {
      outcomes := outcomes[c := (if c in outcomes then outcomes[c] else []) + [o]];
    }

    /** The synchronous start of `request`: refused once disposed, else left waiting for the helper. */
    method Request(c: Call)
      modifies this`outcomes, this`waiting
      ensures Contents() == DoBegin(old(Contents()), c)
    {
      if disposeRequested {
        outcomes := outcomes[c := [Rejected(Disposed)]];
        return;
      }
      outcomes := outcomes[c := []];
      waiting := waiting + {c};
    }

    /** The rest of `sendHelperRequest`, once `ready` has settled. */
    method SendHelperRequest(c: Call, id: Id, writeFails: bool)
      requires !ready.Unsettled? && id !in pending && id !in timers
      modifies this`outcomes, this`waiting, this`pending, this`timers
      ensures Contents() == DoResume(old(Contents()), c, id, writeFails)
    {
      waiting := waiting - {c};
      if ready.Broken? {
        Tell(c, Rejected(ready.error));
        return;
      }
      timers := timers + {id};
      pending := pending[id := c];
      if writeFails {
        if id in pending {
          timers := timers - {id};
          pending := pending - {id};
        }
        Tell(c, Rejected(WriteFailed));
      }
    }

    method RouteHelperLine(message: Message)
      modifies this`ready, this`readyResolved, this`outcomes, this`pending, this`timers
      ensures Contents() == DoLine(old(Contents()), message)
    {
      match message
      case Malformed =>
        if !readyResolved {
          OnReadyError(InvalidLine);
        }
      case ReadyEvent =>
        readyResolved := true;
        if ready.Unsettled? {
          ready := Fulfilled;
        }
      case OtherEvent =>
      case Response(id, payload) =>
        Deliver(id, Resolved(payload));
      case Failure(id, code, text) =>
        Deliver(id, Rejected(Helper(code, text)));
    }

    method Deliver(id: Option<Id>, o: Outcome)
      modifies this`outcomes, this`pending, this`timers
      ensures Contents() == Answer(old(Contents()), id, o)
    {
      if id.None? || id.value !in pending {
        return;
      }
      var c := pending[id.value];
      pending := pending - {id.value};
      timers := timers - {id.value};
      Tell(c, o);
    }

    method OnReadyError(error: Error)
      requires !readyResolved
      modifies this`ready
      ensures Contents() == BreakReady(old(Contents()), error)
    {
      if ready.Unsettled? {
        ready := Broken(error);
      }
    }

    /** A deadline: `pending.delete` says whether there is still anything to reject. */
    method Deadline(id: Id)
      modifies this`outcomes, this`pending, this`timers
      ensures Contents() == DoExpire(old(Contents()), id)
    {
      timers := timers - {id};
      if id in pending {
        var c := pending[id];
        pending := pending - {id};
        Tell(c, Rejected(TimedOut));
      }
    }

    method RejectPendingRequests(error: Error)
      requires Valid()
      modifies this`outcomes, this`pending, this`timers
      ensures Contents() == RejectAll(old(Contents()), error) && Valid()
    {
      hide TellAll;
      TellNone(outcomes, Rejected(error));
      var todo := pending.Keys;
      ghost var told: set<Call> := {};
      while todo != {}
        invariant todo <= pending.Keys && pending == old(pending)
        invariant timers == old(timers) - (pending.Keys - todo)
        invariant told <= pending.Values && outcomes == TellAll(old(outcomes), told, Rejected(error))
        invariant forall id :: id in pending ==> (id in todo <==> pending[id] !in told)
        decreases todo
      {
        var id :| id in todo;
        TellOneMore(old(outcomes), told, pending[id], Rejected(error));
        timers := timers - {id};
        Tell(pending[id], Rejected(error));
        told := told + {pending[id]};
        todo := todo - {id};
      }
      assert told == pending.Values;
      pending := map[];
    }

    method OnProcessError()
      requires Valid()
      modifies this`ready, this`outcomes, this`pending, this`timers
      ensures Contents() == DoProcessError(old(Contents())) && Valid()
    {
      if !readyResolved {
        OnReadyError(ProcessFailed);
      }
      RejectPendingRequests(ProcessFailed);
    }

    method OnExit()
      requires Valid()
      modifies this`ready, this`outcomes, this`pending, this`timers
      ensures Contents() == DoExit(old(Contents())) && Valid()
    {
      if disposeRequested {
        if !readyResolved {
          OnReadyError(Disposed);
        }
        pending := map[];
        return;
      }
      if !readyResolved {
        OnReadyError(Exited);
      }
      RejectPendingRequests(Exited);
    }

    method Dispose()
      requires Valid()
      modifies this`disposeRequested, this`outcomes, this`pending, this`timers
      ensures Contents() == DoDispose(old(Contents())) && Valid()
    {
      disposeRequested := true;
      RejectPendingRequests(Disposed);
    }
  }
}
