/**
 One device's polling loop: `DeviceHandler.run` of src/app/device-handler.ts, the
 command sets of src/app/device-executor.ts and the reconnect loop of
 src/app/device-connection.ts.

 Everything outside the loop is unconstrained: at each await the clock may
 advance and a stop may be requested, and each command may end in any way. A
 stop is not followed by a reset.
 */
module Executor {
  import opened Wrappers
  import opened Commands
  import opened Device
  import opened Polling

  datatype CommandResult = AllOk | ExpectedError | DeviceBusy | ConnectionError

  /** A performed command: a read on behalf of a pack (0 outside pack polling), or the write that selects one. */
  datatype Performed =
    | Read(pack: nat, command: Command, result: CommandResult, nonEmpty: bool)
    | Select(pack: nat, result: CommandResult)

  /** A sleep that the loop asks for, and how many commands had ended by then. */
  datatype Pause = Pause(after: nat, ms: int)

  /** How one attempt to connect ends; `Lost` is the source's BadConnectionError. */
  datatype AttemptOutcome = Connected | Lost | OtherFailure

  /** How the startup loop stands: `StillTrying` after any number of attempts. */
  datatype Startup = Up | StopSeen | Threw(failure: AttemptOutcome) | StillTrying

  /** Results that end a command set at once. */
  predicate Cuts(r: CommandResult) { r == DeviceBusy || r == ConnectionError }

  // ---------------------------------------------------------------------
  // Specification of a command set.

  /** The reads made are a prefix of the commands, in order, on behalf of one pack, and only the last may cut. */
  ghost predicate IsPrefixRun(commands: seq<Command>, pack: nat, made: seq<Performed>) {
    |made| <= |commands| &&
    forall i :: 0 <= i < |made| ==>
      made[i].Read? && made[i].pack == pack && made[i].command == commands[i] &&
      (i < |made| - 1 ==> !Cuts(made[i].result))
  }

  predicate EndsInCut(made: seq<Performed>) {
    made != [] && Cuts(made[|made| - 1].result)
  }

  /** What a command set reports for the reads it made. */
  function SetResult(made: seq<Performed>): CommandResult {
    if EndsInCut(made) then made[|made| - 1].result
    else if exists i :: 0 <= i < |made| && made[i].result == ExpectedError then ExpectedError
    else AllOk
  }

  /** The pauses of a command set: after every read but the last of the list and one that cuts, if there is a delay. */
  function RunPauses(before: nat, commands: nat, made: seq<Performed>, delay: int): seq<Pause> {
    if made == [] then []
    else
      var n := |made| - 1;
      RunPauses(before, commands, made[..n], delay) +
      if n < commands - 1 && !Cuts(made[n].result) && delay > 0 then [Pause(before + n + 1, delay)] else []
  }

  lemma RunPausesSnoc(before: nat, commands: nat, made: seq<Performed>, e: Performed, delay: int)
    ensures RunPauses(before, commands, made + [e], delay) ==
            RunPauses(before, commands, made, delay) +
            if |made| < commands - 1 && e.result != DeviceBusy && e.result != ConnectionError && delay > 0
            then [Pause(before + |made| + 1, delay)] else []
  {
    assert (made + [e])[..|made|] == made;
  }

  function RepeatPause(p: Pause, k: nat): seq<Pause> {
    if k == 0 then [] else RepeatPause(p, k - 1) + [p]
  }

  /** The commands whose reply was parsed to something, in order. */
  function Publishable(events: seq<Performed>): seq<Command> {
    if events == [] then []
    else
      var before, last := Publishable(events[..|events| - 1]), events[|events| - 1];
      if last.Read? && last.result == AllOk && last.nonEmpty then before + [last.command] else before
  }

  lemma RunStarts(commands: seq<Command>, pack: nat, before: nat, delay: int)
    ensures RunPauses(before, |commands|, [], delay) == []
    ensures IsPrefixRun(commands, pack, []) && !EndsInCut([]) && SetResult([]) == AllOk && Publishable([]) == []
  {
  }

  lemma RunGrows(commands: seq<Command>, pack: nat, made: seq<Performed>, event: Performed)
    requires IsPrefixRun(commands, pack, made) && !EndsInCut(made) && |made| < |commands|
    requires event.Read? && event.pack == pack && event.command == commands[|made|]
    ensures IsPrefixRun(commands, pack, made + [event])
    ensures EndsInCut(made + [event]) <==> Cuts(event.result)
    ensures SetResult(made + [event]) == if event.result == AllOk then SetResult(made) else event.result
    ensures SetResult(made) == AllOk || SetResult(made) == ExpectedError
  {
    var all := made + [event];
    assert forall i :: 0 <= i < |made| ==> all[i] == made[i];
    assert all[|made|] == event;
  }

  lemma {:induction false} PublishableConcat(events: seq<Performed>, more: seq<Performed>)
    ensures Publishable(events + more) == Publishable(events) + Publishable(more)
  {
    hide Publishable;
    if more == [] {
      assert events + more == events;
      NothingPublished(0);
    } else {
      var n := |more| - 1;
      PublishableConcat(events, more[..n]);
      PublishableSnoc(events + more[..n], more[n]);
      PublishableSnoc(more[..n], more[n]);
      assert events + more[..n] + [more[n]] == events + more && more[..n] + [more[n]] == more;
    }
  }

  lemma NothingPublished(pack: nat)
    ensures Publishable([]) == [] && forall r :: Publishable([Select(pack, r)]) == []
  {
  }

  lemma PublishableSnoc(events: seq<Performed>, e: Performed)
    ensures Publishable(events + [e]) ==
            Publishable(events) + if e.Read? && e.result == AllOk && e.nonEmpty then [e.command] else []
  {
    assert (events + [e])[..|events|] == events;
  }

  // ---------------------------------------------------------------------
  // Specification of pack polling.

  /** The latest pack selection in a trace, if any. */
  function LastSelect(events: seq<Performed>): Option<Performed> {
    if events == [] then None
    else if events[|events| - 1].Select? then Some(events[|events| - 1])
    else LastSelect(events[..|events| - 1])
  }

  /** Every read for a pack comes after a confirmed selection of that pack, with no other selection between. */
  ghost predicate SelectedFirst(before: seq<Performed>, events: seq<Performed>) {
    forall i :: 0 <= i < |events| && events[i].Read? && events[i].pack > 0 ==>
      LastSelect(before + events[..i]) == Some(Select(events[i].pack, AllOk))
  }

  lemma {:induction false} LastSelectOverReads(events: seq<Performed>, made: seq<Performed>)
    requires forall i :: 0 <= i < |made| ==> made[i].Read?
    ensures LastSelect(events + made) == LastSelect(events)
  {
    if made == [] {
      assert events + made == events;
    } else {
      var n := |made| - 1;
      assert (events + made)[..|events| + n] == events + made[..n];
      LastSelectOverReads(events, made[..n]);
    }
  }

  lemma SelectedAppend(before: seq<Performed>, events: seq<Performed>, more: seq<Performed>)
    requires SelectedFirst(before, events) && SelectedFirst(before + events, more)
    ensures SelectedFirst(before, events + more)
  {
    var all := events + more;
    forall i | 0 <= i < |all| && all[i].Read? && all[i].pack > 0
      ensures LastSelect(before + all[..i]) == Some(Select(all[i].pack, AllOk))
    {
      if i < |events| {
        assert all[..i] == events[..i];
      } else {
        assert before + all[..i] == before + events + more[..i - |events|];
      }
    }
  }

  lemma SelectedReads(before: seq<Performed>, commands: seq<Command>, pack: nat, made: seq<Performed>)
    requires LastSelect(before) == Some(Select(pack, AllOk))
    requires IsPrefixRun(commands, pack, made)
    ensures SelectedFirst(before, made)
  {
    forall i | 0 <= i < |made|
      ensures LastSelect(before + made[..i]) == Some(Select(pack, AllOk))
    {
      LastSelectOverReads(before, made[..i]);
    }
  }

  ghost predicate EndsBusy(events: seq<Performed>) {
    events != [] && events[|events| - 1].result == DeviceBusy
  }

  /** A run of the commands that only a cut or a stop leaves unfinished. */
  ghost predicate IsWholeRun(commands: seq<Command>, pack: nat, stopped: bool, made: seq<Performed>) {
    IsPrefixRun(commands, pack, made) && (|made| == |commands| || EndsInCut(made) || stopped)
  }

  lemma WholeRunStopped(commands: seq<Command>, pack: nat, stopped: bool, made: seq<Performed>)
    requires IsWholeRun(commands, pack, stopped, made)
    ensures IsWholeRun(commands, pack, true, made)
  {
  }

  /** One pack's turn: its selection where packs are selected, then its reads if that was confirmed. */
  ghost predicate PackTurn(commands: seq<Command>, pack: nat, selects: bool, stopped: bool, events: seq<Performed>) {
    if !selects then IsWholeRun(commands, pack, stopped, events)
    else
      events != [] && events[0].Select? && events[0].pack == pack &&
      if events[0].result == AllOk then IsWholeRun(commands, pack, stopped, events[1..]) else |events| == 1
  }

  /** The turns of packs 1 to `packs`, in that order; none but the last ends busy or in a failed selection. */
  ghost predicate PackTurns(commands: seq<Command>, packs: nat, selects: bool, stopped: bool, events: seq<Performed>)
    decreases packs, 1
  {
    if packs == 0 then events == []
    else exists k :: 0 <= k <= |events| && LastTurnFrom(commands, packs, selects, stopped, events, k)
  }

  ghost predicate LastTurnFrom(
    commands: seq<Command>, packs: nat, selects: bool, stopped: bool, events: seq<Performed>, k: nat
  )
    requires 0 < packs && k <= |events|
    decreases packs, 0
  {
    && PackTurns(commands, packs - 1, selects, false, events[..k])
    && !Aborts(events[..k])
    && PackTurn(commands, packs, selects, stopped, events[k..])
  }

  /** The events after which pack polling gives up: a busy answer, or a selection that hit a connection error. */
  predicate Aborts(events: seq<Performed>) {
    events != [] &&
    var last := events[|events| - 1];
    last.result == DeviceBusy || (last.Select? && last.result == ConnectionError)
  }

  /** All packs get their turn, unless polling gives up or a stop arrives; then none after it does. */
  ghost predicate PacksPolled(
    commands: seq<Command>, packNumMax: int, selects: bool, stopped: bool, events: seq<Performed>
  ) {
    if commands == [] then events == []
    else exists packs: nat ::
      && PackTurns(commands, packs, selects, stopped, events)
      && packs <= Max(0, packNumMax)
      && (packs < packNumMax ==> stopped || Aborts(events))
  }

  /** Each turn that is taken reads its pack only after that pack's own confirmed selection. */
  lemma {:induction false} TurnsAreSelected(
    before: seq<Performed>, commands: seq<Command>, packs: nat, stopped: bool, events: seq<Performed>
  )
    requires PackTurns(commands, packs, true, stopped, events)
    ensures SelectedFirst(before, events)
  {
    if packs > 0 {
      var earlier, turn := SplitTurns(commands, packs, true, stopped, events);
      TurnsAreSelected(before, commands, packs - 1, false, earlier);
      TurnIsSelected(before + earlier, commands, packs, stopped, turn);
      SelectedAppend(before, earlier, turn);
    }
  }

  lemma TurnIsSelected(
    before: seq<Performed>, commands: seq<Command>, pack: nat, stopped: bool, turn: seq<Performed>
  )
    requires PackTurn(commands, pack, true, stopped, turn)
    ensures SelectedFirst(before, turn)
  {
    var first := turn[..1];
    assert SelectedFirst(before, first);
    if turn[0].result == AllOk {
      assert turn[0] == Select(pack, AllOk);
      assert (before + first)[|before|] == turn[0];
      SelectedReads(before + first, commands, pack, turn[1..]);
      SelectedAppend(before, first, turn[1..]);
      assert first + turn[1..] == turn;
    } else {
      assert first == turn;
    }
  }

  lemma AbortsAtEnd(events: seq<Performed>, turn: seq<Performed>)
    requires !Aborts(events)
    ensures Aborts(events + turn) <==> Aborts(turn)
    ensures Aborts(turn) ==> (events + turn)[|events + turn| - 1] == turn[|turn| - 1]
  {
    if turn == [] {
      assert events + turn == events;
    }
  }

  lemma BusyRun(commands: seq<Command>, pack: nat, selection: seq<Performed>, made: seq<Performed>)
    requires !Aborts(selection) && IsPrefixRun(commands, pack, made)
    ensures Aborts(selection + made) <==> SetResult(made) == DeviceBusy
    ensures Aborts(selection + made) ==> (selection + made)[|selection + made| - 1].result == DeviceBusy
  {
    AbortsAtEnd(selection, made);
  }

  lemma TurnTaken(
    commands: seq<Command>, pack: nat, selects: bool, stopped: bool, events: seq<Performed>, turn: seq<Performed>
  )
    requires pack > 0 && PackTurns(commands, pack - 1, selects, false, events) && !Aborts(events)
    requires PackTurn(commands, pack, selects, stopped, turn)
    ensures PackTurns(commands, pack, selects, stopped, events + turn)
  {
    assert (events + turn)[..|events|] == events;
    assert (events + turn)[|events|..] == turn;
    assert LastTurnFrom(commands, pack, selects, stopped, events + turn, |events|);
  }

  lemma NothingSelected(before: seq<Performed>)
    ensures SelectedFirst(before, []) && NoSelect([])
  {
  }

  /** Nothing but reads: no pack is switched to. */
  ghost predicate NoSelect(events: seq<Performed>) {
    forall i :: 0 <= i < |events| ==> events[i].Read?
  }

  lemma TurnSelects(
    before: seq<Performed>, commands: seq<Command>, pack: nat, selects: bool, stopped: bool, events: seq<Performed>,
    turn: seq<Performed>
  )
    requires PackTurn(commands, pack, selects, stopped, turn)
    requires if selects then SelectedFirst(before, events) else NoSelect(events)
    ensures if selects then SelectedFirst(before, events + turn) else NoSelect(events + turn)
  {
    if selects {
      TurnIsSelected(before + events, commands, pack, stopped, turn);
      SelectedAppend(before, events, turn);
    }
  }

  lemma {:induction false} TurnsSelectNothing(commands: seq<Command>, packs: nat, stopped: bool, events: seq<Performed>)
    requires PackTurns(commands, packs, false, stopped, events)
    ensures NoSelect(events)
  {
    if packs > 0 {
      var earlier, turn := SplitTurns(commands, packs, false, stopped, events);
      TurnsSelectNothing(commands, packs - 1, false, earlier);
    }
  }

  /** A busy answer, or a selection that hits a connection error, has nothing after it. */
  ghost predicate GivesUpAtOnce(events: seq<Performed>) {
    forall i :: 0 <= i < |events| - 1 ==>
      events[i].result != DeviceBusy && (events[i].Select? ==> events[i].result != ConnectionError)
  }

  lemma TurnGivesUpAtOnce(commands: seq<Command>, pack: nat, selects: bool, stopped: bool, turn: seq<Performed>)
    requires PackTurn(commands, pack, selects, stopped, turn)
    ensures GivesUpAtOnce(turn)
    ensures forall i :: 0 <= i < |turn| ==> turn[i].pack == pack
    ensures (selects || commands != []) && !stopped ==> turn != []
  {
    if selects && turn[0].result == AllOk {
      assert forall i :: 0 < i < |turn| ==> turn[i] == turn[1..][i - 1];
    }
  }

  lemma GivesUpConcat(events: seq<Performed>, more: seq<Performed>)
    requires GivesUpAtOnce(events) && GivesUpAtOnce(more)
    requires events != [] ==>
               events[|events| - 1].result != DeviceBusy &&
               (events[|events| - 1].Select? ==> events[|events| - 1].result != ConnectionError)
    ensures GivesUpAtOnce(events + more)
  {
    var all := events + more;
    forall i | 0 <= i < |all| - 1
      ensures all[i].result != DeviceBusy && (all[i].Select? ==> all[i].result != ConnectionError)
    {
      assert i >= |events| ==> all[i] == more[i - |events|];
    }
  }

  /** The last turn, and the ones before it. */
  lemma SplitTurns(commands: seq<Command>, packs: nat, selects: bool, stopped: bool, events: seq<Performed>)
    returns (earlier: seq<Performed>, turn: seq<Performed>)
    requires PackTurns(commands, packs, selects, stopped, events) && packs > 0
    ensures earlier + turn == events && !Aborts(earlier)
    ensures PackTurns(commands, packs - 1, selects, false, earlier) && PackTurn(commands, packs, selects, stopped, turn)
  {
    var k :| 0 <= k <= |events| && LastTurnFrom(commands, packs, selects, stopped, events, k);
    earlier, turn := events[..k], events[k..];
  }

  lemma NoTurns(commands: seq<Command>, selects: bool, stopped: bool, events: seq<Performed>)
    requires PackTurns(commands, 0, selects, stopped, events)
    ensures events == []
  {
  }

  lemma {:induction false} TurnsGiveUpAtOnce(
    commands: seq<Command>, packs: nat, selects: bool, stopped: bool, events: seq<Performed>
  )
    requires PackTurns(commands, packs, selects, stopped, events)
    ensures GivesUpAtOnce(events)
  {
    hide PackTurn, PackTurns, GivesUpAtOnce;
    if packs > 0 {
      var earlier, turn := SplitTurns(commands, packs, selects, stopped, events);
      TurnsGiveUpAtOnce(commands, packs - 1, selects, false, earlier);
      TurnGivesUpAtOnce(commands, packs, selects, stopped, turn);
      GivesUpConcat(earlier, turn);
    } else {
      NoTurns(commands, selects, stopped, events);
      NothingGivesUp();
    }
  }

  lemma NothingGivesUp()
    ensures GivesUpAtOnce([])
  {
  }

  /** Something was performed for pack `p`. */
  ghost predicate HasTurn(events: seq<Performed>, p: int) {
    exists i :: 0 <= i < |events| && events[i].pack == p
  }

  lemma HasTurnConcat(events: seq<Performed>, more: seq<Performed>, p: int)
    requires HasTurn(events, p) || HasTurn(more, p)
    ensures HasTurn(events + more, p)
  {
    var all := events + more;
    if HasTurn(events, p) {
      var i :| 0 <= i < |events| && events[i].pack == p;
      assert all[i].pack == p;
    } else {
      var i :| 0 <= i < |more| && more[i].pack == p;
      assert all[|events| + i].pack == p;
    }
  }

  lemma {:induction false} EveryPackHasTurn(commands: seq<Command>, packs: nat, selects: bool, events: seq<Performed>)
    requires PackTurns(commands, packs, selects, false, events) && commands != []
    ensures forall p :: 1 <= p <= packs ==> HasTurn(events, p)
  {
    hide PackTurn, PackTurns, HasTurn;
    if packs > 0 {
      var earlier, turn := SplitTurns(commands, packs, selects, false, events);
      EveryPackHasTurn(commands, packs - 1, selects, earlier);
      TurnGivesUpAtOnce(commands, packs, selects, false, turn);
      FirstHasTurn(turn);
      forall p | 1 <= p <= packs
        ensures HasTurn(events, p)
      {
        HasTurnConcat(earlier, turn, p);
      }
    }
  }

  lemma FirstHasTurn(turn: seq<Performed>)
    requires turn != []
    ensures HasTurn(turn, turn[0].pack)
  {
  }

  /** The commands read for pack `p`, in order. */
  function ReadsOf(events: seq<Performed>, p: int): seq<Command> {
    if events == [] then []
    else
      var last := events[|events| - 1];
      ReadsOf(events[..|events| - 1], p) + if last.Read? && last.pack == p then [last.command] else []
  }

  /** A read for pack `p` was cut short, or its selection was not confirmed. */
  ghost predicate Interrupted(events: seq<Performed>, p: int) {
    exists i :: 0 <= i < |events| && events[i].pack == p &&
      if events[i].Select? then events[i].result != AllOk
      else events[i].result == DeviceBusy || events[i].result == ConnectionError
  }

  lemma ReadsSnoc(events: seq<Performed>, e: Performed, p: int)
    ensures ReadsOf(events + [e], p) == ReadsOf(events, p) + if e.Read? && e.pack == p then [e.command] else []
  {
    assert (events + [e])[..|events|] == events;
  }

  lemma {:induction false} ReadsConcat(events: seq<Performed>, more: seq<Performed>, p: int)
    ensures ReadsOf(events + more, p) == ReadsOf(events, p) + ReadsOf(more, p)
  {
    hide ReadsOf;
    if more == [] {
      ReadsOfOthers([], p);
      assert events + more == events;
    } else {
      var n := |more| - 1;
      ReadsConcat(events, more[..n], p);
      ReadsSnoc(events + more[..n], more[n], p);
      ReadsSnoc(more[..n], more[n], p);
      assert events + more[..n] + [more[n]] == events + more && more[..n] + [more[n]] == more;
    }
  }

  lemma {:induction false} ReadsOfOthers(events: seq<Performed>, p: int)
    requires forall i :: 0 <= i < |events| ==> events[i].pack != p
    ensures ReadsOf(events, p) == []
  {
    if events != [] {
      ReadsOfOthers(events[..|events| - 1], p);
    }
  }

  lemma {:induction false} ReadsOfRun(commands: seq<Command>, p: nat, made: seq<Performed>)
    requires IsPrefixRun(commands, p, made)
    ensures ReadsOf(made, p) == commands[..|made|]
  {
    if made != [] {
      var n := |made| - 1;
      ReadsOfRun(commands, p, made[..n]);
      assert commands[..n] + [commands[n]] == commands[..n + 1];
    }
  }

  lemma TurnReads(commands: seq<Command>, pack: nat, selects: bool, turn: seq<Performed>)
    requires PackTurn(commands, pack, selects, false, turn)
    ensures ReadsOf(turn, pack) <= commands
    ensures ReadsOf(turn, pack) == commands || Interrupted(turn, pack)
  {
    if !selects {
      ReadsOfRun(commands, pack, turn);
      CutInterrupts(pack, [], turn);
      assert [] + turn == turn;
    } else if turn[0].result == AllOk {
      ReadsOfRun(commands, pack, turn[1..]);
      ReadsConcat(turn[..1], turn[1..], pack);
      CutInterrupts(pack, turn[..1], turn[1..]);
      assert turn[..1] + turn[1..] == turn && turn[..1][..0] == [];
    } else {
      assert turn[..0] == [];
    }
  }

  lemma CutInterrupts(pack: nat, selection: seq<Performed>, made: seq<Performed>)
    requires forall i :: 0 <= i < |made| ==> made[i].Read? && made[i].pack == pack
    ensures EndsInCut(made) ==> Interrupted(selection + made, pack)
  {
    if EndsInCut(made) {
      var all := selection + made;
      assert all[|all| - 1] == made[|made| - 1];
    }
  }

  /** Every pack that has its turn is read in full, unless its turn was interrupted. */
  lemma {:induction false} EveryPackIsRead(
    commands: seq<Command>, packs: nat, selects: bool, events: seq<Performed>, p: int
  )
    requires PackTurns(commands, packs, selects, false, events) && 1 <= p <= packs
    ensures ReadsOf(events, p) <= commands
    ensures ReadsOf(events, p) == commands || Interrupted(events, p)
  {
    hide PackTurns, PackTurn, Interrupted, ReadsOf;
    var earlier, turn := SplitTurns(commands, packs, selects, false, events);
    TurnGivesUpAtOnce(commands, packs, selects, false, turn);
    ReadsConcat(earlier, turn, p);
    InterruptedConcat(earlier, turn, p);
    if p < packs {
      EveryPackIsRead(commands, packs - 1, selects, earlier, p);
      ReadsOfOthers(turn, p);
    } else {
      TurnReads(commands, packs, selects, turn);
      TurnsStayBelow(commands, packs - 1, selects, false, earlier);
      ReadsOfOthers(earlier, p);
    }
  }

  lemma InterruptedConcat(events: seq<Performed>, more: seq<Performed>, p: int)
    ensures Interrupted(events, p) || Interrupted(more, p) ==> Interrupted(events + more, p)
  {
    var all := events + more;
    assert forall i :: 0 <= i < |events| ==> all[i] == events[i];
    assert forall i :: 0 <= i < |more| ==> all[|events| + i] == more[i];
  }

  lemma {:induction false} TurnsStayBelow(
    commands: seq<Command>, packs: nat, selects: bool, stopped: bool, events: seq<Performed>
  )
    requires PackTurns(commands, packs, selects, stopped, events)
    ensures forall i :: 0 <= i < |events| ==> 1 <= events[i].pack <= packs
  {
    hide PackTurns, PackTurn;
    if packs > 0 {
      var earlier, turn := SplitTurns(commands, packs, selects, stopped, events);
      TurnsStayBelow(commands, packs - 1, selects, false, earlier);
      TurnGivesUpAtOnce(commands, packs, selects, stopped, turn);
    } else {
      NoTurns(commands, selects, stopped, events);
    }
  }

  lemma PacksSelectNothing(commands: seq<Command>, packNumMax: int, stopped: bool, events: seq<Performed>)
    requires PacksPolled(commands, packNumMax, false, stopped, events)
    ensures NoSelect(events)
  {
    if commands != [] {
      var packs: nat :| PackTurns(commands, packs, false, stopped, events);
      TurnsSelectNothing(commands, packs, stopped, events);
    }
  }

  lemma PacksAreSelected(
    before: seq<Performed>, commands: seq<Command>, packNumMax: int, stopped: bool, events: seq<Performed>
  )
    requires PacksPolled(commands, packNumMax, true, stopped, events)
    ensures SelectedFirst(before, events)
  {
    if commands != [] {
      var packs: nat :| PackTurns(commands, packs, true, stopped, events);
      TurnsAreSelected(before, commands, packs, stopped, events);
    }
  }

  // ---------------------------------------------------------------------
  // Specification of whole runs.

  /**
   One pass: when and how it went, whether it was recorded in the schedule's history (all are
   but a last one that ended while reconnecting), whether a stop had been requested by
   its end, and what it performed.
   */
  datatype Record = Record(pass: Pass, counted: bool, stopped: bool, made: seq<Performed>, packs: seq<Performed>)

  ghost function HistoryAfter(h: History, o: Options, records: seq<Record>): History {
    if records == [] then h
    else
      var before, last := HistoryAfter(h, o, records[..|records| - 1]), records[|records| - 1];
      if last.counted then Advance(before, o, last.pass) else before
  }

  ghost function EventsOf(records: seq<Record>): seq<Performed> {
    if records == [] then []
    else EventsOf(records[..|records| - 1]) + (records[|records| - 1].made + records[|records| - 1].packs)
  }

  // ---------------------------------------------------------------------
  // The loop.

  class DeviceLoop {
    const device: BluettiDevice
    const options: Options
    const runOnce: bool
    const state: DevicePollingState

    var stopRequested: bool
    var clock: int
    var published: seq<Command>
    ghost var performed: seq<Performed>
    ghost var atStop: nat               // how many commands had ended when the stop was requested
    ghost var history: History
    ghost var pauses: seq<Pause>
    ghost var connects: nat             // attempts to connect

    constructor (device: BluettiDevice, options: Options, runOnce: bool, now: nat)
      ensures fresh(state) && state.Contents() == CreateSchedule(options)
      ensures Prompt() && !stopRequested && performed == [] && published == []
      ensures this.device == device && this.options == options && this.runOnce == runOnce
      ensures history == StartHistory(options, now) && clock == now
      ensures Tracked()
    {
      this.device := device;
      this.options := options;
      this.runOnce := runOnce;
      state := new DevicePollingState(options);
      stopRequested := false;
      clock := now;
      published := [];
      performed := [];
      atStop := 0;
      pauses := [];
      connects := 0;
      history := StartHistory(options, now);
    }

    /** At most one command ends after a stop is requested: the one in flight, or the one at the head of the queue. */
    ghost predicate Prompt()
      reads this
    {
      stopRequested ==> atStop <= |performed| <= atStop + 1
    }

    /** A stop that arrived is remembered with the commands that had ended by then. */
    twostate predicate NotesStop()
      reads this
    {
      if old(stopRequested) then stopRequested && atStop == old(atStop)
      else stopRequested ==> atStop == |old(performed)|
    }

    /** An await: time passes, and a stop may arrive. */
    method Await()
      modifies this`stopRequested, this`clock, this`atStop
      ensures clock >= old(clock) && NotesStop()
    {
      var elapsed: int := *;
      var stop: bool := *;
      clock := clock + Max(0, elapsed);
      if stop && !stopRequested {
        atStop := |performed|;
      }
      stopRequested := stopRequested || stop;
    }

    /** The interruptible sleep, which does not wait once a stop has been requested. */
    method Sleep(ms: int)
      modifies this`stopRequested, this`clock, this`atStop, this`pauses
      ensures clock >= old(clock) && (old(stopRequested) ==> clock == old(clock)) && NotesStop()
      ensures pauses == old(pauses) + [Pause(|performed|, ms)]
    {
      pauses := pauses + [Pause(|performed|, ms)];
      if stopRequested || ms <= 0 {
        return;
      }
      Await();
    }

    /** A queued `session.perform`: the wait for the queue, the start, and the wait for the reply. */
    method PerformQueued() returns (result: CommandResult)
      requires !stopRequested
      modifies this`stopRequested, this`clock, this`atStop
      ensures clock >= old(clock) && NotesStop()
    {
      Await();
      Await();
      result := *;
    }

    method ExecuteReadCommand(pack: nat, command: Command) returns (result: CommandResult)
      requires Prompt() && !stopRequested
      modifies this`stopRequested, this`clock, this`atStop, this`published, this`performed
      ensures Prompt() && clock >= old(clock)
      ensures exists nonEmpty ::
                performed == old(performed) + [Read(pack, command, result, nonEmpty)] &&
                published == old(published) + if result == AllOk && nonEmpty then [command] else []
    {
      result := PerformQueued();
      var nonEmpty: bool := *;
      performed := performed + [Read(pack, command, result, nonEmpty)];
      if result == AllOk && nonEmpty {
        published := published + [command];
        Await();
      }
    }

    method RunCommandSet(pack: nat, commands: seq<Command>) returns (result: CommandResult, ghost made: seq<Performed>)
      requires Prompt()
      modifies this`stopRequested, this`clock, this`atStop, this`pauses, this`published, this`performed
      ensures Prompt() && clock >= old(clock)
      ensures old(stopRequested) ==> made == [] && atStop == old(atStop) && stopRequested
      ensures performed == old(performed) + made && published == old(published) + Publishable(made)
      ensures IsWholeRun(commands, pack, stopRequested, made) && result == SetResult(made)
      ensures pauses == old(pauses) + RunPauses(|old(performed)|, |commands|, made, state.commandDelayMs)
    {
      hide Publishable, IsPrefixRun, SetResult, EndsInCut, RunPauses;
      RunStarts(commands, pack, |performed|, state.commandDelayMs);
      made := [];
      result := AllOk;
      var sawExpectedError := false;
      for index := 0 to |commands|
        invariant Prompt() && clock >= old(clock)
        invariant old(stopRequested) ==> made == [] && atStop == old(atStop) && stopRequested
        invariant performed == old(performed) + made && published == old(published) + Publishable(made)
        invariant |made| == index && IsPrefixRun(commands, pack, made) && !EndsInCut(made)
        invariant pauses == old(pauses) + RunPauses(|old(performed)|, |commands|, made, state.commandDelayMs)
        invariant SetResult(made) == if sawExpectedError then ExpectedError else AllOk
      {
        if stopRequested {
          break;
        }
        ghost var before := performed;
        var r := ExecuteReadCommand(pack, commands[index]);
        ghost var event := performed[|before|];
        PublishableSnoc(made, event);
        RunGrows(commands, pack, made, event);
        RunPausesSnoc(|old(performed)|, |commands|, made, event, state.commandDelayMs);
        made := made + [event];
        if Cuts(r) {
          return r, made;
        }
        if r == ExpectedError {
          sawExpectedError := true;
        }
        if index < |commands| - 1 && state.commandDelayMs > 0 {
          Sleep(state.commandDelayMs);
        }
      }
      result := if sawExpectedError then ExpectedError else AllOk;
    }

    method TrySelectPack(pack: nat) returns (result: CommandResult)
      requires Prompt() && !stopRequested
      modifies this`stopRequested, this`clock, this`atStop, this`pauses, this`performed
      ensures Prompt() && clock >= old(clock)
      ensures performed == old(performed) + [Select(pack, result)]
      ensures pauses == old(pauses) +
              if result == AllOk
              then [Pause(|performed|, if state.commandDelayMs > 500 then state.commandDelayMs else 500)] else []
    {
      result := PerformQueued();
      performed := performed + [Select(pack, result)];
      if result == AllOk {
        Sleep(Max(500, state.commandDelayMs));
      }
    }

    /** The body of the pack loop. */
    method TakeTurn(pack: nat) returns (result: CommandResult, ghost turn: seq<Performed>)
      requires Prompt() && !stopRequested
      modifies this`stopRequested, this`clock, this`atStop, this`pauses, this`published, this`performed
      ensures Prompt() && clock >= old(clock)
      ensures performed == old(performed) + turn && published == old(published) + Publishable(turn)
      ensures PackTurn(device.packPollingCommands, pack, SelectsPacks(), stopRequested, turn)
      ensures result == if Aborts(turn) then turn[|turn| - 1].result else AllOk
    {
      hide IsPrefixRun, Publishable, SetResult;
      ghost var selection: seq<Performed> := [];
      NothingPublished(pack);
      if SelectsPacks() {
        result := TrySelectPack(pack);
        selection := [Select(pack, result)];
        if Cuts(result) {
          return result, selection;
        }
        if result == ExpectedError {
          return AllOk, selection;
        }
      }
      ghost var made;
      result, made := RunCommandSet(pack, device.packPollingCommands);
      turn := selection + made;
      PublishableConcat(selection, made);
      assert turn[|selection|..] == made;
      BusyRun(device.packPollingCommands, pack, selection, made);
      if result != DeviceBusy {
        result := AllOk;
      }
    }

    predicate SelectsPacks() {
      device.packNumMax > 1 && device.HasFieldSetter("pack_num")
    }

    /**
     A connection error is reported only when a selection hit it; one in a pack read
     ends that pack's turn and is left for the next command to find.
     */
    method RunPackCommands() returns (result: CommandResult, ghost events: seq<Performed>)
      requires Prompt()
      modifies this`stopRequested, this`clock, this`atStop, this`pauses, this`published, this`performed
      ensures Prompt() && clock >= old(clock)
      ensures old(stopRequested) ==> events == [] && atStop == old(atStop) && stopRequested
      ensures performed == old(performed) + events && published == old(published) + Publishable(events)
      ensures PacksPolled(device.packPollingCommands, device.packNumMax, SelectsPacks(), stopRequested, events)
      ensures if device.packNumMax > 1 &&
                  (exists i, j :: 0 <= i < |device.fields| && 0 <= j < |device.writableRanges| &&
                     device.fields[i].name == "pack_num" &&
                     device.writableRanges[j].start <= device.fields[i].address < device.writableRanges[j].endExclusive)
              then SelectedFirst(old(performed), events) else NoSelect(events)
      ensures result == if Aborts(events) then events[|events| - 1].result else AllOk
    {
      hide PackTurn, LastTurnFrom, Publishable, SelectedFirst, NoSelect;
      NothingSelected(performed);
      PacksLaw();
      events := [];
      NothingPublished(0);
      result := AllOk;
      if device.packPollingCommands == [] {
        return;
      }
      var pack := 1;
      while pack <= device.packNumMax
        invariant 1 <= pack <= Max(0, device.packNumMax) + 1
        invariant Prompt() && clock >= old(clock)
        invariant old(stopRequested) ==> events == [] && atStop == old(atStop) && stopRequested
        invariant performed == old(performed) + events && published == old(published) + Publishable(events)
        invariant PackTurns(device.packPollingCommands, pack - 1, SelectsPacks(), stopRequested, events)
        invariant result == AllOk && !Aborts(events)
        invariant if SelectsPacks() then SelectedFirst(old(performed), events) else NoSelect(events)
      {
        if stopRequested {
          break;
        }
        ghost var turn;
        result, turn := TakeTurn(pack);
        TurnTaken(device.packPollingCommands, pack, SelectsPacks(), stopRequested, events, turn);
        AbortsAtEnd(events, turn);
        PublishableConcat(events, turn);
        TurnSelects(old(performed), device.packPollingCommands, pack, SelectsPacks(), stopRequested, events, turn);
        events := events + turn;
        if result != AllOk {
          return;
        }
        pack := pack + 1;
      }
    }

    /** One connection attempt; none may be started once a stop has been requested. */
    method Attempt()
      requires Prompt() && !stopRequested
      modifies this`stopRequested, this`clock, this`atStop, this`connects
      ensures Prompt() && clock >= old(clock) && connects == old(connects) + 1
    {
      connects := connects + 1;
      Await();
    }

    /** `recoverDeviceConnection`: any number of failed attempts, until one succeeds or a stop is requested. */
    method RecoverDeviceConnection() returns (recovered: bool, ghost attempts: nat)
      requires Prompt()
      modifies this`stopRequested, this`clock, this`atStop, this`pauses, this`connects
      ensures Prompt() && clock >= old(clock)
      ensures if recovered then attempts >= 1 else stopRequested
      ensures old(stopRequested) ==> stopRequested && !recovered && attempts == 0
      ensures connects == old(connects) + attempts
      ensures pauses == old(pauses) +
              RepeatPause(Pause(|performed|, 5000), if recovered then attempts - 1 else attempts)
    {
      attempts := 0;
      var failures: int := *;
      for i := 0 to Max(0, failures)
        invariant Prompt() && clock >= old(clock)
        invariant old(stopRequested) ==> stopRequested && attempts == 0
        invariant connects == old(connects) + attempts
        invariant pauses == old(pauses) + RepeatPause(Pause(|performed|, 5000), attempts)
      {
        if stopRequested {
          return false, attempts;
        }
        Attempt();
        attempts := attempts + 1;
        Sleep(5000);
      }
      if stopRequested {
        return false, attempts;
      }
      Attempt();
      return true, attempts + 1;
    }

    /**
     `connectAllWithRecovery`, for as many attempts as there is patience: a lost
     connection is retried, except in a single run, and every other error is thrown.
     No attempt is started after a stop.
     */
    method ConnectAllWithRecovery(patience: nat) returns (r: Startup, ghost outcomes: seq<AttemptOutcome>)
      requires Prompt()
      modifies this`stopRequested, this`clock, this`atStop, this`pauses, this`connects
      ensures Prompt() && clock >= old(clock)
      ensures old(stopRequested) ==> r == StopSeen && outcomes == []
      ensures forall i :: 0 <= i < |outcomes| - 1 ==> outcomes[i] == Lost
      ensures runOnce ==> |outcomes| <= 1
      ensures connects == old(connects) + |outcomes|
      ensures match r
              case Up => outcomes != [] && outcomes[|outcomes| - 1] == Connected
              case Threw(failure) =>
                outcomes != [] && failure == outcomes[|outcomes| - 1] && failure != Connected &&
                (runOnce || failure != Lost)
              case StopSeen => stopRequested && (outcomes != [] ==> !runOnce && outcomes[|outcomes| - 1] == Lost)
              case StillTrying =>
                |outcomes| == patience && !stopRequested &&
                (outcomes != [] ==> !runOnce && outcomes[|outcomes| - 1] == Lost)
      ensures pauses == old(pauses) +
              RepeatPause(Pause(|performed|, 5000), if r.Up? || r.Threw? then |outcomes| - 1 else |outcomes|)
    {
      outcomes := [];
      var attempts := 0;
      while !stopRequested
        invariant Prompt() && clock >= old(clock)
        invariant old(stopRequested) ==> stopRequested && outcomes == []
        invariant |outcomes| == attempts <= patience
        invariant forall i :: 0 <= i < |outcomes| ==> outcomes[i] == Lost
        invariant runOnce ==> outcomes == []
        invariant connects == old(connects) + attempts
        invariant pauses == old(pauses) + RepeatPause(Pause(|performed|, 5000), attempts)
        decreases patience - attempts
      {
        if attempts == patience {
          return StillTrying, outcomes;
        }
        Attempt();
        var outcome: AttemptOutcome := *;
        outcomes := outcomes + [outcome];
        attempts := attempts + 1;
        if outcome == Connected {
          return Up, outcomes;
        }
        if runOnce || outcome != Lost {
          return Threw(outcome), outcomes;
        }
        Sleep(5000);
      }
      return StopSeen, outcomes;
    }

    /** The schedule agrees with its history, the clock has reached it, and sane options keep their bounds. */
    ghost predicate Tracked()
      reads this, state
    {
      history.schedule == state.Contents() && history.clock <= clock &&
      (Sane(options) ==> Polling.Inv(history, options))
    }

    /** Reconnect in place of the rest of a cycle; `false` ends the loop. */
    method Reconnect(ghost start: int) returns (goOn: bool)
      requires Prompt() && Tracked()
      requires history.clock <= start <= clock && RunsFast(state.Contents(), start)
      modifies this`stopRequested, this`clock, this`atStop, this`pauses, this`connects, this`history,
        state`nextFastPollAt, state`nextFullPollAt
      ensures Prompt() && Tracked() && clock >= old(clock)
      ensures old(stopRequested) ==> stopRequested
      ensures runOnce ==> !goOn
      ensures !goOn ==> stopRequested || runOnce
      ensures goOn ==> history == Advance(old(history), options, Pass(start, Reconnected, clock))
      ensures !goOn ==> history == old(history)
    {
      if runOnce {
        return false;
      }
      var recovered;
      ghost var attempts;
      recovered, attempts := RecoverDeviceConnection();
      if !recovered {
        return false;
      }
      if Sane(options) {
        AdvanceKeepsInv(history, options, Pass(start, Reconnected, clock));
      }
      history := Advance(history, options, Pass(start, Reconnected, clock));
      ghost var was := state.Contents();
      state.ScheduleNextPoll(clock);
      assert state.Contents() == EndCycle(was, options, RunsFull(was, start), Reconnected, clock);
      return true;
    }

    /** A cycle that ran to its end writes the schedule. */
    method EndOfCycle(ghost start: int, full: bool, busy: bool)
      requires Prompt() && Tracked()
      requires history.clock <= start <= clock && RunsFast(state.Contents(), start) &&
               full == RunsFull(state.Contents(), start)
      modifies this`history, state
      ensures Prompt() && Tracked()
      ensures history == Advance(old(history), options, Pass(start, if busy then Busy else Quiet, clock))
      ensures state.fastIntervalMs ==
              if busy then Min(old(state.fastIntervalMs) + options.busyPenaltyMs, options.maxFastIntervalMs)
              else Max(options.fastIntervalMs, old(state.fastIntervalMs) - options.recoveryStepMs)
      ensures state.nextFastPollAt == clock + state.fastIntervalMs
      ensures state.nextFullPollAt == if full then clock + state.fullIntervalMs else old(state.nextFullPollAt)
    {
      ghost var pass := Pass(start, if busy then Busy else Quiet, clock);
      if Sane(options) {
        AdvanceKeepsInv(history, options, pass);
      }
      history := Advance(history, options, pass);
      if busy {
        state.ApplyBusyBackoff(options);
      } else {
        state.RecoverPollingState(options);
      }
      var nextAt := clock;
      state.nextFastPollAt := nextAt + state.fastIntervalMs;
      if full {
        state.nextFullPollAt := nextAt + state.fullIntervalMs;
      }
    }

    /** What a cycle performs: its windows, then on a full cycle that no read cut short, the packs. */
    ghost predicate Cycle(full: bool, stopped: bool, made: seq<Performed>, packs: seq<Performed>) {
      && IsWholeRun(if full then device.pollingCommands else device.FastPollingCommands(), 0, stopped, made)
      && if full && !EndsInCut(made)
         then PacksPolled(device.packPollingCommands, device.packNumMax, SelectsPacks(), stopped, packs)
         else packs == []
    }

    /** A cycle ends busy, in a reconnect, or quietly, as its last command says. */
    ghost predicate Ends(ending: Ending, made: seq<Performed>, packs: seq<Performed>) {
      ending ==
        if EndsBusy(made + packs) then Busy
        else if EndsInCut(made) || Aborts(packs) then Reconnected
        else Quiet
    }

    /** A pass that a schedule with history `h` calls for: nothing when nothing is due, or else one cycle. */
    ghost predicate RecordOk(h: History, r: Record) {
      h.clock <= r.pass.start <= r.pass.end &&
      if !RunsFast(h.schedule, r.pass.start) then r.counted && r.made == [] && r.packs == []
      else
        (r.counted || r.pass.ending == Reconnected) &&
        Cycle(RunsFull(h.schedule, r.pass.start), r.stopped, r.made, r.packs) &&
        Ends(r.pass.ending, r.made, r.packs)
    }

    /**
     One pass of the loop body, entered without a stop: a wait when nothing is due,
     or else one cycle. Unless the loop ends while reconnecting, the pass is
     recorded in the schedule's history.
     */
    method Iterate() returns (goOn: bool, ghost r: Record)
      requires Prompt() && Tracked() && !stopRequested
      modifies this`stopRequested, this`clock, this`atStop, this`pauses, this`connects, this`published,
        this`performed, this`history, state
      ensures Prompt() && Tracked() && clock >= old(clock)
      ensures goOn ==> r.counted
      ensures !goOn ==> stopRequested || (runOnce && RunsFast(old(history).schedule, r.pass.start))
      ensures runOnce && RunsFast(old(history).schedule, r.pass.start) ==> !goOn
      ensures r.stopped ==> stopRequested
      ensures r.pass.start == old(clock) && RecordOk(old(history), r)
      ensures r.counted && RunsFast(old(history).schedule, r.pass.start) ==> r.pass.end == clock
      ensures var was := old(history).schedule;
              !RunsFast(was, r.pass.start) ==>
                pauses == old(pauses) + [Pause(|performed|, Min(was.nextFast, was.nextFull) - r.pass.start)]
      ensures history == if r.counted then Advance(old(history), options, r.pass) else old(history)
      ensures performed == old(performed) + (r.made + r.packs)
      ensures published == old(published) + Publishable(r.made + r.packs)
    {
      hide PacksPolled, IsWholeRun, Advance, EndCycle, EndsInCut, Aborts, Publishable, Polling.Inv;
      var now := clock;
      r := Record(Pass(now, Quiet, now), true, stopRequested, [], []);
      var shouldRunFull := now >= state.nextFullPollAt;
      var shouldRunFast := shouldRunFull || now >= state.nextFastPollAt;
      if !shouldRunFast {
        Skip(now);
        NothingPublished(0);
        Sleep(Max(0, Min(state.nextFastPollAt, state.nextFullPollAt) - now));
        return true, r;
      }
      var ending;
      ghost var made, packs;
      ending, made, packs := Poll(shouldRunFull);
      ghost var stopped := stopRequested;
      ghost var counted := true;
      if ending == Reconnected {
        goOn := Reconnect(now);
        counted := goOn;
      } else {
        EndOfCycle(now, shouldRunFull, ending == Busy);
        goOn := !runOnce && !stopRequested;
      }
      r := Record(Pass(now, ending, clock), counted, stopped, made, packs);
    }

    /** The commands of one cycle, and how it ends. */
    method Poll(full: bool) returns (ending: Ending, ghost made: seq<Performed>, ghost packs: seq<Performed>)
      requires Prompt() && !stopRequested
      modifies this`stopRequested, this`clock, this`atStop, this`pauses, this`published, this`performed
      ensures Prompt() && clock >= old(clock)
      ensures performed == old(performed) + (made + packs) && published == old(published) + Publishable(made + packs)
      ensures Cycle(full, stopRequested, made, packs) && Ends(ending, made, packs)
    {
      hide PacksPolled, IsWholeRun, Publishable, SetResult, EndsInCut, Aborts, EndsBusy, Ends, RunPauses;
      FullCycleIsComplete(device);
      var commands := if full then device.FastPollingCommands() + device.SlowPollingCommands()
                      else device.FastPollingCommands();
      packs := [];
      var result;
      result, made := RunCommandSet(0, commands);
      NothingPublished(0);
      assert made + packs == made;
      EndsWithoutPacks(made);
      ending := if result == ConnectionError then Reconnected else if result == DeviceBusy then Busy else Quiet;
      if ending == Quiet && full {
        WholeRunStopped(commands, 0, stopRequested, made);
        result, packs := RunPackCommands();
        EndsWithPacks(made, packs, result);
        PublishableConcat(made, packs);
        ending := if result == ConnectionError then Reconnected else if result == DeviceBusy then Busy else Quiet;
      }
    }

    /** How a cycle ends that performed no packs, and whether it went that far. */
    lemma EndsWithoutPacks(made: seq<Performed>)
      ensures var r := SetResult(made);
              Ends(if r == ConnectionError then Reconnected else if r == DeviceBusy then Busy else Quiet, made, []) &&
              (EndsInCut(made) <==> r == ConnectionError || r == DeviceBusy)
    {
      assert made + [] == made;
    }

    lemma EndsWithPacks(made: seq<Performed>, packs: seq<Performed>, r: CommandResult)
      requires !EndsInCut(made) && r == if Aborts(packs) then packs[|packs| - 1].result else AllOk
      ensures Ends(if r == ConnectionError then Reconnected else if r == DeviceBusy then Busy else Quiet, made, packs)
    {
      var all := made + packs;
      assert packs == [] ==> all == made;
      assert packs != [] ==> all[|all| - 1] == packs[|packs| - 1];
    }

    /** A pass that finds nothing due only moves the recorded clock. */
    ghost method Skip(start: int)
      requires Tracked()
      requires history.clock <= start <= clock && !RunsFast(state.Contents(), start)
      modifies this`history
      ensures Tracked() && history == Advance(old(history), options, Pass(start, Quiet, start))
    {
      if Sane(options) {
        AdvanceKeepsInv(history, options, Pass(start, Quiet, start));
      }
      history := Advance(history, options, Pass(start, Quiet, start));
    }

    /** Every pass is the one that the schedule of the passes before it calls for. */
    ghost predicate RecordsOk(h: History, records: seq<Record>) {
      forall i :: 0 <= i < |records| ==>
        RecordOk(HistoryAfter(h, options, records[..i]), records[i]) && (i < |records| - 1 ==> records[i].counted)
    }

    /** Pass `i` found something due. */
    ghost predicate RunsCycle(h: History, records: seq<Record>, i: nat)
      requires i < |records|
    {
      RunsFast(HistoryAfter(h, options, records[..i]).schedule, records[i].pass.start)
    }

    lemma NoRecords(h: History)
      ensures RecordsOk(h, []) && HistoryAfter(h, options, []) == h && EventsOf([]) == []
      ensures AfterCycles(h.schedule.timing, options, CycleFlags(h, [])) == h.schedule.timing
    {
    }

    lemma CyclesStay(h: History, records: seq<Record>, r: Record)
      ensures forall i: nat :: i < |records| ==> (RunsCycle(h, records + [r], i) <==> RunsCycle(h, records, i))
      ensures RunsCycle(h, records + [r], |records|) <==>
              RunsFast(HistoryAfter(h, options, records).schedule, r.pass.start)
    {
      assert forall i: nat :: i <= |records| ==> (records + [r])[..i] == records[..i];
    }

    lemma RecordsGrow(h: History, records: seq<Record>, r: Record)
      requires RecordsOk(h, records) && (forall i :: 0 <= i < |records| ==> records[i].counted)
      requires RecordOk(HistoryAfter(h, options, records), r)
      ensures RecordsOk(h, records + [r])
      ensures EventsOf(records + [r]) == EventsOf(records) + (r.made + r.packs)
      ensures HistoryAfter(h, options, records + [r]) ==
              if r.counted then Advance(HistoryAfter(h, options, records), options, r.pass)
              else HistoryAfter(h, options, records)
    {
      hide RecordOk;
      var all := records + [r];
      assert all[..|records|] == records;
      assert forall i :: 0 <= i <= |records| ==> all[..i] == records[..i];
    }

    /** A cycle's pack reads each follow the confirmed selection of their pack. */
    lemma CycleSelects(
      before: seq<Performed>, full: bool, stopped: bool, made: seq<Performed>, packs: seq<Performed>
    )
      requires Cycle(full, stopped, made, packs)
      ensures if SelectsPacks() then SelectedFirst(before, made + packs) else NoSelect(made + packs)
    {
      if full && !EndsInCut(made) {
        if SelectsPacks() {
          PacksAreSelected(before + made, device.packPollingCommands, device.packNumMax, stopped, packs);
        } else {
          PacksSelectNothing(device.packPollingCommands, device.packNumMax, stopped, packs);
        }
      }
      if SelectsPacks() {
        SelectedAppend(before, made, packs);
      }
    }

    /** The windows of a recorded cycle, in plain terms. */
    lemma CycleMeans(h: History, r: Record)
      requires RecordOk(h, r) && (r.pass.start >= h.schedule.nextFull || r.pass.start >= h.schedule.nextFast)
      ensures var full := r.pass.start >= h.schedule.nextFull;
              var windows := if full then |device.pollingCommands| else Min(1, |device.pollingCommands|);
              && |r.made| <= windows
              && (forall i :: 0 <= i < |r.made| ==>
                    r.made[i].Read? && r.made[i].pack == 0 && r.made[i].command == device.pollingCommands[i])
              && (forall i :: 0 <= i < |r.made| - 1 ==>
                    r.made[i].result != DeviceBusy && r.made[i].result != ConnectionError)
              && (|r.made| < windows && !r.stopped ==> GaveUp(r.made))
              && (!full || GaveUp(r.made) ==> r.packs == [])
    {
      FastIsFirst(device);
      hide PacksPolled;
    }

    /** The packs of a recorded full cycle: each has its turn, unless a stop came or one gave up. */
    lemma CyclePacks(h: History, r: Record)
      requires RecordOk(h, r) && r.pass.start >= h.schedule.nextFull && !GaveUp(r.made)
      ensures GivesUpAtOnce(r.packs)
      ensures !r.stopped && !GaveUpPacks(r.packs) && device.packPollingCommands != [] ==>
                forall p :: 1 <= p <= device.packNumMax ==>
                  HasTurn(r.packs, p) && ReadsOf(r.packs, p) <= device.packPollingCommands &&
                  (ReadsOf(r.packs, p) == device.packPollingCommands || Interrupted(r.packs, p))
    {
      assert RunsFast(h.schedule, r.pass.start) && !EndsInCut(r.made);
      if device.packPollingCommands != [] {
        var packs: nat :| PackTurns(device.packPollingCommands, packs, SelectsPacks(), r.stopped, r.packs) &&
                          packs <= Max(0, device.packNumMax) &&
                          (packs < device.packNumMax ==> r.stopped || Aborts(r.packs));
        TurnsGiveUpAtOnce(device.packPollingCommands, packs, SelectsPacks(), r.stopped, r.packs);
        if !r.stopped {
          EveryPackHasTurn(device.packPollingCommands, packs, SelectsPacks(), r.packs);
          forall p | 1 <= p <= packs
            ensures ReadsOf(r.packs, p) <= device.packPollingCommands
            ensures ReadsOf(r.packs, p) == device.packPollingCommands || Interrupted(r.packs, p)
          {
            EveryPackIsRead(device.packPollingCommands, packs, SelectsPacks(), r.packs, p);
          }
        }
      }
      hide PackTurns, GivesUpAtOnce, HasTurn, IsWholeRun, SelectsPacks;
    }

    /** How a recorded cycle ends, in plain terms. */
    lemma CycleEnds(h: History, r: Record)
      requires RecordOk(h, r) && (r.pass.start >= h.schedule.nextFull || r.pass.start >= h.schedule.nextFast)
      ensures var all := r.made + r.packs;
              r.pass.ending == Busy <==> all != [] && all[|all| - 1].result == DeviceBusy
      ensures r.pass.ending == Reconnected <==>
                (GaveUp(r.made) && r.made[|r.made| - 1].result == ConnectionError) ||
                (GaveUpPacks(r.packs) && r.packs[|r.packs| - 1].result == ConnectionError)
    {
      hide PacksPolled, IsWholeRun;
    }

    /** The windows ended in a busy answer or a connection error. */
    ghost predicate GaveUp(made: seq<Performed>) {
      made != [] && (made[|made| - 1].result == DeviceBusy || made[|made| - 1].result == ConnectionError)
    }

    /** The packs ended in a busy answer, or in a selection that hit a connection error. */
    ghost predicate GaveUpPacks(packs: seq<Performed>) {
      packs != [] &&
      (packs[|packs| - 1].result == DeviceBusy ||
       (packs[|packs| - 1].Select? && packs[|packs| - 1].result == ConnectionError))
    }

    /** Packs are selected exactly where there are several and the field that selects them can be written. */
    lemma PacksLaw()
      ensures SelectsPacks() <==>
              device.packNumMax > 1 &&
              (exists i, j :: 0 <= i < |device.fields| && 0 <= j < |device.writableRanges| &&
                 device.fields[i].name == "pack_num" &&
                 device.writableRanges[j].start <= device.fields[i].address < device.writableRanges[j].endExclusive)
    {
      SetterMeans(device, "pack_num");
    }

    /** Of the cycles that ran to their end and were not cut off by a reconnect: which ended busy. */
    ghost function CycleFlags(h: History, records: seq<Record>): seq<bool> {
      if records == [] then []
      else
        var n := |records| - 1;
        var all := records[n].made + records[n].packs;
        CycleFlags(h, records[..n]) +
        if RunsCycle(h, records, n) && records[n].pass.ending != Reconnected
        then [all != [] && all[|all| - 1].result == DeviceBusy] else []
    }

    lemma TimingGrows(h: History, records: seq<Record>, r: Record)
      requires RecordOk(HistoryAfter(h, options, records), r)
      requires HistoryAfter(h, options, records).schedule.timing ==
               AfterCycles(h.schedule.timing, options, CycleFlags(h, records))
      ensures HistoryAfter(h, options, records + [r]).schedule.timing ==
              AfterCycles(h.schedule.timing, options, CycleFlags(h, records + [r]))
    {
      hide RecordOk, Advance, BackOff, Recover, AfterCycles, RunsCycle;
      var all, before, flags := records + [r], HistoryAfter(h, options, records), CycleFlags(h, records);
      assert all[..|records|] == records;
      assert flags + [] == flags;
      CyclesStay(h, records, r);
      RecordCounts(before, r);
      TimingOfPass(before, options, r.pass);
      AfterOneMore(h.schedule.timing, options, flags, r.pass.ending == Busy);
      var events := r.made + r.packs;
      assert CycleFlags(h, all) ==
             flags + if RunsFast(before.schedule, r.pass.start) && r.pass.ending != Reconnected
                     then [events != [] && events[|events| - 1].result == DeviceBusy] else [];
    }

    lemma RecordCounts(h: History, r: Record)
      requires RecordOk(h, r)
      ensures r.counted || (RunsFast(h.schedule, r.pass.start) && r.pass.ending == Reconnected)
      ensures RunsFast(h.schedule, r.pass.start) ==>
                var all := r.made + r.packs;
                r.pass.ending == Busy <==> all != [] && all[|all| - 1].result == DeviceBusy
    {
      if RunsFast(h.schedule, r.pass.start) {
        CycleEnds(h, r);
      }
      hide Cycle, Ends;
    }

    /**
     Any number of passes: what is performed is the cycles that the schedule calls
     for, in order, and only a stop leaves one unfinished, the last; what is published is
     what they parsed, in order; every pack read follows the confirmed selection of its
     pack. Fewer passes are made only on a stop, or in a single run, which has one cycle.
     However and whenever a stop is requested, at most one command ends after it.
     */
    method Run(passes: nat) returns (ghost records: seq<Record>)
      requires Prompt() && Tracked()
      modifies this`stopRequested, this`clock, this`atStop, this`pauses, this`connects, this`published,
        this`performed, this`history, state
      ensures Prompt() && Tracked()
      ensures old(stopRequested) ==> records == []
      ensures RecordsOk(old(history), records) && history == HistoryAfter(old(history), options, records)
      ensures performed == old(performed) + EventsOf(records) &&
              published == old(published) + Publishable(EventsOf(records))
      ensures if device.packNumMax > 1 &&
                  (exists i, j :: 0 <= i < |device.fields| && 0 <= j < |device.writableRanges| &&
                     device.fields[i].name == "pack_num" &&
                     device.writableRanges[j].start <= device.fields[i].address < device.writableRanges[j].endExclusive)
              then SelectedFirst(old(performed), EventsOf(records)) else NoSelect(EventsOf(records))
      ensures history.schedule.timing ==
              AfterCycles(old(history).schedule.timing, options, CycleFlags(old(history), records))
      ensures forall i :: 0 <= i < |records| && records[i].stopped ==> i == |records| - 1 && stopRequested
      ensures |records| <= passes
      ensures |records| < passes ==>
                stopRequested || (runOnce && records != [] && RunsCycle(old(history), records, |records| - 1))
      ensures runOnce ==> forall i :: 0 <= i < |records| - 1 ==> !RunsCycle(old(history), records, i)
    {
      hide RecordOk, RecordsOk, RunsCycle, HistoryAfter, EventsOf, Publishable, Polling.Inv, SelectedFirst, NoSelect,
           Advance, CycleFlags, AfterCycles;
      PacksLaw();
      records := [];
      NoRecords(history);
      NothingPublished(0);
      NothingSelected(performed);
      for pass := 0 to passes
        invariant Prompt() && Tracked() && |records| == pass
        invariant forall i :: 0 <= i < |records| && records[i].stopped ==> i == |records| - 1 && stopRequested
        invariant runOnce ==> forall i :: 0 <= i < |records| ==> !RunsCycle(old(history), records, i)
        invariant old(stopRequested) ==> stopRequested && records == []
        invariant RecordsOk(old(history), records) && forall i :: 0 <= i < |records| ==> records[i].counted
        invariant history == HistoryAfter(old(history), options, records)
        invariant performed == old(performed) + EventsOf(records) &&
                  published == old(published) + Publishable(EventsOf(records))
        invariant if SelectsPacks() then SelectedFirst(old(performed), EventsOf(records))
                  else NoSelect(EventsOf(records))
        invariant history.schedule.timing ==
                  AfterCycles(old(history).schedule.timing, options, CycleFlags(old(history), records))
      {
        if stopRequested {
          return;
        }
        var goOn;
        ghost var r;
        goOn, r := Iterate();
        RecordsGrow(old(history), records, r);
        CyclesStay(old(history), records, r);
        TimingGrows(old(history), records, r);
        PublishableConcat(EventsOf(records), r.made + r.packs);
        RecordSelects(old(performed), EventsOf(records), HistoryAfter(old(history), options, records), r);
        records := records + [r];
        if !goOn {
          return;
        }
      }
    }

    lemma RecordSelects(before: seq<Performed>, events: seq<Performed>, h: History, r: Record)
      requires RecordOk(h, r)
      requires if SelectsPacks() then SelectedFirst(before, events) else NoSelect(events)
      ensures var all := events + (r.made + r.packs);
              if SelectsPacks() then SelectedFirst(before, all) else NoSelect(all)
    {
      if RunsFast(h.schedule, r.pass.start) {
        CycleSelects(before + events, RunsFull(h.schedule, r.pass.start), r.stopped, r.made, r.packs);
      }
      if SelectsPacks() {
        SelectedAppend(before, events, r.made + r.packs);
      }
    }
  }
}
