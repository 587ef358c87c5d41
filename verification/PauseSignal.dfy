/** Whether an exhausted budget has its pause in the outbox
    (crates/api/src/budgets.rs, the announcements of `replay`).

    It always has while folds of one budget do not overlap. Overlapping folds can lose it:
    a fold announces what rises above the stage of the row it loaded, and another fold may
    have un-crossed that stage in between. */
module PauseSignal {
  import opened Prelude
  import opened BudgetEngine
  import opened BudgetTables
  import opened BudgetRuns

  /** The tables after a fold's batch. */
  function AfterCommit(t: Tables, call: Call): Tables
    requires call.Ready? && call.row.limit > 0 && Replayed(call.row.limit, call.events).Some?
  {
    ExecBatch(t, WriteBack(call.begun.budget, call.row, call.events))
  }

  /** When a fold leaves a budget exhausted, its pause is in the outbox exactly when it was
      there already or the row the fold loaded was not yet exhausted. */
  lemma PauseAfterCommit(t: Tables, call: Call)
    requires call.Ready? && call.row.limit > 0 && Replayed(call.row.limit, call.events).Some?
    requires Matches(t, call.begun.budget, call.row.limit)
    requires Replayed(call.row.limit, call.events).value.stage == Stage.Exhausted
    ensures Has(AfterCommit(t, call).outbox, call.begun.budget, Signal.Pause) ==
      (Has(t.outbox, call.begun.budget, Signal.Pause) || call.row.stage != Stage.Exhausted)
  {
    hide ExecBatch, WriteBack, Crossings, Replayed, Sum;
    WonFold(t, call.begun.budget, call.row, call.events);
    CrossingsAnnounceTheRise(call.row.limit, call.events, call.row.stage);
  }

  ghost predicate FreshPause(outbox: seq<SignalRow>, budget: nat, from: nat)
  {
    exists row :: row in outbox && row.budget == budget && row.signal == Signal.Pause
      && row.id >= from && !row.delivered
  }

  /** A pause that was not there before the fold is a new row nobody has delivered. */
  lemma NewPauseIsFresh(t: Tables, call: Call)
    requires call.Ready? && call.row.limit > 0 && Replayed(call.row.limit, call.events).Some?
    requires Matches(t, call.begun.budget, call.row.limit)
    requires !Has(t.outbox, call.begun.budget, Signal.Pause)
    requires Has(AfterCommit(t, call).outbox, call.begun.budget, Signal.Pause)
    ensures FreshPause(AfterCommit(t, call).outbox, call.begun.budget, t.nextSignal)
  {
    var b, after := call.begun.budget, AfterCommit(t, call);
    WonFold(t, b, call.row, call.events);
    var row :| row in after.outbox && row.budget == b && row.signal == Signal.Pause;
    assert row !in t.outbox;
  }

  predicate Folding(call: Call) { call.Loaded? || call.Ready? }

  /** No budget has two requests between loading its row and committing a fold of it. */
  predicate OneFoldAtATime(s: System)
  {
    forall c, d :: c in s.calls && d in s.calls && c != d && Folding(s.calls[c]) && Folding(s.calls[d])
      ==> s.calls[c].begun.budget != s.calls[d].begun.budget
  }

  ghost predicate FoldsNeverOverlap(steps: seq<Step>)
  {
    forall n :: 0 <= n <= |steps| ==> OneFoldAtATime(Run(steps[..n]))
  }

  ghost predicate PauseInv(s: System)
  {
    && (forall b :: b in s.tables.budgets && s.tables.budgets[b].stage == Stage.Exhausted
         ==> Has(s.tables.outbox, b, Signal.Pause))
    && (forall c :: c in s.calls && Folding(s.calls[c]) ==>
         && s.calls[c].begun.budget in s.tables.budgets
         && s.calls[c].row.stage == s.tables.budgets[s.calls[c].begun.budget].stage)
  }

  lemma CommitKeepsPause(s: System, c: nat)
    requires Inv(s) && PauseInv(s) && OneFoldAtATime(s)
    ensures PauseInv(Do(s, Commit(c)))
  {
    hide ExecBatch, WriteBack, Crossings, Replayed, Sum;
    if c in s.calls && s.calls[c].Ready? {
      var call, t := s.calls[c], s.tables;
      var b := call.begun.budget;
      assert CallInv(s, call);
      if Matches(t, b, call.row.limit) {
        WonFold(t, b, call.row, call.events);
        var after := AfterCommit(t, call);
        assert Do(s, Commit(c)).tables == after;
        forall d | d in after.budgets && after.budgets[d].stage == Stage.Exhausted
          ensures Has(after.outbox, d, Signal.Pause)
        {
          if d == b {
            PauseAfterCommit(t, call);
          } else {
            var row :| row in t.outbox && row.budget == d && row.signal == Signal.Pause;
            assert row in after.outbox;
          }
        }
      } else {
        LostFold(t, b, call.row, call.events);
      }
    }
  }

  lemma DeliveryKeepsSignals(outbox: seq<SignalRow>, id: nat, budget: nat, signal: Signal)
    requires Has(outbox, budget, signal)
    ensures Has(Delivered(outbox, id), budget, signal)
  {
    var row :| row in outbox && row.budget == budget && row.signal == signal;
    var i :| 0 <= i < |outbox| && outbox[i] == row;
    assert Delivered(outbox, id)[i] in Delivered(outbox, id);
  }

  lemma StepKeepsPause(s: System, step: Step)
    requires Inv(s) && PauseInv(s) && OneFoldAtATime(s)
    ensures PauseInv(Do(s, step))
  {
    hide ExecBatch, WriteBack, Crossings, Replayed, Sum;
    match step
    case Commit(c) => CommitKeepsPause(s, c);
    case MarkDelivered(id) =>
      forall b | b in s.tables.budgets && s.tables.budgets[b].stage == Stage.Exhausted
        ensures Has(Delivered(s.tables.outbox, id), b, Signal.Pause)
      {
        DeliveryKeepsSignals(s.tables.outbox, id, b, Signal.Pause);
      }
    case _ =>
  }

  lemma {:induction false} RunKeepsPause(steps: seq<Step>)
    requires FoldsNeverOverlap(steps)
    ensures PauseInv(Run(steps))
  {
    if steps != [] {
      var n := |steps| - 1;
      forall m | 0 <= m <= n ensures OneFoldAtATime(Run(steps[..n][..m])) {
        assert steps[..n][..m] == steps[..m];
      }
      RunKeepsPause(steps[..n]);
      RunKeepsInv(steps[..n]);
      assert steps[..n][..n] == steps[..n];
      StepKeepsPause(Run(steps[..n]), steps[n]);
    }
  }

  /** Without overlapping folds, the outbox holds a budget's pause exactly while the budget
      is stored as exhausted. */
  lemma PausePresentExactlyWhileExhausted(steps: seq<Step>, budget: nat)
    requires FoldsNeverOverlap(steps)
    requires budget in Run(steps).tables.budgets
    ensures Has(Run(steps).tables.outbox, budget, Signal.Pause)
       <==> Run(steps).tables.budgets[budget].stage == Stage.Exhausted
  {
    RunKeepsPause(steps);
    var t := Run(steps).tables;
    if Has(t.outbox, budget, Signal.Pause) {
      var row :| row in t.outbox && row.budget == budget && row.signal == Signal.Pause;
      NoSignalAboveTheStage(steps, row);
    }
  }

  /** Exhausting a budget again after its limit un-crossed the top stage announces again:
      the pause is a new row, undelivered, that no identifier drawn before can name. */
  lemma ReExhaustionAnnouncesAfresh(steps: seq<Step>, c: nat)
    requires FoldsNeverOverlap(steps)
    requires c in Run(steps).calls && Run(steps).calls[c].Ready?
    requires var t, call := Run(steps).tables, Run(steps).calls[c];
      && Matches(t, call.begun.budget, call.row.limit)
      && t.budgets[call.begun.budget].stage != Stage.Exhausted
      && call.row.limit > 0 && Replayed(call.row.limit, call.events).Some?
      && Replayed(call.row.limit, call.events).value.stage == Stage.Exhausted
    ensures forall row :: row in Run(steps).tables.outbox ==> row.id < Run(steps).tables.nextSignal
    ensures FreshPause(AfterCommit(Run(steps).tables, Run(steps).calls[c]).outbox,
      Run(steps).calls[c].begun.budget, Run(steps).tables.nextSignal)
    ensures Do(Run(steps), Commit(c)).tables == AfterCommit(Run(steps).tables, Run(steps).calls[c])
  {
    hide ExecBatch, WriteBack, Crossings, Replayed, Sum, Run;
    var s := Run(steps);
    var call := s.calls[c];
    RunKeepsInv(steps);
    RunKeepsPause(steps);
    PausePresentExactlyWhileExhausted(steps, call.begun.budget);
    PauseAfterCommit(s.tables, call);
    NewPauseIsFresh(s.tables, call);
  }

  // ── In every run ──

  /** A fold of the budget that commits under the limit in force. */
  predicate Wins(s: System, step: Step, budget: nat)
  {
    && step.Commit? && step.call in s.calls && s.calls[step.call].Ready? && s.calls[step.call].begun.budget == budget
    && s.calls[step.call].row.limit > 0 && Replayed(s.calls[step.call].row.limit, s.calls[step.call].events).Some?
    && Matches(s.tables, budget, s.calls[step.call].row.limit)
  }

  /** The last fold of the budget that did. */
  function LastFold(steps: seq<Step>, budget: nat): (at: Option<nat>)
    ensures at.Some? ==> at.value < |steps|
  {
    if steps == [] then None
    else
      var n := |steps| - 1;
      if Wins(Run(steps[..n]), steps[n], budget) then Some(n) else LastFold(steps[..n], budget)
  }

  /** The fold had loaded an exhausted row, and there is no pause as it commits: one fold in
      between took it away. */
  predicate Stale(s: System, step: Step, budget: nat)
  {
    && step.Commit? && step.call in s.calls && s.calls[step.call].Ready?
    && s.calls[step.call].row.stage == Stage.Exhausted && !Has(s.tables.outbox, budget, Signal.Pause)
  }

  predicate ExhaustedNow(s: System, budget: nat)
  {
    budget in s.tables.budgets && s.tables.budgets[budget].stage == Stage.Exhausted
  }

  lemma OtherStepsKeepPause(s: System, step: Step, budget: nat)
    requires !Wins(s, step, budget)
    ensures ExhaustedNow(Do(s, step), budget) ==> ExhaustedNow(s, budget)
    ensures ExhaustedNow(Do(s, step), budget) ==>
      Has(Do(s, step).tables.outbox, budget, Signal.Pause) == Has(s.tables.outbox, budget, Signal.Pause)
  {
    hide ExecBatch, WriteBack, Crossings, Replayed, Sum, Has;
    if step.Commit? {
      OtherCommitsKeepPause(s, step.call, budget);
    } else if step.MarkDelivered? {
      DeliveryKeepsPause(s.tables.outbox, step.id, budget);
    }
  }

  lemma DeliveryKeepsPause(outbox: seq<SignalRow>, id: nat, budget: nat)
    ensures Has(Delivered(outbox, id), budget, Signal.Pause) == Has(outbox, budget, Signal.Pause)
  {
    if Has(outbox, budget, Signal.Pause) {
      DeliveryKeepsSignals(outbox, id, budget, Signal.Pause);
    }
    if Has(Delivered(outbox, id), budget, Signal.Pause) {
      var row :| row in Delivered(outbox, id) && row.budget == budget && row.signal == Signal.Pause;
      var i :| 0 <= i < |outbox| && Delivered(outbox, id)[i] == row;
      assert outbox[i] in outbox;
    }
  }

  lemma OtherCommitsKeepPause(s: System, c: nat, budget: nat)
    requires !Wins(s, Commit(c), budget)
    ensures var after := Do(s, Commit(c)).tables;
      && (budget in after.budgets <==> budget in s.tables.budgets)
      && (budget in after.budgets ==> after.budgets[budget] == s.tables.budgets[budget])
      && Has(after.outbox, budget, Signal.Pause) == Has(s.tables.outbox, budget, Signal.Pause)
  {
    hide ExecBatch, WriteBack, Crossings, Replayed, Sum;
    if c in s.calls && s.calls[c].Ready? {
      var call, t := s.calls[c], s.tables;
      if call.row.limit > 0 && Replayed(call.row.limit, call.events).Some? {
        if Matches(t, call.begun.budget, call.row.limit) {
          WonFold(t, call.begun.budget, call.row, call.events);
          OthersSignalsStay(t, AfterCommit(t, call), call.begun.budget, budget,
            Replayed(call.row.limit, call.events).value.stage, Crossings(call.row.limit, call.events, call.row.stage));
        } else {
          LostFold(t, call.begun.budget, call.row, call.events);
        }
      }
    }
  }

  lemma OthersSignalsStay(t: Tables, after: Tables, budget: nat, other: nat, reached: Stage, announced: seq<Signal>)
    requires OutboxAfterFold(t, after, budget, reached, announced) && other != budget
    ensures Has(after.outbox, other, Signal.Pause) == Has(t.outbox, other, Signal.Pause)
  {
  }

  /** Whatever overlapped: an exhausted budget lacks its pause exactly if the last fold to
      commit had loaded an exhausted row and found the pause gone. */
  lemma {:induction false} PauseMissingExactlyAfterAStaleFold(steps: seq<Step>, budget: nat)
    requires ExhaustedNow(Run(steps), budget)
    ensures LastFold(steps, budget).Some?
    ensures var n := LastFold(steps, budget).value;
      !Has(Run(steps).tables.outbox, budget, Signal.Pause) <==> Stale(Run(steps[..n]), steps[n], budget)
  {
    hide ExecBatch, WriteBack, Crossings, Replayed, Sum, Has, Do;
    if steps == [] {
      NothingExhausted(budget);
    } else {
      var n := |steps| - 1;
      var s := Run(steps[..n]);
      if Wins(s, steps[n], budget) {
        WinningFold(s, steps[n].call, budget);
      } else {
        OtherStepsKeepPause(s, steps[n], budget);
        PauseMissingExactlyAfterAStaleFold(steps[..n], budget);
        var m := LastFold(steps[..n], budget).value;
        assert steps[..n][..m] == steps[..m];
      }
    }
  }

  lemma NothingExhausted(budget: nat)
    ensures !ExhaustedNow(Run([]), budget)
  {
  }

  lemma WinningFold(s: System, c: nat, budget: nat)
    requires Wins(s, Commit(c), budget) && ExhaustedNow(Do(s, Commit(c)), budget)
    ensures !Has(Do(s, Commit(c)).tables.outbox, budget, Signal.Pause) <==> Stale(s, Commit(c), budget)
  {
    hide ExecBatch, WriteBack, Crossings, Replayed, Sum, Has;
    var call := s.calls[c];
    WonFold(s.tables, budget, call.row, call.events);
    PauseAfterCommit(s.tables, call);
  }

  // ── Overlapping folds ──

  /** Overlapping folds can leave a budget exhausted, its cache certified, and no pause in
      the outbox: a fold loads an exhausted budget; the limit is raised and a second fold
      un-crosses the pause; the limit is put back; the first fold then commits under the
      limit it loaded, and announces nothing because the stage did not rise. */
  lemma OverlappingFoldsLoseThePause() returns (steps: seq<Step>)
    ensures var t := Run(steps).tables;
      && 0 in t.budgets && t.budgets[0].stage == Stage.Exhausted
      && t.budgets[0].folded == Count(t.ledger, 0)
      && !Has(t.outbox, 0, Signal.Pause)
  {
    hide ExecBatch, WriteBack, Crossings, Replayed, ReadLedger;
    steps := FirstFoldAnnounces();
    steps := SecondFoldIsHeldUp(steps);
    steps := ThirdFoldPrunes(steps);
    LateCommit(Run(steps));
    OneEvent();
    steps := Then(steps, SetLimit(0, 10));
    steps := Then(steps, Read(1));
    steps := Then(steps, Commit(1));
  }

  lemma Then(steps: seq<Step>, step: Step) returns (more: seq<Step>)
    ensures Run(more) == Do(Run(steps), step) && more == steps + [step]
  {
    more := steps + [step];
    assert more[..|steps|] == steps;
  }

  /** One request folding with nothing in between. */
  lemma ThenFold(steps: seq<Step>, c: nat) returns (more: seq<Step>)
    ensures Run(more) == Do(Folded(Run(steps), c), Commit(c))
    ensures more == steps + [BeginReconcile(c, 0)] + [Load(c)] + [Read(c)] + [Commit(c)]
  {
    more := Then(steps, BeginReconcile(c, 0));
    more := Then(more, Load(c));
    more := Then(more, Read(c));
    more := Then(more, Commit(c));
  }

  lemma FirstFoldAnnounces() returns (steps: seq<Step>)
    ensures Run(steps).tables == Tables(map[0 := EXHAUSTED], EVENT, [PAUSE], 1)
    ensures Run(steps).calls.Keys == {0} && Run(steps).changes == map[]
    ensures forall step :: step in steps ==> !step.MarkDelivered?
  {
    hide ExecBatch, WriteBack, Crossings, Replayed, ReadLedger, Count;
    OneEvent();
    steps := Then([], Create(0, 0, 10));
    steps := Then(steps, Insert(EVENT));
    var s := Run(steps);
    assert s == System(Tables(map[0 := ROW], EVENT, [], 0), map[], map[]);
    steps := ThenFold(steps, 0);
    LoneFold(s, 0, ROW, Stage.Exhausted);
    FoldOf(s.tables, ROW, Stage.Exhausted);
  }

  lemma SecondFoldIsHeldUp(before: seq<Step>) returns (steps: seq<Step>)
    requires Run(before).tables == Tables(map[0 := EXHAUSTED], EVENT, [PAUSE], 1)
    requires Run(before).calls.Keys == {0} && Run(before).changes == map[]
    ensures Run(steps).tables
         == Tables(map[0 := EXHAUSTED.(limit := 25, folded := UNFOLDED)], EVENT, [PAUSE], 1)
    ensures Run(steps).calls == Run(before).calls[1 := Loaded(Begun(0, 1, 0, 0), EXHAUSTED, 0)]
  {
    hide ExecBatch, WriteBack, Crossings, Replayed, ReadLedger, Count;
    HeldUp(Run(before));
    steps := Then(before, BeginReconcile(1, 0));
    steps := Then(steps, Load(1));
    steps := Then(steps, SetLimit(0, 25));
  }

  lemma ThirdFoldPrunes(before: seq<Step>) returns (steps: seq<Step>)
    requires Run(before).tables
          == Tables(map[0 := EXHAUSTED.(limit := 25, folded := UNFOLDED)], EVENT, [PAUSE], 1)
    requires Run(before).calls.Keys == {0, 1}
    requires Run(before).calls[1] == Loaded(Begun(0, 1, 0, 0), EXHAUSTED, 0)
    ensures Run(steps).tables == Tables(map[0 := EXHAUSTED.(limit := 25, stage := Stage.Ok)], EVENT, [], 1)
    ensures 1 in Run(steps).calls && Run(steps).calls[1] == Run(before).calls[1]
  {
    hide ExecBatch, WriteBack, Crossings, Replayed, ReadLedger, Count;
    var s, raised := Run(before), EXHAUSTED.(limit := 25, folded := UNFOLDED);
    steps := ThenFold(before, 2);
    LoneFold(s, 2, raised, Stage.Ok);
    FoldOf(s.tables, raised, Stage.Ok);
  }

  const EVENT: seq<SpendRow> := [SpendRow(0, 10, 0, None)]

  /** A request that has begun, loaded and read with nothing in between. */
  function Folded(s: System, c: nat): System
  {
    Do(Do(Do(s, BeginReconcile(c, 0)), Load(c)), Read(c))
  }

  const ROW: BudgetRow := BudgetRow(0, 10, 0, Stage.Ok, 0)

  const EXHAUSTED: BudgetRow := BudgetRow(0, 10, 10, Stage.Exhausted, 1)

  /** The second request loads the exhausted row, and the limit is raised. */
  lemma HeldUp(s: System)
    requires s.tables == Tables(map[0 := EXHAUSTED], EVENT, [PAUSE], 1)
    requires 1 !in s.calls && s.changes == map[]
    ensures var after := Do(Do(Do(s, BeginReconcile(1, 0)), Load(1)), SetLimit(0, 25));
      && after.tables == s.tables.(budgets := map[0 := EXHAUSTED.(limit := 25, folded := UNFOLDED)])
      && after.calls == s.calls[1 := Loaded(Begun(0, 1, 0, 0), EXHAUSTED, 0)]
  {
  }

  /** The limit is put back, and the second request reads and commits under it. */
  lemma LateCommit(s: System)
    requires s.tables.budgets == map[0 := EXHAUSTED.(limit := 25, stage := Stage.Ok)]
    requires s.tables.ledger == EVENT && s.tables.outbox == []
    requires 1 in s.calls && s.calls[1] == Loaded(Begun(0, 1, 0, 0), EXHAUSTED, 0)
    ensures var after := Do(Do(Do(s, SetLimit(0, 10)), Read(1)), Commit(1)).tables;
      && after.budgets == map[0 := EXHAUSTED] && after.ledger == EVENT && after.outbox == []
  {
    hide ExecBatch, WriteBack, Crossings, Replayed, ReadLedger, Count;
    OneEvent();
    ReplayOfTen(10, Stage.Exhausted);
    var relimited := Do(s, SetLimit(0, 10));
    var read := Do(relimited, Read(1));
    assert read.calls[1] == Ready(Begun(0, 1, 0, 0), EXHAUSTED, 0, [10], 1);
    FoldOf(read.tables, EXHAUSTED, Stage.Exhausted);
  }

  lemma LoneFold(s: System, c: nat, row: BudgetRow, stage: Stage)
    requires s.tables.ledger == EVENT && s.tables.budgets == map[0 := row] && c !in s.calls
    requires TenOrTwentyFive(row.limit, stage) && row.session == 0
    ensures Replayed(row.limit, [10]).Some?
    ensures var after := Do(Folded(s, c), Commit(c));
      && after.tables == ExecBatch(s.tables, WriteBack(0, row, [10]))
      && after.changes == s.changes
      && (forall d :: d in s.calls ==> d in after.calls && after.calls[d] == s.calls[d])
      && after.calls.Keys == s.calls.Keys + {c}
  {
    hide ExecBatch, WriteBack, Crossings, Replayed, ReadLedger, Count;
    OneEvent();
    ReplayOfTen(row.limit, stage);
    var begun := Begun(0, 1, Changes(s, 0), 0);
    var loaded := Do(Do(s, BeginReconcile(c, 0)), Load(c));
    assert loaded == s.(calls := s.calls[c := Loaded(begun, row, Changes(s, 0))]);
    assert Folded(s, c) == s.(calls := s.calls[c := Ready(begun, row, Changes(s, 0), [10], 1)]);
  }

  lemma OneEvent()
    ensures ReadLedger(EVENT, 0) == [10] && Count(EVENT, 0) == 1 && InsertRows([], EVENT) == EVENT
  {
    assert EVENT[..0] == [];
    assert EventsOf(EVENT, 0) == [] + EVENT == EVENT;
    assert InReadOrder(EVENT) == EVENT;
    assert Amounts(EVENT) == [] + [10];
  }

  predicate TenOrTwentyFive(limit: nat, stage: Stage)
  {
    (limit == 10 && stage == Stage.Exhausted) || (limit == 25 && stage == Stage.Ok)
  }

  lemma ReplayOfTen(limit: nat, stage: Stage)
    requires TenOrTwentyFive(limit, stage)
    ensures Replayed(limit, [10]) == Some(State(limit, 10, stage))
  {
    assert [10][..0] == [];
    assert Sum([10]) == 10;
    assert BasisPoints(10, 10) == 10_000 && BasisPoints(10, 25) == 4_000;
    ReplayIsTheTotal(limit, [10]);
  }

  lemma CrossingsOfTen(limit: nat, stage: Stage, floor: Stage)
    requires TenOrTwentyFive(limit, stage)
    ensures Crossings(limit, [10], floor)
         == if limit == 10 && floor != Stage.Exhausted then [Signal.Pause] else []
  {
    var first: seq<nat> := [];
    assert [10][..0] == first;
    assert Replayed(limit, first) == Some(State(limit, 0, Stage.Ok));
    assert Crossings(limit, first, floor) == [];
    assert BasisPoints(10, 10) == 10_000 && BasisPoints(10, 25) == 4_000;
    assert Apply(State(limit, 0, Stage.Ok), 10)
        == Some((State(limit, 10, stage), if stage == Stage.Ok then None else Some(Signal.Pause)));
  }

  const PAUSE: SignalRow := SignalRow(0, 0, 0, Signal.Pause, false)

  lemma PruneOfPause(ordinal: nat)
    ensures Pruned([], 0, ordinal) == []
    ensures Pruned([PAUSE], 0, ordinal) == if ordinal < 4 then [] else [PAUSE]
  {
    assert [PAUSE][..0] == [];
  }

  lemma AnnounceOne(t: Tables, signal: Signal)
    requires t.outbox == []
    ensures Announced(t, 0, 0, [signal])
         == t.(outbox := [SignalRow(t.nextSignal, 0, 0, signal, false)], nextSignal := t.nextSignal + 1)
  {
    assert [signal][..0] == [];
    assert Announced(t, 0, 0, []) == t;
  }

  /** The tables after a fold of the event under a row of limit 10 or 25. */
  lemma FoldOf(t: Tables, row: BudgetRow, stage: Stage)
    requires TenOrTwentyFive(row.limit, stage) && Matches(t, 0, row.limit) && row.session == 0
    requires if row.stage != Stage.Exhausted then t.outbox == [] && t.nextSignal == 0
      else t.outbox == [] || t.outbox == [PAUSE]
    ensures Replayed(row.limit, [10]) == Some(State(row.limit, 10, stage))
    ensures ExecBatch(t, WriteBack(0, row, [10])) == Tables(
      t.budgets[0 := t.budgets[0].(spent := 10, stage := stage, folded := 1)],
      t.ledger,
      if row.limit == 25 then [] else if row.stage != Stage.Exhausted then [PAUSE] else t.outbox,
      if row.limit == 10 && row.stage != Stage.Exhausted then 1 else t.nextSignal)
  {
    ReplayOfTen(row.limit, stage);
    CrossingsOfTen(row.limit, stage, row.stage);
    WriteBackIsAllOrNothing(t, 0, row, [10]);
    PruneOfPause(StageOrdinal(stage));
    if t.outbox == [] {
      AnnounceOne(t, Signal.Pause);
    }
    assert Announced(t, 0, 0, []) == t;
  }
}
