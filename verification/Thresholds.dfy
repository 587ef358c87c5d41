/** What the stages and signals of a budget mean in money (crates/core/src/budget.rs): a limit
    and what was spent against it, with no basis points, ordinals or replays in it. */
module Thresholds {
  import opened Prelude
  import opened BudgetEngine
  import opened BudgetTables
  import opened BudgetRuns
  import opened BudgetStore
  import opened PauseSignal

  /** Half, four fifths, nine tenths and all of the limit. */
  predicate StandsAt(stage: Stage, spent: nat, limit: nat)
  {
    && (stage == Stage.Exhausted <==> spent >= limit)
    && (stage in {Stage.Final90, Stage.Exhausted} <==> 10 * spent >= 9 * limit)
    && (stage in {Stage.Warn80, Stage.Final90, Stage.Exhausted} <==> 10 * spent >= 8 * limit)
    && (stage != Stage.Ok <==> 2 * spent >= limit)
  }

  /** What a signal says was spent. */
  predicate Crossed(signal: Signal, spent: nat, limit: nat)
  {
    match signal
    case Notice50 => 2 * spent >= limit
    case Warn80 => 10 * spent >= 8 * limit
    case FinalWarn90 => 10 * spent >= 9 * limit
    case Pause => spent >= limit
  }

  /** At a signal's threshold, and below the next. */
  predicate Between(signal: Signal, spent: nat, limit: nat)
  {
    && Crossed(signal, spent, limit)
    && match signal
       case Notice50 => 10 * spent < 8 * limit
       case Warn80 => 10 * spent < 9 * limit
       case FinalWarn90 => spent < limit
       case Pause => true
  }

  /** The stage on record is one before the signal's. */
  predicate Before(floor: Stage, signal: Signal)
  {
    match signal
    case Notice50 => floor == Stage.Ok
    case Warn80 => floor in {Stage.Ok, Stage.Notice50}
    case FinalWarn90 => floor !in {Stage.Final90, Stage.Exhausted}
    case Pause => floor != Stage.Exhausted
  }

  /** A view in money: nothing remains exactly when the budget is exhausted. */
  predicate Tells(view: View, spent: nat)
  {
    && view.spent == spent && StandsAt(view.stage, spent, view.limit)
    && (spent < view.limit ==> view.remaining + spent == view.limit)
    && (view.remaining == 0 <==> view.stage == Stage.Exhausted)
  }

  /** Rounded down to basis points, a ratio reaches a threshold exactly when the money does. */
  lemma AtLeast(spent: nat, limit: nat, bp: nat)
    requires limit > 0
    ensures BasisPoints(spent, limit) >= bp <==> spent * 10_000 >= bp * limit
  {
    var a := spent * 10_000;
    if a >= bp * limit {
      DivMonotoneBy(bp, 0, a / limit, a % limit, limit);
    } else if a / limit >= bp {
      MulMonotone(bp, a / limit, limit);
    }
  }

  lemma StageInMoney(spent: nat, limit: nat)
    requires limit > 0
    ensures StandsAt(StageForBasisPoints(BasisPoints(spent, limit)), spent, limit)
  {
    hide BasisPoints;
    AtLeast(spent, limit, 5_000);
    AtLeast(spent, limit, 8_000);
    AtLeast(spent, limit, 9_000);
    AtLeast(spent, limit, 10_000);
  }

  /** Every replay that answers stands where its total stands against the limit. */
  lemma StagesInMoney(limit: nat, events: seq<nat>)
    requires limit > 0 && Replayed(limit, events).Some?
    ensures var state := Replayed(limit, events).value;
      state.spent == Sum(events) && StandsAt(state.stage, Sum(events), limit)
    ensures Tells(ViewOf(Replayed(limit, events).value), Sum(events))
  {
    ReplayIsTheTotal(limit, events);
    StageInMoney(Sum(events), limit);
  }

  // ── Which signals a ledger raises ──

  /** Some prefix of the ledger spends what the signal says, and not yet what the next does. */
  ghost predicate Passes(limit: nat, events: seq<nat>, signal: Signal)
  {
    exists n: nat :: n <= |events| && Between(signal, Sum(events[..n]), limit)
  }

  lemma PassesOneMore(limit: nat, events: seq<nat>, signal: Signal)
    requires events != []
    ensures Passes(limit, events, signal) <==>
      Passes(limit, events[..|events| - 1], signal) || Between(signal, Sum(events), limit)
  {
    hide Between, Sum;
    var init := events[..|events| - 1];
    assert events[..|events|] == events;
    forall n: nat | n <= |init| ensures init[..n] == events[..n] {}
    if n: nat :| n <= |events| && Between(signal, Sum(events[..n]), limit) {
      if n < |events| { assert Between(signal, Sum(init[..n]), limit); }
    }
    if n: nat :| n <= |init| && Between(signal, Sum(init[..n]), limit) {
      assert Between(signal, Sum(events[..n]), limit);
    }
  }

  /** The signals a replay raises past the stage on record, in money: one whose threshold some
      prefix of the ledger stands at without reaching the next, and for the first two only
      against a limit of five dollars or more. */
  lemma {:induction false} SignalsInMoney(limit: nat, events: seq<nat>, floor: Stage, signal: Signal)
    requires limit > 0 && Replayed(limit, events).Some?
    ensures signal in Crossings(limit, events, floor) <==>
      && Before(floor, signal) && Passes(limit, events, signal)
      && (signal in {Signal.Notice50, Signal.Warn80} ==> limit >= 5_000_000)
  {
    hide StandsAt, Passes;
    if events == [] {
      NothingPassed(limit, signal);
    } else {
      var init := events[..|events| - 1];
      SignalsInMoney(limit, init, floor, signal);
      PassesOneMore(limit, events, signal);
      RaisedByOne(limit, events, floor, signal);
      hide Crossings;
      if Between(signal, Sum(events), limit) && Between(signal, Sum(init), limit) {
        NowPasses(limit, init, signal);
      }
    }
  }

  lemma NowPasses(limit: nat, events: seq<nat>, signal: Signal)
    requires Between(signal, Sum(events), limit)
    ensures Passes(limit, events, signal)
  {
    assert events[..|events|] == events;
  }

  lemma NothingPassed(limit: nat, signal: Signal)
    requires limit > 0
    ensures !Passes(limit, [], signal)
  {
  }

  /** What the last event of a ledger raises. */
  lemma RaisedByOne(limit: nat, events: seq<nat>, floor: Stage, signal: Signal)
    requires limit > 0 && events != [] && Replayed(limit, events).Some?
    ensures var init := events[..|events| - 1];
      && Replayed(limit, init).Some?
      && (signal in Crossings(limit, events, floor) <==>
            signal in Crossings(limit, init, floor)
            || (&& Between(signal, Sum(events), limit) && !Between(signal, Sum(init), limit) && Before(floor, signal)
                && (signal in {Signal.Notice50, Signal.Warn80} ==> limit >= 5_000_000)))
  {
    var init := events[..|events| - 1];
    StagesInMoney(limit, init);
    StagesInMoney(limit, events);
    assert Sum(init) <= Sum(events);
    assert Apply(Replayed(limit, init).value, events[|events| - 1]).value.0 == Replayed(limit, events).value;
    hide Sum, BasisPoints, Replayed;
  }

  // ── What is served and stored ──

  /** Every view served says what was spent, and stands where that stands. */
  lemma ServedViewTells(steps: seq<Step>, step: Step, c: nat)
    requires c in Do(Run(steps), step).calls && Do(Run(steps), step).calls[c].Served?
    requires c in Run(steps).calls ==> !Run(steps).calls[c].Served?
    ensures var call := Do(Run(steps), step).calls[c];
      && call.begun.since <= call.seen <= |Run(steps).tables.ledger|
      && Tells(call.view, Spent(Run(steps).tables.ledger[..call.seen], call.begun.budget))
  {
    hide Run, Do, ReadLedger, Replayed, Sum, Tells;
    ServedViewIsAReplay(steps, step, c);
    var call := Do(Run(steps), step).calls[c];
    var seen := Run(steps).tables.ledger[..call.seen];
    ReadLedgerIsComplete(seen, call.begun.budget);
    StagesInMoney(call.view.limit, ReadLedger(seen, call.begun.budget));
  }

  /** A view is answered from the cache, writing nothing, exactly while the watermark covers the
      ledger. */
  lemma CoveredViewsAreServed(steps: seq<Step>, c: nat)
    requires c in Run(steps).calls && Run(steps).calls[c].Viewing?
    requires Run(steps).calls[c].begun.budget in Run(steps).tables.budgets
    ensures var s, after := Run(steps), Do(Run(steps), Load(c));
      var budget := s.calls[c].begun.budget;
      && after.tables == s.tables
      && if Covered(s.tables, budget) then after.calls[c].Served? && Tells(after.calls[c].view, Spent(s.tables.ledger, budget))
         else after.calls[c].Loaded? && after.calls[c].row == s.tables.budgets[budget]
  {
    hide Run, ReadLedger, Replayed, Sum, Tells, Spent;
    var s := Run(steps);
    var budget := s.calls[c].begun.budget;
    LimitsArePositive(steps, budget);
    if Covered(s.tables, budget) {
      ServedViewTells(steps, Load(c), c);
      assert s.tables.ledger[..|s.tables.ledger|] == s.tables.ledger;
    }
  }

  lemma LimitsArePositive(steps: seq<Step>, budget: nat)
    requires budget in Run(steps).tables.budgets
    ensures Run(steps).tables.budgets[budget].limit > 0
  {
    hide Run;
    RunKeepsInv(steps);
    assert RowInv(Run(steps).tables.budgets[budget], Run(steps).tables.ledger, budget);
  }

  /** So does every view a fold answers with, over the tables, and the row it leaves. */
  lemma FoldTells(t: Tables, budget: nat, view: View, from: nat)
    requires FoldedSince(t, budget, view, from)
    ensures exists seen :: from <= seen <= |t.ledger| && Tells(view, Spent(t.ledger[..seen], budget))
    ensures budget in t.budgets && t.budgets[budget].limit == view.limit
    ensures t.budgets[budget].spent == view.spent && t.budgets[budget].stage == view.stage
  {
    hide ReadLedger, Replayed, Sum, Tells;
    var seen :| from <= seen <= |t.ledger| && FoldedTo(t, budget, view, seen);
    ReadLedgerIsComplete(t.ledger[..seen], budget);
    StagesInMoney(view.limit, ReadLedger(t.ledger[..seen], budget));
  }

  /** And every certified cache. */
  lemma CertifiedCacheTells(steps: seq<Step>, budget: nat)
    requires budget in Run(steps).tables.budgets
    requires Run(steps).tables.budgets[budget].folded == Count(Run(steps).tables.ledger, budget)
    ensures var t := Run(steps).tables; var row := t.budgets[budget];
      row.spent == Spent(t.ledger, budget) && StandsAt(row.stage, row.spent, row.limit)
  {
    hide Run, ReadLedger, Replayed, Sum, StandsAt;
    CertifiedCacheIsTheReplay(steps, budget);
    var t := Run(steps).tables;
    ReadLedgerIsComplete(t.ledger, budget);
    StagesInMoney(t.budgets[budget].limit, ReadLedger(t.ledger, budget));
  }

  /** What the budget's row last cached spends some prefix of the ledger up to the signal's
      threshold. */
  ghost predicate CrossedWhenFolded(t: Tables, budget: nat, signal: Signal)
  {
    && budget in t.budgets && t.budgets[budget].limit > 0
    && Crossed(signal, t.budgets[budget].spent, t.budgets[budget].limit)
    && exists m: nat :: m <= |t.ledger| && t.budgets[budget].spent == Spent(t.ledger[..m], budget)
  }

  lemma WinnerCaches(steps: seq<Step>, budget: nat)
    requires steps != [] && Wins(Run(steps[..|steps| - 1]), steps[|steps| - 1], budget)
    ensures budget in Run(steps).tables.budgets && Run(steps).tables.budgets[budget].folded >= 0
  {
    WinningRow(Run(steps[..|steps| - 1]), steps[|steps| - 1].call, budget);
  }

  lemma WinningRow(s: System, c: nat, budget: nat)
    requires Wins(s, Commit(c), budget)
    ensures budget in Do(s, Commit(c)).tables.budgets && Do(s, Commit(c)).tables.budgets[budget].folded >= 0
  {
    hide ExecBatch, WriteBack, Crossings, Replayed, OutboxAfterFold;
    WonFold(s.tables, budget, s.calls[c].row, s.calls[c].events);
  }

  lemma CachedStands(t: Tables, budget: nat, row: SignalRow)
    requires budget in t.budgets && RowInv(t.budgets[budget], t.ledger, budget) && t.budgets[budget].folded >= 0
    requires row.budget == budget && SignalOrdinal(row.signal) <= StageOrdinal(t.budgets[budget].stage)
    ensures CrossedWhenFolded(t, budget, row.signal)
  {
    hide Spent, Count, BasisPoints, StageForBasisPoints;
    var b := t.budgets[budget];
    var n: nat :| CacheOf(b, t.ledger, budget, n);
    StageInMoney(b.spent, b.limit);
  }

  ghost predicate HasLike(outbox: seq<SignalRow>, row: SignalRow)
  {
    exists held :: held in outbox && held.budget == row.budget && held.signal == row.signal
  }

  lemma OnlyWinnersAnnounce(s: System, step: Step, row: SignalRow)
    requires !Wins(s, step, row.budget) && row in Do(s, step).tables.outbox
    ensures HasLike(s.tables.outbox, row)
  {
    hide ExecBatch, WriteBack, Crossings, Replayed, Sum, ReadLedger, InsertRows;
    if step.MarkDelivered? {
      var i: nat :| i < |s.tables.outbox| && Delivered(s.tables.outbox, step.id)[i] == row;
      assert s.tables.outbox[i] in s.tables.outbox;
    } else if step.Commit? {
      CommitAnnounces(s, step.call, row);
    } else {
      assert row in s.tables.outbox;
    }
  }

  lemma CommitAnnounces(s: System, c: nat, row: SignalRow)
    requires !Wins(s, Commit(c), row.budget) && row in Do(s, Commit(c)).tables.outbox
    ensures HasLike(s.tables.outbox, row)
  {
    hide ExecBatch, WriteBack, Crossings, Replayed, Sum;
    if row !in s.tables.outbox {
      var call, t := s.calls[c], s.tables;
      if Matches(t, call.begun.budget, call.row.limit) {
        WonFold(t, call.begun.budget, call.row, call.events);
      } else {
        LostFold(t, call.begun.budget, call.row, call.events);
      }
    }
  }

  /** In every run, a stored signal was crossed when its budget was last folded: a stored pause
      means that what that fold read spends the limit it read. */
  lemma {:induction false} StoredSignalsWereCrossed(steps: seq<Step>, row: SignalRow)
    requires row in Run(steps).tables.outbox
    ensures LastFold(steps, row.budget).Some?
    ensures CrossedWhenFolded(Run(steps[..LastFold(steps, row.budget).value + 1]).tables, row.budget, row.signal)
  {
    hide Do, Wins, CrossedWhenFolded, RowInv;
    if steps == [] {
      NoSignals();
    } else {
      var n := |steps| - 1;
      if Wins(Run(steps[..n]), steps[n], row.budget) {
        assert steps[..n + 1] == steps;
        RunKeepsInv(steps);
        NoSignalAboveTheStage(steps, row);
        WinnerCaches(steps, row.budget);
        CachedStands(Run(steps).tables, row.budget, row);
      } else {
        OnlyWinnersAnnounce(Run(steps[..n]), steps[n], row);
        var held :| held in Run(steps[..n]).tables.outbox && held.budget == row.budget && held.signal == row.signal;
        StoredSignalsWereCrossed(steps[..n], held);
        var m := LastFold(steps[..n], row.budget).value;
        assert steps[..n][..m + 1] == steps[..m + 1];
      }
    }
  }

  lemma NoSignals()
    ensures Run([]).tables.outbox == []
  {
  }

  // ── Whose signals they are ──

  predicate NamesItsSession(t: Tables, row: SignalRow)
  {
    row.budget in t.budgets && row.session == t.budgets[row.budget].session
  }

  predicate HoldsItsRow(t: Tables, call: Call)
  {
    Folding(call) ==> call.begun.budget in t.budgets && call.row.session == t.budgets[call.begun.budget].session
  }

  ghost predicate Addressed(s: System)
  {
    && (forall row :: row in s.tables.outbox ==> NamesItsSession(s.tables, row))
    && (forall c :: c in s.calls ==> HoldsItsRow(s.tables, s.calls[c]))
  }

  lemma CommitKeepsAddressed(s: System, c: nat)
    requires Addressed(s)
    ensures Addressed(Do(s, Commit(c)))
  {
    hide ExecBatch, WriteBack, Crossings, Replayed, Sum, Announced, Pruned;
    var after := Do(s, Commit(c));
    if after != s {
      var call := s.calls[c];
      assert HoldsItsRow(s.tables, call);
      WriteBackIsAllOrNothing(s.tables, call.begun.budget, call.row, call.events);
      AnnouncedAdds(s.tables, call.begun.budget, call.row.session, Crossings(call.row.limit, call.events, call.row.stage));
      AnnouncementsRun(s.tables, call.begun.budget, call.row, Crossings(call.row.limit, call.events, call.row.stage));
      forall d | d in after.calls ensures HoldsItsRow(after.tables, after.calls[d]) {
        if d != c { assert HoldsItsRow(s.tables, s.calls[d]); }
      }
    }
  }

  lemma StepKeepsAddressed(s: System, step: Step)
    requires Addressed(s)
    ensures Addressed(Do(s, step))
  {
    hide ExecBatch, WriteBack, Crossings, Replayed, Sum, ReadLedger, InsertRows;
    var after := Do(s, step);
    if step.Commit? {
      CommitKeepsAddressed(s, step.call);
    } else {
      forall row | row in after.tables.outbox ensures NamesItsSession(after.tables, row) {
        if step.MarkDelivered? {
          var i: nat :| i < |s.tables.outbox| && Delivered(s.tables.outbox, step.id)[i] == row;
          assert s.tables.outbox[i] in s.tables.outbox;
          assert NamesItsSession(s.tables, s.tables.outbox[i]);
        } else {
          assert NamesItsSession(s.tables, row);
        }
      }
      forall c | c in after.calls ensures HoldsItsRow(after.tables, after.calls[c]) {
        if c in s.calls { assert HoldsItsRow(s.tables, s.calls[c]); }
      }
    }
  }

  /** Every signal is for the session of its budget. */
  lemma {:induction false} SignalsNameTheirSession(steps: seq<Step>)
    ensures Addressed(Run(steps))
  {
    hide Do, Addressed;
    if steps == [] {
      NobodyYet();
    } else {
      SignalsNameTheirSession(steps[..|steps| - 1]);
      StepKeepsAddressed(Run(steps[..|steps| - 1]), steps[|steps| - 1]);
    }
  }

  lemma NobodyYet()
    ensures Addressed(Run([]))
  {
  }
}
