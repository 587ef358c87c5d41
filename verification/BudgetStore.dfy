/** The functions of crates/api/src/budgets.rs over mutable tables.

    Other requests commit between this one's statements. What they will commit at each
    await to come is `arriving`, one group per await; nothing is assumed about it. */
module BudgetStore {
  import opened Prelude
  import opened BudgetEngine
  import opened BudgetTables
  import opened BudgetRuns

  /** Something another request commits. */
  datatype Write =
    | Rows(rows: seq<SpendRow>)
    | Limit(budget: nat, limit: nat)
    | Batch(statements: seq<Statement>)
    | Delivery(id: nat)

  function Write1(t: Tables, write: Write): Tables
  {
    match write
    case Rows(rows) => t.(ledger := InsertRows(t.ledger, rows))
    case Limit(b, limit) => Relimited(t, b, limit)
    case Batch(statements) => ExecBatch(t, statements)
    case Delivery(id) => t.(outbox := Delivered(t.outbox, id))
  }

  function Writes(t: Tables, group: seq<Write>): Tables
  {
    if group == [] then t else Write1(Writes(t, group[..|group| - 1]), group[|group| - 1])
  }

  /** How many of a group's writes set this budget's limit. */
  function LimitWrites(group: seq<Write>, budget: nat): nat
  {
    if group == [] then 0
    else
      var last := group[|group| - 1];
      LimitWrites(group[..|group| - 1], budget) + if last.Limit? && last.budget == budget then 1 else 0
  }

  function LimitWritesIn(groups: seq<seq<Write>>, budget: nat): nat
  {
    if groups == [] then 0 else LimitWrites(groups[0], budget) + LimitWritesIn(groups[1..], budget)
  }

  lemma {:induction false} BatchKeeps(t: Tables, statements: seq<Statement>)
    ensures var after := ExecBatch(t, statements);
      && after.ledger == t.ledger
      && after.budgets.Keys == t.budgets.Keys
      && (forall b :: b in t.budgets ==> after.budgets[b].limit == t.budgets[b].limit)
  {
    if statements != [] {
      BatchKeeps(t, statements[..|statements| - 1]);
    }
  }

  /** Other requests only append to the ledger, never remove a budget, and move its limit
      only by a write that sets it. */
  lemma {:induction false} WritesKeep(t: Tables, group: seq<Write>, budget: nat)
    ensures t.ledger <= Writes(t, group).ledger
    ensures budget in t.budgets <==> budget in Writes(t, group).budgets
    ensures budget in t.budgets && LimitWrites(group, budget) == 0 ==>
      Writes(t, group).budgets[budget].limit == t.budgets[budget].limit
  {
    if group != [] {
      var n := |group| - 1;
      WritesKeep(t, group[..n], budget);
      if group[n].Batch? {
        BatchKeeps(Writes(t, group[..n]), group[n].statements);
      }
    }
  }

  /** Nobody sets a limit of zero: `set_limit` refuses to. */
  predicate Positive(groups: seq<seq<Write>>)
  {
    forall group :: group in groups ==> PositiveGroup(group)
  }

  predicate PositiveGroup(group: seq<Write>)
  {
    forall write :: write in group && write.Limit? ==> write.limit > 0
  }

  predicate Limited(t: Tables, budget: nat)
  {
    budget in t.budgets && t.budgets[budget].limit > 0
  }

  /** More spend than any limit's ratio in basis points can be told in `u64`. */
  predicate Overflows(ledger: seq<SpendRow>, budget: nat)
  {
    Spent(ledger, budget) * 10_000 > U64_MAX
  }

  lemma {:induction false} WritesKeepLimited(t: Tables, group: seq<Write>, budget: nat)
    requires Limited(t, budget) && PositiveGroup(group)
    ensures Limited(Writes(t, group), budget)
  {
    if group != [] {
      var n := |group| - 1;
      WritesKeepLimited(t, group[..n], budget);
      if group[n].Batch? {
        BatchKeeps(Writes(t, group[..n]), group[n].statements);
      }
    }
  }

  /** A replay of part of the ledger panics only when all of it is past counting. */
  lemma PanicsOnlyPastCounting(ledger: seq<SpendRow>, n: nat, budget: nat, limit: nat)
    requires n <= |ledger| && limit > 0 && Replayed(limit, ReadLedger(ledger[..n], budget)).None?
    ensures Overflows(ledger, budget)
  {
    var total := Spent(ledger[..n], budget);
    ReadLedgerIsComplete(ledger[..n], budget);
    ReplayIsTheTotal(limit, ReadLedger(ledger[..n], budget));
    SpentGrows(ledger, n, budget);
    assert total * 10_000 / limit <= total * 10_000 by { DivByPositive(total * 10_000, limit); }
  }

  lemma DivByPositive(a: nat, d: nat)
    requires d > 0
    ensures a / d <= a
  {
    DivMonotoneBy(a / d, a % d, a, 0, d) by {
      MulMonotone(1, d, a);
    }
  }

  lemma {:induction false} SpentGrows(ledger: seq<SpendRow>, n: nat, budget: nat)
    requires n <= |ledger|
    ensures Spent(ledger[..n], budget) <= Spent(ledger, budget)
    decreases |ledger| - n
  {
    if n == |ledger| {
      assert ledger[..n] == ledger;
    } else {
      SpentGrows(ledger, n + 1, budget);
      assert ledger[..n + 1][..n] == ledger[..n];
    }
  }

  /** What one turn of a fold came to. */
  datatype Turn = Won(view: View) | Lost | Panicked

  /** 0 while a row's limit is the budget's, 1 once it is stale. */
  function Turns(t: Tables, budget: nat, row: BudgetRow): nat
  {
    if Matches(t, budget, row.limit) then 0 else 1
  }

  /** The watermark covers the ledger. */
  predicate Covered(t: Tables, budget: nat)
  {
    Limited(t, budget) && t.budgets[budget].folded == Count(t.ledger, budget)
  }

  /** A fold of one budget leaves the ledger, the other budgets and their signals alone, and that
      budget's session and limit. */
  ghost predicate Spares(t: Tables, after: Tables, budget: nat)
  {
    && after.ledger == t.ledger && after.budgets.Keys == t.budgets.Keys
    && (forall b :: b in t.budgets ==>
         if b == budget then after.budgets[b].limit == t.budgets[b].limit && after.budgets[b].session == t.budgets[b].session
         else after.budgets[b] == t.budgets[b])
    && forall row: SignalRow :: row.budget != budget ==> (row in after.outbox <==> row in t.outbox)
  }

  lemma SparesItself(t: Tables, budget: nat)
    ensures Spares(t, t, budget)
  {
  }

  lemma SparesTwice(t: Tables, mid: Tables, after: Tables, budget: nat)
    requires Spares(t, mid, budget) && Spares(mid, after, budget)
    ensures Spares(t, after, budget)
  {
  }

  lemma FoldSpares(t: Tables, after: Tables, budget: nat, reached: Stage, announced: seq<Signal>)
    requires OutboxAfterFold(t, after, budget, reached, announced) && budget in t.budgets && budget in after.budgets
    requires after.ledger == t.ledger
    requires after.budgets == t.budgets[budget := after.budgets[budget]]
    requires after.budgets[budget].limit == t.budgets[budget].limit && after.budgets[budget].session == t.budgets[budget].session
    ensures Spares(t, after, budget)
  {
  }

  class Store {
    var budgets: map<nat, BudgetRow>
    var ledger: seq<SpendRow>
    var outbox: seq<SignalRow>
    var nextSignal: nat
    var arriving: seq<seq<Write>>
    /** The budgets `reconcile` was called for, in order. */
    var reconciled: seq<nat>

    function Value(): Tables
      reads this
    {
      Tables(budgets, ledger, outbox, nextSignal)
    }

    constructor (concurrent: seq<seq<Write>>)
      ensures Value() == Initial().tables && arriving == concurrent && reconciled == []
    {
      budgets, ledger, outbox, nextSignal := map[], [], [], 0;
      arriving, reconciled := concurrent, [];
    }

    /** A suspension point: the next group of writes lands. */
    method Await()
      modifies this
      ensures reconciled == old(reconciled)
      ensures arriving == if old(arriving) == [] then [] else old(arriving)[1..]
      ensures Value() == if old(arriving) == [] then old(Value()) else Writes(old(Value()), old(arriving)[0])
    {
      if arriving != [] {
        var t := Writes(Value(), arriving[0]);
        budgets, ledger, outbox, nextSignal := t.budgets, t.ledger, t.outbox, t.nextSignal;
        arriving := arriving[1..];
      }
    }

    /** What a fold may count on across an await. */
    method AwaitFor(budget: nat)
      modifies this
      ensures reconciled == old(reconciled)
      ensures old(ledger) <= ledger
      ensures LimitWritesIn(arriving, budget) <= LimitWritesIn(old(arriving), budget)
      ensures budget in old(budgets) <==> budget in budgets
      ensures budget in budgets && LimitWritesIn(arriving, budget) == LimitWritesIn(old(arriving), budget)
        ==> budgets[budget].limit == old(budgets)[budget].limit
      ensures Positive(old(arriving)) ==> Positive(arriving)
      ensures Positive(old(arriving)) && Limited(old(Value()), budget) ==> Limited(Value(), budget)
      ensures old(arriving) == [] ==> arriving == [] && Value() == old(Value())
    {
      if arriving != [] {
        WritesKeep(Value(), arriving[0], budget);
        if Limited(Value(), budget) && PositiveGroup(arriving[0]) {
          WritesKeepLimited(Value(), arriving[0], budget);
        }
      }
      Await();
    }

    /** `load`: the row and the ledger's length in one statement. */
    method Load(budget: nat) returns (row: Option<BudgetRow>, events: nat)
      ensures row == if budget in budgets then Some(budgets[budget]) else None
      ensures events == Count(ledger, budget)
    {
      row := if budget in budgets then Some(budgets[budget]) else None;
      events := Count(ledger, budget);
    }

    /** One guarded statement of a fold's batch. */
    method Execute(statement: Statement) returns (matched: bool)
      modifies this
      ensures Value() == Exec(old(Value()), statement) && arriving == old(arriving) && reconciled == old(reconciled)
      ensures matched == Matches(old(Value()), statement.budget, statement.limit)
    {
      matched := statement.budget in budgets && budgets[statement.budget].limit == statement.limit;
      if !matched { return; }
      match statement {
        case InsertSignal(b, session, signal, _) =>
          if !(exists row <- outbox :: row.budget == b && row.signal == signal) {
            outbox := outbox + [SignalRow(nextSignal, b, session, signal, false)];
            nextSignal := nextSignal + 1;
          }
        case PruneSignals(b, ordinal, _) =>
          outbox := Pruned(outbox, b, ordinal);
        case RefreshBudget(b, spent, stage, folded, _) =>
          budgets := budgets[b := budgets[b].(spent := spent, stage := stage, folded := folded)];
      }
    }

    /** `execute_batch`: every statement in order, as one; answers whether the last one
        matched a row. */
    method ExecuteBatch(statements: seq<Statement>) returns (matched: bool)
      modifies this
      ensures Value() == ExecBatch(old(Value()), statements) && arriving == old(arriving) && reconciled == old(reconciled)
      ensures matched == (statements != []
        && var n := |statements| - 1;
           Matches(ExecBatch(old(Value()), statements[..n]), statements[n].budget, statements[n].limit))
    {
      matched := false;
      for i := 0 to |statements|
        invariant Value() == ExecBatch(old(Value()), statements[..i]) && arriving == old(arriving) && reconciled == old(reconciled)
        invariant matched == (i > 0
          && Matches(ExecBatch(old(Value()), statements[..i - 1]), statements[i - 1].budget, statements[i - 1].limit))
      {
        assert statements[..i + 1][..i] == statements[..i];
        matched := Execute(statements[i]);
      }
      assert statements[..|statements|] == statements;
    }

    /** `replay`: runs the ledger through the engine and builds the batch that records it. */
    method Replay(budget: nat, row: BudgetRow) returns (state: Option<State>, statements: seq<Statement>)
      ensures var events := ReadLedger(ledger, budget);
        state == if row.limit > 0 then Replayed(row.limit, events) else None
      ensures state.Some? ==> statements == WriteBack(budget, row, ReadLedger(ledger, budget))
    {
      hide ReadLedger, Sum, BasisPoints, StageForBasisPoints, SignalForStage;
      statements := [];
      if row.limit == 0 { return None, []; }
      var events := ReadLedger(ledger, budget);
      var at := State(row.limit, 0, Stage.Ok);
      for i := 0 to |events|
        invariant Replayed(row.limit, events[..i]) == Some(at)
        invariant statements == Announcements(budget, row, Crossings(row.limit, events[..i], row.stage))
      {
        assert events[..i + 1][..i] == events[..i];
        var step := Apply(at, events[i]);
        if step.None? {
          PanicSticks(row.limit, events, i + 1);
          return None, [];
        }
        var (next, signal) := step.value;
        if StageOrdinal(next.stage) > StageOrdinal(row.stage) && signal.Some? {
          var crossed := Crossings(row.limit, events[..i], row.stage);
          assert (crossed + [signal.value])[..|crossed|] == crossed;
          statements := statements + [InsertSignal(budget, row.session, signal.value, row.limit)];
        }
        at := next;
      }
      assert events[..|events|] == events;
      statements := statements
        + [PruneSignals(budget, StageOrdinal(at.stage), row.limit)]
        + [RefreshBudget(budget, at.spent, at.stage, |events|, row.limit)];
      state := Some(at);
    }

    /** One turn of `fold`'s loop: replay, then try to write back. It loses only when the
        limit is no longer the one it replayed under, and then writes nothing. */
    method Attempt(budget: nat, row: BudgetRow) returns (turn: Turn)
      modifies this
      ensures old(ledger) <= ledger && reconciled == old(reconciled)
      ensures LimitWritesIn(arriving, budget) <= LimitWritesIn(old(arriving), budget)
      ensures budget in old(budgets) <==> budget in budgets
      ensures budget in budgets && LimitWritesIn(arriving, budget) == LimitWritesIn(old(arriving), budget)
        ==> budgets[budget].limit == old(budgets)[budget].limit
      ensures Positive(old(arriving)) ==> Positive(arriving)
      ensures Positive(old(arriving)) && Limited(old(Value()), budget) ==> Limited(Value(), budget)
      ensures turn.Panicked? && row.limit > 0 ==> Overflows(ledger, budget)
      ensures turn.Won? ==> FoldedSince(Value(), budget, turn.view, |old(ledger)|)
      ensures turn.Lost? ==> !Matches(Value(), budget, row.limit)
      ensures turn.Lost? && Matches(old(Value()), budget, row.limit)
        ==> LimitWritesIn(arriving, budget) < LimitWritesIn(old(arriving), budget)
      ensures old(arriving) == [] ==> arriving == [] && Spares(old(Value()), Value(), budget)
    {
      hide ExecBatch, WriteBack, Replayed, Crossings, ReadLedger, Sum, Count, LimitWritesIn, Positive, Overflows;
      AwaitFor(budget);
      var state, statements := Replay(budget, row);
      if state.None? {
        assert ledger[..|ledger|] == ledger;
        if row.limit > 0 { PanicsOnlyPastCounting(ledger, |ledger|, budget, row.limit); }
        return Panicked;
      }
      ghost var read := ledger;
      AwaitFor(budget);
      ghost var before := Value();
      assert ledger[..|read|] == read;
      ReadLedgerIsComplete(read, budget);
      WriteBackLast(before, budget, row, ReadLedger(read, budget));
      BatchKeeps(before, statements);
      var refreshed := ExecuteBatch(statements);
      if refreshed {
        WonFold(before, budget, row, ReadLedger(read, budget));
        FoldSpares(before, Value(), budget, state.value.stage, Crossings(row.limit, ReadLedger(read, budget), row.stage));
        assert FoldedTo(Value(), budget, ViewOf(state.value), |read|);
        return Won(ViewOf(state.value));
      }
      LostFold(before, budget, row, ReadLedger(read, budget));
      turn := Lost;
    }

    /** `fold`: replays and writes back until a write-back lands under the limit it
        replayed. The view is the replay of a ledger no shorter than the one there at the
        call, under the limit in force, and the row now caches exactly that replay; every
        attempt but the first answers for a change of limit since the row was loaded. */
    method Fold(budget: nat, start: BudgetRow) returns (view: Option<View>, attempts: nat)
      modifies this
      ensures old(ledger) <= ledger && reconciled == old(reconciled)
      ensures LimitWritesIn(arriving, budget) <= LimitWritesIn(old(arriving), budget)
      ensures budget in old(budgets) <==> budget in budgets
      ensures budget in budgets && LimitWritesIn(arriving, budget) == LimitWritesIn(old(arriving), budget)
        ==> budgets[budget].limit == old(budgets)[budget].limit
      ensures Positive(old(arriving)) ==> Positive(arriving)
      ensures Positive(old(arriving)) && Limited(old(Value()), budget) ==> Limited(Value(), budget)
      ensures Positive(old(arriving)) && Limited(old(Value()), budget) && start.limit > 0 && view.None?
        ==> Overflows(ledger, budget)
      ensures attempts + LimitWritesIn(arriving, budget)
           <= Turns(old(Value()), budget, start) + 1 + LimitWritesIn(old(arriving), budget)
      ensures view.Some? ==> FoldedSince(Value(), budget, view.value, |old(ledger)|)
      ensures old(arriving) == [] ==> arriving == [] && Spares(old(Value()), Value(), budget)
    {
      hide LimitWritesIn, FoldedTo, FoldedSince, Positive, Overflows, Spares;
      SparesItself(Value(), budget);
      var row := start;
      attempts := 0;
      while true
        invariant old(ledger) <= ledger && reconciled == old(reconciled)
        invariant LimitWritesIn(arriving, budget) <= LimitWritesIn(old(arriving), budget)
        invariant budget in old(budgets) <==> budget in budgets
        invariant budget in budgets && LimitWritesIn(arriving, budget) == LimitWritesIn(old(arriving), budget)
          ==> budgets[budget].limit == old(budgets)[budget].limit
        invariant Positive(old(arriving)) ==> Positive(arriving)
        invariant Positive(old(arriving)) && Limited(old(Value()), budget) ==> Limited(Value(), budget)
        invariant Positive(old(arriving)) && Limited(old(Value()), budget) && start.limit > 0 ==> row.limit > 0
        invariant old(arriving) == [] ==> arriving == [] && Spares(old(Value()), Value(), budget)
        invariant attempts + LimitWritesIn(arriving, budget) + Turns(Value(), budget, row)
          <= Turns(old(Value()), budget, start) + LimitWritesIn(old(arriving), budget)
        decreases LimitWritesIn(arriving, budget), Turns(Value(), budget, row)
      {
        label turning:
        attempts := attempts + 1;
        ghost var before := Value();
        var turn := Attempt(budget, row);
        if old(arriving) == [] { SparesTwice(old(Value()), before, Value(), budget); }
        if turn.Won? {
          SinceEarlier(Value(), budget, turn.view, |old@turning(ledger)|, |old(ledger)|);
          return Some(turn.view), attempts;
        }
        if turn.Panicked? { return None, attempts; }
        AwaitFor(budget);
        var again, events := Load(budget);
        if again.None? { return None, attempts; }
        row := again.value;
      }
    }

    /** `reconcile`. */
    method Reconcile(budget: nat) returns (view: Option<View>)
      modifies this
      ensures old(ledger) <= ledger && reconciled == old(reconciled) + [budget]
      ensures LimitWritesIn(arriving, budget) <= LimitWritesIn(old(arriving), budget)
      ensures budget in old(budgets) <==> budget in budgets
      ensures budget in budgets && LimitWritesIn(arriving, budget) == LimitWritesIn(old(arriving), budget)
        ==> budgets[budget].limit == old(budgets)[budget].limit
      ensures Positive(old(arriving)) ==> Positive(arriving)
      ensures Positive(old(arriving)) && Limited(old(Value()), budget) ==> Limited(Value(), budget)
      ensures Positive(old(arriving)) && Limited(old(Value()), budget) && view.None? ==> Overflows(ledger, budget)
      ensures view.Some? ==> FoldedSince(Value(), budget, view.value, |old(ledger)|)
      ensures old(arriving) == [] ==> arriving == [] && Spares(old(Value()), Value(), budget)
    {
      hide LimitWritesIn, FoldedSince, Positive, Overflows, Spares;
      SparesItself(Value(), budget);
      reconciled := reconciled + [budget];
      AwaitFor(budget);
      ghost var from := |ledger|;
      var row, _ := Load(budget);
      if row.None? { return None; }
      var attempts;
      view, attempts := Fold(budget, row.value);
      if view.Some? { SinceEarlier(Value(), budget, view.value, from, |old(ledger)|); }
    }

    /** `view`: the cache while the ledger has not moved, writing nothing; a fold otherwise. */
    method View(budget: nat) returns (view: Option<View>)
      modifies this
      ensures old(ledger) <= ledger
      ensures var found := Writes(old(Value()), Landing(old(arriving)));
        if Covered(found, budget) then
          && Value() == found && reconciled == old(reconciled)
          && view == Some(ViewOf(State(found.budgets[budget].limit, found.budgets[budget].spent, found.budgets[budget].stage)))
        else
          && (view.Some? ==> FoldedSince(Value(), budget, view.value, |old(ledger)|))
          && (|old(arriving)| <= 1 ==> Spares(found, Value(), budget))
      ensures Positive(old(arriving)) && Limited(old(Value()), budget) && view.None? ==> Overflows(ledger, budget)
    {
      hide FoldedSince, Overflows, Spares;
      SparesItself(Writes(Value(), Landing(arriving)), budget);
      if arriving != [] {
        WritesKeep(Value(), arriving[0], budget);
        if Limited(Value(), budget) && PositiveGroup(arriving[0]) {
          WritesKeepLimited(Value(), arriving[0], budget);
        }
      }
      Await();
      ghost var from := |ledger|;
      var row, events := Load(budget);
      if row.None? || row.value.limit == 0 { return None; }
      if row.value.folded == events {
        return Some(ViewOf(State(row.value.limit, row.value.spent, row.value.stage)));
      }
      var attempts;
      view, attempts := Fold(budget, row.value);
      if view.Some? { SinceEarlier(Value(), budget, view.value, from, |old(ledger)|); }
    }

    /** `set_limit`'s statement: the limit and the watermark together. */
    method Relimit(budget: nat, limit: nat)
      modifies this
      ensures Value() == Relimited(old(Value()), budget, limit) && arriving == old(arriving) && reconciled == old(reconciled)
    {
      if budget in budgets {
        budgets := budgets[budget := budgets[budget].(limit := limit, folded := UNFOLDED)];
      }
    }

    /** `set_limit`: refuses zero; otherwise sets the limit and folds under it, and the limit
        stands unless another request sets one. */
    method SetLimit(budget: nat, limit: nat) returns (view: Option<View>)
      modifies this
      ensures limit == 0 ==> view.None? && Value() == old(Value())
      ensures view.Some? ==> FoldedSince(Value(), budget, view.value, |old(ledger)|)
      ensures limit > 0 && budget in old(budgets) && LimitWritesIn(old(arriving), budget) == 0
        ==> budget in budgets && budgets[budget].limit == limit
      ensures limit > 0 && budget in old(budgets) && Positive(old(arriving)) && view.None? ==> Overflows(ledger, budget)
      ensures limit > 0 && old(arriving) == [] ==> Spares(Relimited(old(Value()), budget, limit), Value(), budget)
    {
      hide FoldedSince, Overflows, LimitWritesIn, Positive, Spares;
      if limit == 0 { return None; }
      AwaitFor(budget);
      Relimit(budget, limit);
      ghost var from := |ledger|;
      view := Reconcile(budget);
      if view.Some? { SinceEarlier(Value(), budget, view.value, from, |old(ledger)|); }
    }

    /** `record_at`: one keyed append, then a fold whose replay includes the event. */
    method RecordAt(row: SpendRow) returns (view: Option<View>)
      modifies this
      ensures Recorded(ledger, row) && old(ledger) <= ledger
      ensures view.Some? ==> exists from: nat :: FoldedWith(Value(), row, view.value, from)
      ensures Positive(old(arriving)) && Limited(old(Value()), row.budget) && view.None? ==> Overflows(ledger, row.budget)
      ensures old(arriving) == [] ==>
        Spares(old(Value()).(ledger := InsertRow(old(ledger), row)), Value(), row.budget)
    {
      hide FoldedSince, Overflows, LimitWritesIn, Positive, Spares;
      AwaitFor(row.budget);
      var known := row.key.Some? && row.key.value in Keys(ledger);
      if !known {
        ledger := ledger + [row];
      }
      label appended:
      view := Reconcile(row.budget);
      ghost var before := old@appended(ledger);
      assert Recorded(before, row) by {
        assert !known ==> before[|before| - 1] == row;
      }
      KeysGrow(before, ledger);
      assert ledger[..|before|] == before;
      assert view.Some? ==> FoldedWith(Value(), row, view.value, |before|);
    }
  }

  /** The event is on the ledger, or one under its key was there first. */
  predicate Recorded(ledger: seq<SpendRow>, row: SpendRow)
  {
    row in ledger || (row.key.Some? && row.key.value in Keys(ledger))
  }

  /** The view folds a ledger at least `from` rows long, the event among those. */
  ghost predicate FoldedWith(t: Tables, row: SpendRow, view: View, from: nat)
  {
    from <= |t.ledger| && Recorded(t.ledger[..from], row) && FoldedSince(t, row.budget, view, from)
  }

  /** The view is the replay of the first `seen` rows under the budget's present limit, and
      the budget's row caches exactly that replay. */
  ghost predicate FoldedTo(t: Tables, budget: nat, view: View, seen: nat)
  {
    && seen <= |t.ledger|
    && budget in t.budgets
    && var row, events := t.budgets[budget], ReadLedger(t.ledger[..seen], budget);
       && row.limit == view.limit > 0
       && Replayed(view.limit, events) == Some(State(row.limit, row.spent, row.stage))
       && row.folded == |events|
       && view == ViewOf(State(row.limit, row.spent, row.stage))
  }

  /** The same for some ledger at least `from` rows long. */
  ghost predicate FoldedSince(t: Tables, budget: nat, view: View, from: nat)
  {
    exists seen :: from <= seen <= |t.ledger| && FoldedTo(t, budget, view, seen)
  }

  lemma SinceEarlier(t: Tables, budget: nat, view: View, later: nat, earlier: nat)
    requires FoldedSince(t, budget, view, later) && earlier <= later
    ensures FoldedSince(t, budget, view, earlier)
  {
    var seen :| later <= seen <= |t.ledger| && FoldedTo(t, budget, view, seen);
  }

  lemma {:induction false} PanicSticks(limit: nat, events: seq<nat>, n: nat)
    requires limit > 0 && n <= |events| && Replayed(limit, events[..n]).None?
    ensures Replayed(limit, events).None?
    decreases |events| - n
  {
    if n == |events| {
      assert events[..n] == events;
    } else {
      assert events[..n + 1][..n] == events[..n];
      PanicSticks(limit, events, n + 1);
    }
  }

  /** The batch's last statement matches exactly when the whole batch does. */
  lemma WriteBackLast(t: Tables, budget: nat, row: BudgetRow, events: seq<nat>)
    requires row.limit > 0 && Replayed(row.limit, events).Some?
    ensures var statements := WriteBack(budget, row, events);
      && statements != []
      && var last := statements[|statements| - 1];
         && last.budget == budget && last.limit == row.limit
         && Matches(ExecBatch(t, statements[..|statements| - 1]), budget, row.limit)
           == Matches(t, budget, row.limit)
  {
    var statements := WriteBack(budget, row, events);
    BatchKeeps(t, statements[..|statements| - 1]);
  }

  lemma KeysGrow(before: seq<SpendRow>, after: seq<SpendRow>)
    requires before <= after
    ensures Keys(before) <= Keys(after)
  {
    forall key | key in Keys(before) ensures key in Keys(after) {
      var i :| 0 <= i < |before| && before[i].key.Some? && before[i].key.value == key;
      assert after[i] == before[i];
    }
  }
}
