/** The three budget tables and the statements crates/api/src/budgets.rs runs on them.

    `budgets` caches a replay of the append-only `spend_events`; `budget_signals` is the
    delivery outbox. Each function below is one SQL statement, or one atomic batch. */
module BudgetTables {
  import opened Prelude
  import opened BudgetEngine

  datatype Kind = Compute | Storage

  /** The unique `meter_key` of a ledger row: a metering window of one machine's compute or
      storage, or the recovery of one machine from one reclamation. */
  datatype SpendKey =
    | Window(machine: nat, kind: Kind, start: nat, end: nat)
    | Recovery(machine: nat, reclaimedAt: nat)

  datatype SpendRow = SpendRow(budget: nat, amount: nat, at: nat, key: Option<SpendKey>)

  datatype BudgetRow = BudgetRow(session: nat, limit: nat, spent: nat, stage: Stage, folded: int)

  datatype SignalRow = SignalRow(id: nat, budget: nat, session: nat, signal: Signal, delivered: bool)

  /** `nextSignal` supplies identifiers nobody has drawn yet. */
  datatype Tables = Tables(
    budgets: map<nat, BudgetRow>,
    ledger: seq<SpendRow>,
    outbox: seq<SignalRow>,
    nextSignal: nat)

  /** Below every real ledger length: "never folded under this limit". */
  const UNFOLDED: int := -1

  // ── The ledger ──

  function EventsOf(ledger: seq<SpendRow>, budget: nat): seq<SpendRow>
  {
    if ledger == [] then []
    else
      var n := |ledger| - 1;
      EventsOf(ledger[..n], budget) + if ledger[n].budget == budget then [ledger[n]] else []
  }

  /** `(SELECT COUNT(*) FROM spend_events WHERE budget_id = …)`. */
  function Count(ledger: seq<SpendRow>, budget: nat): nat
  {
    if ledger == [] then 0
    else
      var n := |ledger| - 1;
      Count(ledger[..n], budget) + if ledger[n].budget == budget then 1 else 0
  }

  /** What one budget has been charged in all. */
  function Spent(ledger: seq<SpendRow>, budget: nat): nat
  {
    if ledger == [] then 0
    else
      var n := |ledger| - 1;
      Spent(ledger[..n], budget) + if ledger[n].budget == budget then ledger[n].amount else 0
  }

  function InsertByTime(rows: seq<SpendRow>, row: SpendRow): seq<SpendRow>
  {
    if rows == [] || rows[|rows| - 1].at <= row.at then rows + [row]
    else InsertByTime(rows[..|rows| - 1], row) + [rows[|rows| - 1]]
  }

  /** `ORDER BY at_unix`, ties in insertion order. */
  function InReadOrder(rows: seq<SpendRow>): seq<SpendRow>
  {
    if rows == [] then [] else InsertByTime(InReadOrder(rows[..|rows| - 1]), rows[|rows| - 1])
  }

  function Amounts(rows: seq<SpendRow>): (r: seq<nat>)
    ensures |r| == |rows|
  {
    if rows == [] then [] else Amounts(rows[..|rows| - 1]) + [rows[|rows| - 1].amount]
  }

  /** `SELECT amount_micros FROM spend_events WHERE budget_id = … ORDER BY at_unix`. */
  function ReadLedger(ledger: seq<SpendRow>, budget: nat): seq<nat>
  {
    Amounts(InReadOrder(EventsOf(ledger, budget)))
  }

  lemma {:induction false} InsertByTimeAdds(rows: seq<SpendRow>, row: SpendRow)
    ensures |InsertByTime(rows, row)| == |rows| + 1
    ensures Sum(Amounts(InsertByTime(rows, row))) == Sum(Amounts(rows)) + row.amount
  {
    if rows == [] || rows[|rows| - 1].at <= row.at {
      assert (rows + [row])[..|rows|] == rows;
    } else {
      var n := |rows| - 1;
      InsertByTimeAdds(rows[..n], row);
      var inserted := InsertByTime(rows[..n], row);
      assert (inserted + [rows[n]])[..|inserted|] == inserted;
    }
  }

  lemma {:induction false} ReadOrderKeepsTheRows(rows: seq<SpendRow>)
    ensures |InReadOrder(rows)| == |rows|
    ensures Sum(Amounts(InReadOrder(rows))) == Sum(Amounts(rows))
  {
    if rows != [] {
      var n := |rows| - 1;
      ReadOrderKeepsTheRows(rows[..n]);
      InsertByTimeAdds(InReadOrder(rows[..n]), rows[n]);
    }
  }

  lemma {:induction false} EventsSumToSpent(ledger: seq<SpendRow>, budget: nat)
    ensures |EventsOf(ledger, budget)| == Count(ledger, budget)
    ensures Sum(Amounts(EventsOf(ledger, budget))) == Spent(ledger, budget)
  {
    if ledger != [] {
      var n := |ledger| - 1;
      EventsSumToSpent(ledger[..n], budget);
      var before := EventsOf(ledger[..n], budget);
      if ledger[n].budget == budget {
        assert (before + [ledger[n]])[..|before|] == before;
      } else {
        assert before + [] == before;
      }
    }
  }

  /** What a fold reads is the whole of the budget's ledger, whatever order it comes in. */
  lemma ReadLedgerIsComplete(ledger: seq<SpendRow>, budget: nat)
    ensures |ReadLedger(ledger, budget)| == Count(ledger, budget)
    ensures Sum(ReadLedger(ledger, budget)) == Spent(ledger, budget)
  {
    EventsSumToSpent(ledger, budget);
    ReadOrderKeepsTheRows(EventsOf(ledger, budget));
  }

  /** The ledger is append-only, so an unmoved count means an unmoved total. */
  lemma {:induction false} UnmovedCountUnmovedTotal(ledger: seq<SpendRow>, n: nat, budget: nat)
    requires n <= |ledger|
    ensures Count(ledger[..n], budget) <= Count(ledger, budget)
    ensures Count(ledger[..n], budget) == Count(ledger, budget)
      ==> Spent(ledger[..n], budget) == Spent(ledger, budget)
    decreases |ledger| - n
  {
    if n == |ledger| {
      assert ledger[..n] == ledger;
    } else {
      UnmovedCountUnmovedTotal(ledger, n + 1, budget);
      assert ledger[..n + 1][..n] == ledger[..n];
    }
  }

  function Keys(ledger: seq<SpendRow>): set<SpendKey>
  {
    set i | 0 <= i < |ledger| && ledger[i].key.Some? :: ledger[i].key.value
  }

  /** `INSERT OR IGNORE INTO spend_events`: a key already on the ledger adds nothing. */
  function InsertRow(ledger: seq<SpendRow>, row: SpendRow): (r: seq<SpendRow>)
    ensures ledger <= r
  {
    if row.key.Some? && row.key.value in Keys(ledger) then ledger else ledger + [row]
  }

  /** A batch of such inserts, run as one. */
  function InsertRows(ledger: seq<SpendRow>, rows: seq<SpendRow>): (r: seq<SpendRow>)
    ensures ledger <= r
  {
    if rows == [] then ledger
    else InsertRow(InsertRows(ledger, rows[..|rows| - 1]), rows[|rows| - 1])
  }

  // ── The outbox ──

  predicate Has(outbox: seq<SignalRow>, budget: nat, signal: Signal)
  {
    exists row :: row in outbox && row.budget == budget && row.signal == signal
  }

  /** `DELETE FROM budget_signals WHERE budget_id = … AND ordinal > …`. */
  function Pruned(outbox: seq<SignalRow>, budget: nat, ordinal: nat): (r: seq<SignalRow>)
    ensures forall row :: row in r <==>
      row in outbox && !(row.budget == budget && SignalOrdinal(row.signal) > ordinal)
  {
    if outbox == [] then []
    else
      var last := outbox[|outbox| - 1];
      Pruned(outbox[..|outbox| - 1], budget, ordinal)
        + if last.budget == budget && SignalOrdinal(last.signal) > ordinal then [] else [last]
  }

  // ── A fold's write-back ──

  /** The statements a fold batches. Each names the limit the replay ran under and writes
      only while that is still the budget's limit. */
  datatype Statement =
    | InsertSignal(budget: nat, session: nat, signal: Signal, limit: nat)
    | PruneSignals(budget: nat, ordinal: nat, limit: nat)
    | RefreshBudget(budget: nat, spent: nat, stage: Stage, folded: nat, limit: nat)

  predicate Matches(t: Tables, budget: nat, limit: nat)
  {
    budget in t.budgets && t.budgets[budget].limit == limit
  }

  function Exec(t: Tables, statement: Statement): Tables
  {
    if !Matches(t, statement.budget, statement.limit) then t
    else
      match statement
      case InsertSignal(b, session, signal, _) =>
        if Has(t.outbox, b, signal) then t
        else t.(outbox := t.outbox + [SignalRow(t.nextSignal, b, session, signal, false)],
                nextSignal := t.nextSignal + 1)
      case PruneSignals(b, ordinal, _) =>
        t.(outbox := Pruned(t.outbox, b, ordinal))
      case RefreshBudget(b, spent, stage, folded, _) =>
        t.(budgets := t.budgets[b := t.budgets[b].(spent := spent, stage := stage, folded := folded)])
  }

  function ExecBatch(t: Tables, statements: seq<Statement>): Tables
  {
    if statements == [] then t
    else Exec(ExecBatch(t, statements[..|statements| - 1]), statements[|statements| - 1])
  }

  /** The batch's announcements, one insert per threshold crossed. */
  function Announcements(budget: nat, row: BudgetRow, signals: seq<Signal>): (r: seq<Statement>)
    ensures |r| == |signals|
  {
    if signals == [] then []
    else
      Announcements(budget, row, signals[..|signals| - 1])
        + [InsertSignal(budget, row.session, signals[|signals| - 1], row.limit)]
  }

  /** The batch `replay` builds from the row it was given and the events it read. */
  function WriteBack(budget: nat, row: BudgetRow, events: seq<nat>): seq<Statement>
    requires row.limit > 0 && Replayed(row.limit, events).Some?
  {
    var state := Replayed(row.limit, events).value;
    Announcements(budget, row, Crossings(row.limit, events, row.stage))
      + [PruneSignals(budget, StageOrdinal(state.stage), row.limit)]
      + [RefreshBudget(budget, state.spent, state.stage, |events|, row.limit)]
  }

  /** The tables after the announcements alone. */
  function Announced(t: Tables, budget: nat, session: nat, signals: seq<Signal>): Tables
  {
    if signals == [] then t
    else
      var before := Announced(t, budget, session, signals[..|signals| - 1]);
      var signal := signals[|signals| - 1];
      if Has(before.outbox, budget, signal) then before
      else
        before.(outbox := before.outbox + [SignalRow(before.nextSignal, budget, session, signal, false)],
                nextSignal := before.nextSignal + 1)
  }

  lemma {:induction false} AnnouncementsRun(t: Tables, budget: nat, row: BudgetRow, signals: seq<Signal>)
    ensures ExecBatch(t, Announcements(budget, row, signals))
         == if Matches(t, budget, row.limit) then Announced(t, budget, row.session, signals) else t
    ensures Announced(t, budget, row.session, signals).budgets == t.budgets
    ensures Announced(t, budget, row.session, signals).ledger == t.ledger
  {
    if signals != [] {
      var n := |signals| - 1;
      AnnouncementsRun(t, budget, row, signals[..n]);
      var statements := Announcements(budget, row, signals);
      assert statements[..n] == Announcements(budget, row, signals[..n]);
    }
  }

  /** A fold's batch writes everything or nothing, decided by whether the limit is still
      the one it replayed under. */
  lemma WriteBackIsAllOrNothing(t: Tables, budget: nat, row: BudgetRow, events: seq<nat>)
    requires row.limit > 0 && Replayed(row.limit, events).Some?
    ensures var after := ExecBatch(t, WriteBack(budget, row, events));
      var state := Replayed(row.limit, events).value;
      if !Matches(t, budget, row.limit) then after == t
      else
        var announced := Announced(t, budget, row.session, Crossings(row.limit, events, row.stage));
        after == Tables(
          t.budgets[budget := t.budgets[budget].(spent := state.spent, stage := state.stage, folded := |events|)],
          t.ledger,
          Pruned(announced.outbox, budget, StageOrdinal(state.stage)),
          announced.nextSignal)
  {
    var signals := Crossings(row.limit, events, row.stage);
    var first := Announcements(budget, row, signals);
    var statements := WriteBack(budget, row, events);
    AnnouncementsRun(t, budget, row, signals);
    var n := |statements|;
    assert statements[..n - 1][..n - 2] == first;
    assert statements[..n - 1] == first + [statements[n - 2]];
  }

  /** The announcements add exactly the missing ones, undelivered and under fresh
      identifiers, and keep every row that was there. */
  lemma {:induction false} AnnouncedAdds(t: Tables, budget: nat, session: nat, signals: seq<Signal>)
    ensures var after := Announced(t, budget, session, signals);
      && t.nextSignal <= after.nextSignal
      && (forall row :: row in t.outbox ==> row in after.outbox)
      && (forall row :: row in after.outbox && row !in t.outbox ==>
        && row.budget == budget && row.session == session && !row.delivered
        && t.nextSignal <= row.id < after.nextSignal
        && row.signal in signals && !Has(t.outbox, budget, row.signal))
      && (forall s :: s in signals ==> Has(after.outbox, budget, s))
  {
    if signals != [] {
      var n := |signals| - 1;
      AnnouncedAdds(t, budget, session, signals[..n]);
      var before := Announced(t, budget, session, signals[..n]);
      var after := Announced(t, budget, session, signals);
      assert signals == signals[..n] + [signals[n]];
      assert forall row :: row in before.outbox ==> row in after.outbox;
      if !Has(before.outbox, budget, signals[n]) {
        assert after.outbox[|before.outbox|].signal == signals[n];
      }
    }
  }

  /** What one winning fold does to the outbox: rows of other budgets and of thresholds
      still crossed stay, the un-crossed ones go, and a row is added only for a threshold
      the fold announces and the outbox lacked, undelivered and under a fresh identifier. */
  ghost predicate OutboxAfterFold(before: Tables, after: Tables, budget: nat, reached: Stage, announced: seq<Signal>)
  {
    && before.nextSignal <= after.nextSignal
    && (forall row :: row in before.outbox
         && (row.budget == budget ==> SignalOrdinal(row.signal) <= StageOrdinal(reached))
         ==> row in after.outbox)
    && (forall row :: row in after.outbox && row.budget == budget
         ==> SignalOrdinal(row.signal) <= StageOrdinal(reached))
    && (forall row :: row in after.outbox && row !in before.outbox ==>
         && row.budget == budget && !row.delivered
         && before.nextSignal <= row.id < after.nextSignal
         && row.signal in announced && !Has(before.outbox, budget, row.signal))
    && (forall s :: s in announced ==> Has(after.outbox, budget, s))
  }

  lemma WonFold(t: Tables, budget: nat, row: BudgetRow, events: seq<nat>)
    requires row.limit > 0 && Replayed(row.limit, events).Some?
    requires Matches(t, budget, row.limit)
    ensures var state := Replayed(row.limit, events).value;
      var after := ExecBatch(t, WriteBack(budget, row, events));
      && after.ledger == t.ledger
      && after.budgets == t.budgets[budget := t.budgets[budget].(spent := state.spent, stage := state.stage, folded := |events|)]
      && OutboxAfterFold(t, after, budget, state.stage, Crossings(row.limit, events, row.stage))
  {
    var signals := Crossings(row.limit, events, row.stage);
    var announced := Announced(t, budget, row.session, signals);
    var after := ExecBatch(t, WriteBack(budget, row, events));
    WriteBackIsAllOrNothing(t, budget, row, events);
    CrossingsAnnounceTheRise(row.limit, events, row.stage);
    AnnouncedAdds(t, budget, row.session, signals);
    forall s | s in signals ensures Has(after.outbox, budget, s) {
      var r :| r in announced.outbox && r.budget == budget && r.signal == s;
      assert r in after.outbox;
    }
  }

  /** A fold whose limit has changed under it writes nothing. */
  lemma LostFold(t: Tables, budget: nat, row: BudgetRow, events: seq<nat>)
    requires row.limit > 0 && Replayed(row.limit, events).Some?
    requires !Matches(t, budget, row.limit)
    ensures ExecBatch(t, WriteBack(budget, row, events)) == t
  {
    WriteBackIsAllOrNothing(t, budget, row, events);
  }
}
