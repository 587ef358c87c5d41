/** That a sweep bills the time it moves cursors over (crates/api/src/metering.rs): minute by
    minute from where each cursor stood, each minute that costs anything is on the ledger. */
module SweptTime {
  import opened Prelude
  import opened BudgetTables
  import opened Metering
  import opened MeterRuns
  import opened OffMinute
  import opened Sweep
  import opened SweptMachines

  /** Minute `k` of the time a cursor moved over, the last perhaps cut short, is on the ledger if
      it costs anything at the meter's price. */
  predicate Minute(ledger: seq<SpendRow>, i: nat, kind: Kind, c: Columns, moved: nat, k: nat)
    requires AllSet(c) && c.startedAt.value <= c.cursor.value
  {
    var from := c.cursor.value + 60 * k;
    var end := Min(from + 60, moved);
    from < moved && Price(c, from) < Price(c, end) ==> Window(i, kind, from, end) in Keys(ledger)
  }

  /** What the meter has cost by an instant, rounded down. */
  function Price(c: Columns, instant: nat): nat
    requires AllSet(c) && c.startedAt.value <= instant
  {
    c.hourly.value * (instant - c.startedAt.value) / 3_600
  }

  lemma {:induction false} ReachedIsARow(budget: nat, i: nat, kind: Kind, m: Meter, target: nat, n: nat, q: nat)
    requires q < n && IntervalCost(m.hourly, m.startedAt, Reach(m, target, q), Reach(m, target, q + 1)) > 0
    ensures HasRow(WindowRows(budget, i, kind, m, target, n), Window(i, kind, Reach(m, target, q), Reach(m, target, q + 1)))
  {
    hide IntervalCost;
    var rows := WindowRows(budget, i, kind, m, target, n);
    if q == n - 1 {
      assert rows[|rows| - 1] in rows;
    } else {
      ReachedIsARow(budget, i, kind, m, target, n - 1, q);
      var row :| row in WindowRows(budget, i, kind, m, target, n - 1)
        && row.key == Some(Window(i, kind, Reach(m, target, q), Reach(m, target, q + 1)));
      assert row in rows;
    }
  }

  lemma TurnBillsMinute(ledger: seq<SpendRow>, i: nat, row: MachineRow, kind: Kind, at: nat, left: nat, k: nat)
    requires Pays(row, kind) && ColumnsOf(row, kind).startedAt.value <= ColumnsOf(row, kind).cursor.value
    ensures Minute(InsertRows(ledger, MeterRows(i, row, kind, at, left)), i, kind, ColumnsOf(row, kind),
      ColumnsOf(SweptMeter(row, kind, at, left).0, kind).cursor.value, k)
  {
    hide Target, Owed, WindowRows, InsertRows, Keys;
    var c := ColumnsOf(row, kind);
    var m := Meter(c.hourly.value, c.startedAt.value, c.cursor.value);
    var taken, target := Min(left, Owed(m, at)), Target(m, at);
    var from := c.cursor.value + 60 * k;
    if from < Reach(m, target, taken) {
      ReachIsInStep(m, target, taken, k);
      var end := Reach(m, target, k + 1);
      if IntervalCost(m.hourly, m.startedAt, from, end) > 0 {
        ReachedIsARow(row.budget, i, kind, m, target, taken, k);
        InsertedKeysLand(ledger, MeterRows(i, row, kind, at, left), Window(i, kind, from, end));
      }
    }
  }

  lemma ReachIsInStep(m: Meter, target: nat, taken: nat, k: nat)
    requires m.cursor + 60 * k < Reach(m, target, taken)
    ensures k < taken && Reach(m, target, k) == m.cursor + 60 * k
    ensures Reach(m, target, k + 1) == Min(m.cursor + 60 * k + 60, Reach(m, target, taken))
  {
  }

  lemma MinuteStays(ledger: seq<SpendRow>, after: seq<SpendRow>, i: nat, kind: Kind, c: Columns, moved: nat, k: nat)
    requires AllSet(c) && c.startedAt.value <= c.cursor.value
    requires Minute(ledger, i, kind, c, moved, k) && ledger <= after
    ensures Minute(after, i, kind, c, moved, k)
  {
    hide Keys;
    KeysGrow(ledger, after);
  }

  /** The turn of one machine bills the time of both its meters. */
  lemma RowBillsMinute(ledger: seq<SpendRow>, i: nat, row: MachineRow, at: nat, left: nat, kind: Kind, k: nat)
    requires Pays(row, kind) && ColumnsOf(row, kind).startedAt.value <= ColumnsOf(row, kind).cursor.value
    ensures ColumnsOf(SweptRow(row, at, left).0, kind).cursor.Some?
    ensures Minute(BilledRow(ledger, i, row, at, left), i, kind, ColumnsOf(row, kind),
      ColumnsOf(SweptRow(row, at, left).0, kind).cursor.value, k)
  {
    hide SweptMeter, MeterRows, Minute;
    var (mid, l) := SweptMeter(row, Compute, at, left);
    var l1 := InsertRows(ledger, MeterRows(i, row, Compute, at, left));
    TurnsApart(row, at, left);
    match kind
    case Compute =>
      TurnBillsMinute(ledger, i, row, Compute, at, left, k);
      MinuteStays(l1, BilledRow(ledger, i, row, at, left), i, Compute, row.compute, mid.compute.cursor.value, k);
    case Storage =>
      TurnBillsMinute(l1, i, mid, Storage, at, l, k);
  }

  /** A turn of one meter leaves the other alone. */
  lemma TurnsApart(row: MachineRow, at: nat, left: nat)
    ensures var (mid, l) := SweptMeter(row, Compute, at, left);
      && mid.storage == row.storage && mid.state == row.state && mid.budget == row.budget
      && (Pays(row, Compute) ==> mid.compute.cursor.Some?)
      && SweptMeter(mid, Storage, at, l).0.compute == mid.compute
      && (Pays(row, Storage) ==> SweptMeter(mid, Storage, at, l).0.storage.cursor.Some?)
  {
    hide Target, Owed;
  }

  /** However it is capped and in whatever order it takes the rows, a sweep bills every minute it
      moves a listed machine's cursor over. */
  lemma {:induction false} SweepBillsTheTimeItMoves(ledger: seq<SpendRow>, machines: seq<MachineRow>, order: seq<nat>, at: nat, left: nat,
    i: nat, kind: Kind, k: nat)
    requires Listed(machines, order) && Once(order) && i in order
    requires Pays(machines[i], kind) && ColumnsOf(machines[i], kind).startedAt.value <= ColumnsOf(machines[i], kind).cursor.value
    ensures var after := ColumnsOf(SweptRows(machines, order, at, left).0[i], kind);
      && after.cursor.Some?
      && Minute(SweptLedger(ledger, machines, order, at, left).0, i, kind, ColumnsOf(machines[i], kind), after.cursor.value, k)
  {
    hide SweptRow, BilledRow, Minute;
    var n := |order| - 1;
    var l := SweptLedger(ledger, machines, order[..n], at, left).0;
    var (ms, left') := SweptRows(machines, order[..n], at, left);
    if order[n] == i {
      SweptRowsSpareOthers(machines, order[..n], at, left, i);
      RowBillsMinute(l, i, machines[i], at, left', kind, k);
    } else {
      SweepBillsTheTimeItMoves(ledger, machines, order[..n], at, left, i, kind, k);
      MinuteStays(l, SweptLedger(ledger, machines, order, at, left).0, i, kind, ColumnsOf(machines[i], kind),
        ColumnsOf(ms[i], kind).cursor.value, k);
    }
  }
}
