/** What a sweep does to machines, told in their states and columns alone
    (crates/api/src/metering.rs): whose compute and whose disk it brings up to date, at what
    price, and whom it leaves alone. */
module SweptMachines {
  import opened Prelude
  import opened BudgetTables
  import opened Metering
  import opened MeterRuns
  import opened Sweep

  predicate AllSet(c: Columns) { c.hourly.Some? && c.startedAt.Some? && c.cursor.Some? }

  /** Compute is paid for while a machine runs; its disk for as long as the machine exists. */
  predicate Pays(row: MachineRow, kind: Kind)
  {
    match kind
    case Compute => row.state == Running && AllSet(row.compute)
    case Storage => row.state != Destroyed && AllSet(row.storage)
  }

  /** A sweep moves cursors forward and nothing else, and those only of meters that pay. */
  predicate OnlyCursors(row: MachineRow, after: MachineRow)
  {
    && after.budget == row.budget && after.state == row.state
    && CursorOnly(row.compute, after.compute) && CursorOnly(row.storage, after.storage)
    && (row.state != Running ==> after.compute == row.compute)
    && (row.state == Destroyed ==> after.storage == row.storage)
  }

  predicate CursorOnly(c: Columns, after: Columns)
  {
    && after == c.(cursor := after.cursor)
    && (c.cursor.Some? <==> after.cursor.Some?)
    && (c.cursor.Some? ==> c.cursor.value <= after.cursor.value)
    && (!AllSet(c) ==> after == c)
  }

  lemma SweptRowMoves(row: MachineRow, at: nat, left: nat)
    ensures OnlyCursors(row, SweptRow(row, at, left).0)
  {
    hide Target, Owed;
  }

  /** However a sweep is capped, and in whatever order it takes the rows. */
  lemma {:induction false} SweepMovesOnlyCursors(machines: seq<MachineRow>, order: seq<nat>, at: nat, left: nat, i: nat)
    requires Listed(machines, order) && i < |machines|
    ensures OnlyCursors(machines[i], SweptRows(machines, order, at, left).0[i])
  {
    hide SweptRow;
    if order != [] {
      var n := |order| - 1;
      SweepMovesOnlyCursors(machines, order[..n], at, left, i);
      var (ms, l) := SweptRows(machines, order[..n], at, left);
      SweptRowMoves(ms[order[n]], at, l);
    }
  }

  lemma {:induction false} SweepsMoveOnlyCursors(machines: seq<MachineRow>, order: seq<nat>, at: nat, n: nat, i: nat)
    requires Listed(machines, order) && i < |machines|
    ensures OnlyCursors(machines[i], Sweeps(machines, order, at, n)[i])
  {
    hide SweptRows;
    if n != 0 {
      SweepsMoveOnlyCursors(machines, order, at, n - 1, i);
      SweepMovesOnlyCursors(Sweeps(machines, order, at, n - 1), order, at, MAX_WINDOWS_PER_SWEEP, i);
    }
  }

  /** After as many sweeps at one time as the windows owed fill, every listed machine that runs
      has its compute paid through the last whole minute, and every one that exists its disk. */
  lemma SweepsReachTheMinute(machines: seq<MachineRow>, order: seq<nat>, at: nat, n: nat, i: nat, kind: Kind)
    requires Listed(machines, order) && Once(order) && i in order && at <= U64_MAX
    requires OwedIn(machines, order, at) <= 600 * n
    requires Pays(machines[i], kind) && ColumnsOf(machines[i], kind).startedAt.value <= at
    ensures var row := Sweeps(machines, order, at, n)[i];
      Pays(row, kind) && ColumnsOf(row, kind).cursor.value + 60 > at
  {
    hide Sweeps, OwedIn;
    SweepsMoveOnlyCursors(machines, order, at, n, i);
    var row := Sweeps(machines, order, at, n)[i];
    RepeatedSweepsReachTheTargets(machines, order, at, n, i, kind);
    var m := MeterOf(row, kind).value;
    assert m == Meter(ColumnsOf(row, kind).hourly.value, ColumnsOf(row, kind).startedAt.value, ColumnsOf(row, kind).cursor.value);
  }

  // ── What it bills ──

  /** A row for a window of a listed machine that pays, charged to its budget. */
  predicate Charged(row: SpendRow, machines: seq<MachineRow>, order: seq<nat>)
  {
    && row.key.Some? && row.key.value.Window? && row.key.value.machine in order && row.key.value.machine < |machines|
    && row.budget == machines[row.key.value.machine].budget
    && Pays(machines[row.key.value.machine], row.key.value.kind)
    && row.amount > 0 && row.key.value.start < row.key.value.end == row.at
  }

  lemma {:induction false} WindowsAreCharged(budget: nat, i: nat, kind: Kind, m: Meter, target: nat, n: nat)
    ensures forall row :: row in WindowRows(budget, i, kind, m, target, n) ==>
      && row.budget == budget && row.key.Some? && row.key.value.Window?
      && row.key.value.machine == i && row.key.value.kind == kind
      && row.amount > 0 && row.key.value.start < row.key.value.end == row.at
  {
    if n != 0 {
      WindowsAreCharged(budget, i, kind, m, target, n - 1);
      var from, end := Reach(m, target, n - 1), Reach(m, target, n);
      assert from == end ==> IntervalCost(m.hourly, m.startedAt, from, end) == 0;
    }
  }

  lemma MeterIsCharged(machines: seq<MachineRow>, order: seq<nat>, i: nat, row: MachineRow, kind: Kind, at: nat, left: nat)
    requires i < |machines| && i in order && OnlyCursors(machines[i], row)
    ensures forall spend :: spend in MeterRows(i, row, kind, at, left) ==> Charged(spend, machines, order)
  {
    hide Target, Owed, WindowRows;
    match MeterOf(row, kind)
    case None =>
    case Some(m) => WindowsAreCharged(row.budget, i, kind, m, Target(m, at), Min(left, Owed(m, at)));
  }

  lemma {:induction false} OnlyInserted(ledger: seq<SpendRow>, rows: seq<SpendRow>, row: SpendRow)
    ensures row in InsertRows(ledger, rows) ==> row in ledger || row in rows
  {
    hide Keys;
    if rows != [] {
      OnlyInserted(ledger, rows[..|rows| - 1], row);
    }
  }

  lemma RowIsCharged(ledger: seq<SpendRow>, machines: seq<MachineRow>, order: seq<nat>, i: nat, at: nat, left: nat, spend: SpendRow)
    requires i < |machines| && i in order && spend in BilledRow(ledger, i, machines[i], at, left)
    ensures spend in ledger || Charged(spend, machines, order)
  {
    hide MeterRows, Charged, SweptMeter, MeterOf;
    var row := machines[i];
    var mid := SweptMeter(row, Compute, at, left);
    assert OnlyCursors(row, row);
    MidMoves(row, at, left);
    MeterIsCharged(machines, order, i, row, Compute, at, left);
    MeterIsCharged(machines, order, i, mid.0, Storage, at, mid.1);
    OnlyInserted(ledger, MeterRows(i, row, Compute, at, left), spend);
    OnlyInserted(InsertRows(ledger, MeterRows(i, row, Compute, at, left)), StorageRows(i, row, at, left), spend);
  }

  lemma MidMoves(row: MachineRow, at: nat, left: nat)
    ensures OnlyCursors(row, SweptMeter(row, Compute, at, left).0)
  {
    hide Target, Owed;
  }

  /** A sweep records nothing but windows of listed machines that pay, each charged to its
      machine's budget: none of a stopped machine's compute, none of a destroyed machine. */
  lemma {:induction false} SweepChargesOnlyWhatPays(ledger: seq<SpendRow>, machines: seq<MachineRow>, order: seq<nat>, at: nat, left: nat, row: SpendRow)
    requires Listed(machines, order) && row in SweptLedger(ledger, machines, order, at, left).0
    ensures row in ledger || Charged(row, machines, order)
  {
    hide BilledRow, Charged, SweptRows;
    if order != [] {
      var n := |order| - 1;
      var (l, touched) := SweptLedger(ledger, machines, order[..n], at, left);
      var left' := SweptRows(machines, order[..n], at, left).1;
      RowIsCharged(l, machines, order, order[n], at, left', row);
      if row in l {
        SweepChargesOnlyWhatPays(ledger, machines, order[..n], at, left, row);
        MoreListed(machines, order, row);
      }
    }
  }

  lemma MoreListed(machines: seq<MachineRow>, order: seq<nat>, row: SpendRow)
    requires order != []
    ensures Charged(row, machines, order[..|order| - 1]) ==> Charged(row, machines, order)
  {
  }

  /** The turn of a meter that pays records rows that sum to the price of the time its cursor
      moves over, rounded down from the origin. */
  lemma TurnCostsTheMove(i: nat, row: MachineRow, kind: Kind, at: nat, left: nat)
    requires Pays(row, kind) && ColumnsOf(row, kind).startedAt.value <= ColumnsOf(row, kind).cursor.value
    ensures var c, after := ColumnsOf(row, kind), ColumnsOf(SweptMeter(row, kind, at, left).0, kind);
      && after.cursor.Some? && c.cursor.value <= after.cursor.value
      && Sum(Amounts(MeterRows(i, row, kind, at, left)))
           == c.hourly.value * (after.cursor.value - c.startedAt.value) / 3_600
            - c.hourly.value * (c.cursor.value - c.startedAt.value) / 3_600
  {
    hide Target, Owed, WindowRows, Sum;
    var c := ColumnsOf(row, kind);
    var m := Meter(c.hourly.value, c.startedAt.value, c.cursor.value);
    var taken := Min(left, Owed(m, at));
    RowsCostTheInterval(row.budget, i, kind, m, Target(m, at), taken);
    CumulativeMonotone(m.hourly, m.startedAt, m.cursor, Reach(m, Target(m, at), taken));
  }

  // ── Whom it folds ──

  lemma TurnTouches(ledger: seq<SpendRow>, i: nat, row: MachineRow, at: nat, left: nat, spend: SpendRow)
    requires spend in BilledRow(ledger, i, row, at, left) && spend !in ledger
    ensures Grew(i, row, at, left) && spend.budget == row.budget
  {
    hide MeterRows, SweptMeter;
    OnlyInserted(ledger, MeterRows(i, row, Compute, at, left), spend);
    OnlyInserted(InsertRows(ledger, MeterRows(i, row, Compute, at, left)), StorageRows(i, row, at, left), spend);
    MidMoves(row, at, left);
    RowsOfBudget(i, row, Compute, at, left);
    RowsOfBudget(i, SweptMeter(row, Compute, at, left).0, Storage, at, SweptMeter(row, Compute, at, left).1);
  }

  lemma RowsOfBudget(i: nat, row: MachineRow, kind: Kind, at: nat, left: nat)
    ensures forall spend :: spend in MeterRows(i, row, kind, at, left) ==> spend.budget == row.budget
  {
    hide Target, Owed, WindowRows;
    match MeterOf(row, kind)
    case None =>
    case Some(m) => WindowsAreCharged(row.budget, i, kind, m, Target(m, at), Min(left, Owed(m, at)));
  }

  ghost predicate Listing(machines: seq<MachineRow>, order: seq<nat>, budget: nat)
    requires Listed(machines, order)
  {
    exists k: nat :: k < |order| && machines[order[k]].budget == budget
  }

  /** Every budget the sweep recorded spend for is folded, and only budgets of listed machines. */
  lemma {:induction false} GrownBudgetsAreFolded(ledger: seq<SpendRow>, machines: seq<MachineRow>, order: seq<nat>, at: nat, left: nat)
    requires Listed(machines, order)
    ensures var (after, touched) := SweptLedger(ledger, machines, order, at, left);
      && (forall row :: row in after && row !in ledger ==> row.budget in touched)
      && (forall budget :: budget in touched ==> Listing(machines, order, budget))
  {
    hide BilledRow, Grew, SweptRows;
    if order != [] {
      var n := |order| - 1;
      GrownBudgetsAreFolded(ledger, machines, order[..n], at, left);
      var (l, before) := SweptLedger(ledger, machines, order[..n], at, left);
      var left' := SweptRows(machines, order[..n], at, left).1;
      var (after, touched) := SweptLedger(ledger, machines, order, at, left);
      forall row | row in after && row !in ledger ensures row.budget in touched {
        if row !in l { TurnTouches(l, order[n], machines[order[n]], at, left', row); }
      }
      forall budget | budget in touched ensures Listing(machines, order, budget) {
        if budget in before {
          assert Listing(machines, order[..n], budget);
          var k: nat :| k < |order[..n]| && machines[order[..n][k]].budget == budget;
          assert order[k] == order[..n][k];
        } else {
          assert machines[order[n]].budget == budget;
        }
      }
    }
  }
}
