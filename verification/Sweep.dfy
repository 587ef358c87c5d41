/** One metering sweep (`accrue` and `accrue_meter` of crates/api/src/metering.rs) and what
    its cap leaves for the next. */
module Sweep {
  import opened Prelude
  import opened BudgetTables
  import opened BudgetRuns
  import opened BudgetStore
  import opened Metering
  import opened MeterRuns

  /** The windows one machine's meter is owed at `at`. */
  function MeterOwed(row: MachineRow, kind: Kind, at: nat): nat
  {
    match MeterOf(row, kind)
    case None => 0
    case Some(m) => Owed(m, at)
  }

  function RowOwed(row: MachineRow, at: nat): nat
  {
    MeterOwed(row, Compute, at) + MeterOwed(row, Storage, at)
  }

  /** The windows owed to the listed machines. */
  function OwedIn(machines: seq<MachineRow>, order: seq<nat>, at: nat): nat
    requires Listed(machines, order)
  {
    if order == [] then 0
    else OwedIn(machines, order[..|order| - 1], at) + RowOwed(machines[order[|order| - 1]], at)
  }

  predicate Listed(machines: seq<MachineRow>, order: seq<nat>)
  {
    forall i :: 0 <= i < |order| ==> order[i] < |machines|
  }

  predicate Once(order: seq<nat>)
  {
    forall i, j :: 0 <= i < j < |order| ==> order[i] != order[j]
  }

  /** A row after one of its meters was swept with `left` windows to spend. */
  function SweptMeter(row: MachineRow, kind: Kind, at: nat, left: nat): (MachineRow, nat)
  {
    match MeterOf(row, kind)
    case None => (row, left)
    case Some(m) =>
      var taken := Min(left, Owed(m, at));
      (AdvancedRow(row, kind, Reach(m, Target(m, at), taken)), left - taken)
  }

  function SweptRow(row: MachineRow, at: nat, left: nat): (MachineRow, nat)
  {
    var (row', left') := SweptMeter(row, Compute, at, left);
    SweptMeter(row', Storage, at, left')
  }

  /** The machines after their rows were swept in the order they were read. */
  function SweptRows(machines: seq<MachineRow>, order: seq<nat>, at: nat, left: nat): (r: (seq<MachineRow>, nat))
    requires Listed(machines, order)
    ensures |r.0| == |machines|
  {
    if order == [] then (machines, left)
    else
      var (ms, l) := SweptRows(machines, order[..|order| - 1], at, left);
      var i := order[|order| - 1];
      var (row, l') := SweptRow(ms[i], at, l);
      (ms[i := row], l')
  }

  function Swept(machines: seq<MachineRow>, order: seq<nat>, at: nat): seq<MachineRow>
    requires Listed(machines, order)
  {
    SweptRows(machines, order, at, MAX_WINDOWS_PER_SWEEP).0
  }

  // ── What a sweep bills ──

  /** The rows a meter's turn inserts. */
  function MeterRows(i: nat, row: MachineRow, kind: Kind, at: nat, left: nat): seq<SpendRow>
  {
    match MeterOf(row, kind)
    case None => []
    case Some(m) => WindowRows(row.budget, i, kind, m, Target(m, at), Min(left, Owed(m, at)))
  }

  function StorageRows(i: nat, row: MachineRow, at: nat, left: nat): seq<SpendRow>
  {
    var (row', left') := SweptMeter(row, Compute, at, left);
    MeterRows(i, row', Storage, at, left')
  }

  function BilledRow(ledger: seq<SpendRow>, i: nat, row: MachineRow, at: nat, left: nat): (r: seq<SpendRow>)
    ensures ledger <= r
  {
    InsertRows(InsertRows(ledger, MeterRows(i, row, Compute, at, left)), StorageRows(i, row, at, left))
  }

  /** Whether a row's turn recorded any spend. */
  predicate Grew(i: nat, row: MachineRow, at: nat, left: nat)
  {
    MeterRows(i, row, Compute, at, left) != [] || StorageRows(i, row, at, left) != []
  }

  /** The ledger, and the budgets to fold, after the rows were swept in order. */
  function SweptLedger(ledger: seq<SpendRow>, machines: seq<MachineRow>, order: seq<nat>, at: nat, left: nat)
    : (r: (seq<SpendRow>, set<nat>))
    requires Listed(machines, order)
    ensures ledger <= r.0
  {
    if order == [] then (ledger, {})
    else
      var init, i := order[..|order| - 1], order[|order| - 1];
      var (l, touched) := SweptLedger(ledger, machines, init, at, left);
      var left' := SweptRows(machines, init, at, left).1;
      (BilledRow(l, i, machines[i], at, left'), if Grew(i, machines[i], at, left') then touched + {machines[i].budget} else touched)
  }

  lemma SweptMeterTakes(row: MachineRow, kind: Kind, at: nat, left: nat)
    ensures var (row', left') := SweptMeter(row, kind, at, left);
      && MeterOwed(row', kind, at) == MeterOwed(row, kind, at) - Min(left, MeterOwed(row, kind, at))
      && left' == left - Min(left, MeterOwed(row, kind, at))
      && (forall other :: other != kind ==> MeterOf(row', other) == MeterOf(row, other))
      && row'.state == row.state
  {
    hide Target;
    match MeterOf(row, kind)
    case None =>
    case Some(m) =>
      var taken := Min(left, Owed(m, at));
      var m' := m.(cursor := Reach(m, Target(m, at), taken));
      assert MeterOf(SweptMeter(row, kind, at, left).0, kind) == Some(m');
      WindowsTaken(m, at, taken);
  }

  lemma WindowsTaken(m: Meter, at: nat, taken: nat)
    requires taken <= Owed(m, at)
    ensures Owed(m.(cursor := Reach(m, Target(m, at), taken)), at) == Owed(m, at) - taken
  {
    TargetIgnoresCursor(m, m.(cursor := Reach(m, Target(m, at), taken)), at);
    hide Target;
  }

  lemma TargetIgnoresCursor(m: Meter, m': Meter, at: nat)
    requires m.startedAt == m'.startedAt
    ensures Target(m, at) == Target(m', at)
  {
  }

  lemma SweptRowTakes(row: MachineRow, at: nat, left: nat)
    ensures var (row', left') := SweptRow(row, at, left);
      && RowOwed(row', at) == RowOwed(row, at) - Min(left, RowOwed(row, at))
      && left' == left - Min(left, RowOwed(row, at))
  {
    hide SweptMeter, MeterOf;
    var (mid, l) := SweptMeter(row, Compute, at, left);
    SweptMeterTakes(row, Compute, at, left);
    SweptMeterTakes(mid, Storage, at, l);
  }

  /** Sweeping a row leaves what the rows before it are owed as it was. */
  lemma {:induction false} OwedInFrame(machines: seq<MachineRow>, order: seq<nat>, at: nat, i: nat, row: MachineRow)
    requires Listed(machines, order) && i < |machines| && i !in order
    ensures OwedIn(machines[i := row], order, at) == OwedIn(machines, order, at)
  {
    if order != [] {
      OwedInFrame(machines, order[..|order| - 1], at, i, row);
    }
  }

  lemma {:induction false} SweptRowsSpareOthers(machines: seq<MachineRow>, order: seq<nat>, at: nat, left: nat, i: nat)
    requires Listed(machines, order) && i < |machines| && i !in order
    ensures SweptRows(machines, order, at, left).0[i] == machines[i]
  {
    if order != [] {
      SweptRowsSpareOthers(machines, order[..|order| - 1], at, left, i);
    }
  }

  /** A sweep takes exactly as many windows as it may and as there are, in whatever order
      the rows come. */
  lemma {:induction false} SweptRowsTake(machines: seq<MachineRow>, order: seq<nat>, at: nat, left: nat)
    requires Listed(machines, order) && Once(order)
    ensures var (ms, l) := SweptRows(machines, order, at, left);
      var owed := OwedIn(machines, order, at);
      OwedIn(ms, order, at) == owed - Min(left, owed) && l == left - Min(left, owed)
  {
    hide SweptRow, RowOwed;
    if order != [] {
      var n := |order| - 1;
      var i := order[n];
      SweptRowsTake(machines, order[..n], at, left);
      var (ms, l) := SweptRows(machines, order[..n], at, left);
      SweptRowsSpareOthers(machines, order[..n], at, left, i);
      SweptRowTakes(ms[i], at, l);
      OwedInFrame(ms, order[..n], at, i, SweptRow(ms[i], at, l).0);
    }
  }

  function Sweeps(machines: seq<MachineRow>, order: seq<nat>, at: nat, n: nat): (r: seq<MachineRow>)
    requires Listed(machines, order)
    ensures |r| == |machines|
  {
    if n == 0 then machines else Swept(Sweeps(machines, order, at, n - 1), order, at)
  }

  /** What a cap leaves behind is not lost: each sweep takes the next 600 windows, so
      enough sweeps at a fixed time leave every listed meter at its target. */
  lemma {:induction false} SweepsDrain(machines: seq<MachineRow>, order: seq<nat>, at: nat, n: nat)
    requires Listed(machines, order) && Once(order)
    ensures OwedIn(Sweeps(machines, order, at, n), order, at)
         == SaturatingSub(OwedIn(machines, order, at), MAX_WINDOWS_PER_SWEEP * n)
  {
    hide SweptRows;
    if n != 0 {
      SweepsDrain(machines, order, at, n - 1);
      SweptRowsTake(Sweeps(machines, order, at, n - 1), order, at, MAX_WINDOWS_PER_SWEEP);
    }
  }

  lemma {:induction false} DrainedIsAtTarget(machines: seq<MachineRow>, order: seq<nat>, at: nat, i: nat, kind: Kind)
    requires Listed(machines, order) && OwedIn(machines, order, at) == 0 && i in order
    requires MeterOf(machines[i], kind).Some?
    ensures MeterOf(machines[i], kind).value.cursor >= Target(MeterOf(machines[i], kind).value, at)
    decreases |order|
  {
    hide Target;
    if order[|order| - 1] != i {
      DrainedIsAtTarget(machines, order[..|order| - 1], at, i, kind);
    }
  }

  /** Sweeping again and again at a fixed time ends with every listed meter at its target:
      after as many sweeps as the windows owed fill. */
  lemma RepeatedSweepsReachTheTargets(machines: seq<MachineRow>, order: seq<nat>, at: nat, n: nat, i: nat, kind: Kind)
    requires Listed(machines, order) && Once(order)
    requires OwedIn(machines, order, at) <= MAX_WINDOWS_PER_SWEEP * n
    requires i in order && MeterOf(Sweeps(machines, order, at, n)[i], kind).Some?
    ensures var m := MeterOf(Sweeps(machines, order, at, n)[i], kind).value; m.cursor >= Target(m, at)
  {
    hide Sweeps, OwedIn, Target;
    SweepsDrain(machines, order, at, n);
    DrainedIsAtTarget(Sweeps(machines, order, at, n), order, at, i, kind);
  }

  // ── The sweep itself ──

  class Fleet {
    const store: Store
    var machines: seq<MachineRow>

    constructor (store: Store)
      ensures this.store == store && machines == []
    {
      this.store := store;
      machines := [];
    }

    /** `accrue_meter`: one meter's windows, composed in a loop and executed as one batch
        with the cursor advance. Answers whether any spend was recorded. */
    method AccrueMeter(i: nat, row: MachineRow, kind: Kind, m: Meter, at: nat, windowsLeft: nat)
      returns (recorded: bool, left: nat)
      requires i < |machines| && machines[i] == row
      requires MeterOf(row, kind) == Some(m)
      modifies this, store
      ensures |machines| == |old(machines)|
      ensures (machines[i], left) == SweptMeter(row, kind, at, windowsLeft)
      ensures machines == old(machines)[i := machines[i]]
      ensures var rows := WindowRows(row.budget, i, kind, m, Target(m, at), Min(windowsLeft, Owed(m, at)));
        store.ledger == InsertRows(old(store.ledger), rows) && (recorded <==> rows != [])
      ensures store.budgets == old(store.budgets) && store.outbox == old(store.outbox) && store.reconciled == old(store.reconciled)
      ensures store.arriving == old(store.arriving)
    {
      hide WindowRows, IntervalCost, InsertRows, Owed, Target;
      DrainTakesAll(row.budget, i, kind, m, at, windowsLeft);
      TargetInRange(m, at);
      var start, target := m.cursor, Target(m, at);
      var statements: seq<SpendRow> := [];
      left, recorded := windowsLeft, false;
      while start < target && left > 0
        invariant left <= windowsLeft && m.cursor <= start
        invariant Drain(row.budget, i, kind, m, target, start, left, statements)
               == Drain(row.budget, i, kind, m, target, m.cursor, windowsLeft, [])
        invariant recorded <==> statements != []
        decreases left
      {
        var end := Min(SaturatingAdd(start, WINDOW_SECONDS), target);
        var amount := IntervalCost(m.hourly, m.startedAt, start, end);
        ghost var before := statements;
        if amount != 0 {
          statements := statements + [SpendRow(row.budget, amount, end, Some(Window(i, kind, start, end)))];
          recorded := true;
        }
        assert statements == before
          + if amount == 0 then [] else [SpendRow(row.budget, amount, end, Some(Window(i, kind, start, end)))];
        start := end;
        left := left - 1;
      }
      assert start == Reach(m, target, Min(windowsLeft, Owed(m, at)));
      if start == m.cursor {
        assert AdvancedRow(row, kind, m.cursor) == row;
        NoRows(store.ledger);
        NothingOwed(m, at, windowsLeft);
        return false, left;
      }
      store.ledger := InsertRows(store.ledger, statements);
      machines := machines[i := AdvancedRow(row, kind, start)];
    }

    /** `accrue`: every meter of the machines read, in the order they were read, within one
        allowance of windows; then one fold per budget whose ledger grew. */
    method Accrue(order: seq<nat>, at: nat)
      requires Listed(machines, order) && Once(order)
      requires forall i :: 0 <= i < |machines| ==> (i in order <==> !machines[i].state.Destroyed?)
      modifies this, store
      ensures |machines| == |old(machines)|
      ensures machines == Swept(old(machines), order, at)
      ensures var (billed, touched) := SweptLedger(old(store.ledger), old(machines), order, at, MAX_WINDOWS_PER_SWEEP);
        && billed <= store.ledger && (old(store.arriving) == [] ==> store.ledger == billed)
        && old(store.reconciled) <= store.reconciled
        && (forall budget :: budget in store.reconciled[|old(store.reconciled)|..] <==> budget in touched)
        && |store.reconciled| == |old(store.reconciled)| + |touched|
      ensures OwedIn(machines, order, at)
           == OwedIn(old(machines), order, at) - Min(600, OwedIn(old(machines), order, at))
    {
      hide SweptMeter, SweptRow, InsertRows, WindowRows, Owed, FoldedSince, OwedIn;
      var rows := machines;
      var left := MAX_WINDOWS_PER_SWEEP;
      var touched: set<nat> := {};
      var n := 0;
      while n < |order| && left > 0
        invariant n <= |order| && |machines| == |rows|
        invariant (machines, left) == SweptRows(rows, order[..n], at, MAX_WINDOWS_PER_SWEEP)
        invariant (store.ledger, touched) == SweptLedger(old(store.ledger), rows, order[..n], at, MAX_WINDOWS_PER_SWEEP)
        invariant store.reconciled == old(store.reconciled) && store.arriving == old(store.arriving)
      {
        var i := order[n];
        assert order[..n + 1][..n] == order[..n];
        SweptRowsSpareOthers(rows, order[..n], at, MAX_WINDOWS_PER_SWEEP, i);
        ghost var before, allowed := machines, left;
        var grew;
        grew, left := AccrueRow(i, rows[i], at, left);
        assert machines == before[i := SweptRow(rows[i], at, allowed).0];
        if grew { touched := touched + {rows[i].budget}; }
        n := n + 1;
      }
      SpentAllowance(rows, order, at, n, left);
      SpentBillsNothing(old(store.ledger), rows, order, at, n, left);
      assert order[..|order|] == order;
      SweptRowsTake(rows, order, at, MAX_WINDOWS_PER_SWEEP);
      FoldTouched(touched);
    }

    /** One fold per budget whose ledger grew. */
    method FoldTouched(budgets: set<nat>)
      modifies store
      ensures old(store.ledger) <= store.ledger
      ensures old(store.reconciled) <= store.reconciled
      ensures forall budget :: budget in store.reconciled[|old(store.reconciled)|..] <==> budget in budgets
      ensures |store.reconciled| == |old(store.reconciled)| + |budgets|
      ensures old(store.arriving) == [] ==> store.arriving == [] && store.ledger == old(store.ledger)
    {
      var touched := budgets;
      ghost var was := store.reconciled;
      while touched != {}
        invariant touched <= budgets
        invariant old(store.ledger) <= store.ledger
        invariant old(store.arriving) == [] ==> store.arriving == [] && store.ledger == old(store.ledger)
        invariant was <= store.reconciled && |store.reconciled| + |touched| == |was| + |budgets|
        invariant forall budget :: budget in store.reconciled[|was|..] <==> budget in budgets - touched
        decreases touched
      {
        var budget :| budget in touched;
        touched := touched - {budget};
        ghost var before := store.reconciled;
        var view := store.Reconcile(budget);
        assert store.reconciled[|was|..] == before[|was|..] + [budget];
      }
    }

    /** One row's compute meter, then its storage meter. */
    method AccrueRow(i: nat, row: MachineRow, at: nat, windowsLeft: nat) returns (grew: bool, left: nat)
      requires i < |machines| && machines[i] == row
      modifies this, store
      ensures |machines| == |old(machines)|
      ensures machines == old(machines)[i := machines[i]]
      ensures (machines[i], left) == SweptRow(row, at, windowsLeft)
      ensures store.ledger == BilledRow(old(store.ledger), i, row, at, windowsLeft)
      ensures grew <==> Grew(i, row, at, windowsLeft)
      ensures store.reconciled == old(store.reconciled) && store.arriving == old(store.arriving)
    {
      hide WindowRows, Owed, AdvancedRow, MeterOf;
      NoRows(store.ledger);
      grew, left := false, windowsLeft;
      var compute := MeterOf(row, Compute);
      if compute.Some? {
        grew, left := AccrueMeter(i, row, Compute, compute.value, at, left);
      }
      var mid := machines[i];
      SweptMeterTakes(row, Compute, at, windowsLeft);
      var storage := MeterOf(row, Storage);
      if storage.Some? {
        var more;
        more, left := AccrueMeter(i, mid, Storage, storage.value, at, left);
        grew := grew || more;
      }
    }
  }

  lemma NothingOwed(m: Meter, at: nat, left: nat)
    requires Reach(m, Target(m, at), Min(left, Owed(m, at))) == m.cursor
    ensures Min(left, Owed(m, at)) == 0
  {
    hide Target;
  }

  lemma NoRows(ledger: seq<SpendRow>)
    ensures InsertRows(ledger, []) == ledger
  {
  }

  /** With the allowance spent, the rows not reached are left as they were. */
  lemma {:induction false} SpentAllowance(machines: seq<MachineRow>, order: seq<nat>, at: nat, n: nat, left: nat)
    requires Listed(machines, order) && Once(order) && n <= |order|
    requires SweptRows(machines, order[..n], at, MAX_WINDOWS_PER_SWEEP).1 == left
    requires left == 0 || n == |order|
    ensures SweptRows(machines, order[..n], at, MAX_WINDOWS_PER_SWEEP)
         == SweptRows(machines, order, at, MAX_WINDOWS_PER_SWEEP)
    decreases |order| - n
  {
    hide SweptRow;
    if n == |order| {
      assert order[..n] == order;
    } else {
      assert order[..n + 1][..n] == order[..n];
      var ms := SweptRows(machines, order[..n], at, MAX_WINDOWS_PER_SWEEP).0;
      NothingToSpend(ms[order[n]], at);
      assert ms[order[n] := ms[order[n]]] == ms;
      SpentAllowance(machines, order, at, n + 1, left);
    }
  }

  /** And nothing more is billed. */
  lemma {:induction false} SpentBillsNothing(ledger: seq<SpendRow>, machines: seq<MachineRow>, order: seq<nat>, at: nat, n: nat, left: nat)
    requires Listed(machines, order) && Once(order) && n <= |order|
    requires SweptRows(machines, order[..n], at, MAX_WINDOWS_PER_SWEEP).1 == left
    requires left == 0 || n == |order|
    ensures SweptLedger(ledger, machines, order[..n], at, MAX_WINDOWS_PER_SWEEP)
         == SweptLedger(ledger, machines, order, at, MAX_WINDOWS_PER_SWEEP)
    decreases |order| - n
  {
    hide SweptRow, BilledRow, Grew;
    if n == |order| {
      assert order[..n] == order;
    } else {
      assert order[..n + 1][..n] == order[..n];
      NothingToSpend(SweptRows(machines, order[..n], at, MAX_WINDOWS_PER_SWEEP).0[order[n]], at);
      NothingToBill(SweptLedger(ledger, machines, order[..n], at, MAX_WINDOWS_PER_SWEEP).0, order[n], machines[order[n]], at);
      SpentBillsNothing(ledger, machines, order, at, n + 1, left);
    }
  }

  lemma NothingToBill(ledger: seq<SpendRow>, i: nat, row: MachineRow, at: nat)
    ensures BilledRow(ledger, i, row, at, 0) == ledger && !Grew(i, row, at, 0)
  {
    NoRows(ledger);
  }

  lemma NothingToSpend(row: MachineRow, at: nat)
    ensures SweptRow(row, at, 0) == (row, 0)
  {
  }
}
