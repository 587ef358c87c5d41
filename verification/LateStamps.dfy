/** What a stamp that lags its statement comes to: restarting a machine reads the clock and then
    sends the update (crates/api/src/machines.rs:1756-1761), and a sweep may bill past that time
    in between. The meter then counts again from before what was billed. */
module LateStamps {
  import opened Prelude
  import opened BudgetTables
  import opened BudgetRuns
  import opened Metering
  import opened MeterRuns
  import opened MeterBills
  import opened OffMinute
  import opened BilledInFull
  import opened Dropped

  /** A restart whose stamp lies behind what has been billed, by no whole number of minutes; each
      second costs at least a microdollar. */
  predicate LagsBilled(steps: seq<WorldStep>, machine: nat, stamp: nat)
  {
    var legs := LegsAfter(steps, machine, Compute);
    && OnTime(steps, machine, Compute) && Counts(Play(steps), machine, Compute)
    && legs != []
    && var leg := legs[|legs| - 1];
       && leg.steady && leg.hourly >= SECONDS_PER_HOUR
       && leg.base <= stamp < leg.reached && (leg.reached - stamp) % WINDOW_SECONDS != 0
       && Play(steps).now + WINDOW_SECONDS <= U64_MAX
  }

  /** The last window of a leg that has been billed at all is on the ledger. */
  lemma LastWindow(steps: seq<WorldStep>, machine: nat) returns (from: nat)
    requires OnTime(steps, machine, Compute) && LegsAfter(steps, machine, Compute) != []
    requires var legs := LegsAfter(steps, machine, Compute); var leg := legs[|legs| - 1];
      leg.steady && leg.hourly >= SECONDS_PER_HOUR && leg.base < leg.reached
    ensures var legs := LegsAfter(steps, machine, Compute); var leg := legs[|legs| - 1];
      leg.base <= from < leg.reached && Window(machine, Compute, from, leg.reached) in Keys(LedgerAfter(steps))
  {
    hide Play, RowsPriced, LegCovered, RowsInLegs, LegsInOrder, ColumnsInv, ReadFloor, BatchFloor, Keys, IntervalCost;
    MeterHolds(steps, machine, Compute);
    PlayKeepsFloor(steps);
    var ledger, legs := LedgerAfter(steps), LegsAfter(steps, machine, Compute);
    var leg := legs[|legs| - 1];
    assert MeterFloor(Play(steps), machine, Compute);
    assert LegFloor(ledger, machine, Compute, legs, |legs| - 1);
    assert LegInv(legs, |legs| - 1, Play(steps).now);
    var n: nat :| Reaches(ledger, machine, Compute, leg, leg.reached, n);
    from :| Reaches(ledger, machine, Compute, leg, from, n - 1) && Linked(ledger, machine, Compute, leg, from, leg.reached);
    ChainStartsAtBase(ledger, machine, Compute, leg, from, n - 1);
    SecondsCost(leg.hourly, leg.origin, from, leg.reached);
  }

  lemma RestartedMeter(w: World, machine: nat, stamp: nat)
    requires machine < |w.machines| == |w.legs| && stamp <= w.now && MeterOf(w.machines[machine], Compute).Some?
    ensures var after := Act(w, Live(machine, Restarted(Running), stamp));
      && after.books == w.books && after.now == w.now && after.readings == w.readings && after.batches == w.batches
      && |after.machines| == |after.legs| == |w.machines|
      && MeterOf(after.machines[machine], Compute) == Some(Meter(MeterOf(w.machines[machine], Compute).value.hourly, stamp, stamp))
  {
    hide Timely;
  }

  /** One sweep of a meter takes `n` windows. */
  lemma OneSweep(w: World, machine: nat, m: Meter, n: nat) returns (steps: seq<WorldStep>)
    requires machine < |w.machines| == |w.legs| && MeterOf(w.machines[machine], Compute) == Some(m)
    requires 0 < n <= Owed(m, w.now)
    ensures ActAll(w, steps).books.tables.ledger
         == InsertRows(w.books.tables.ledger, WindowRows(w.machines[machine].budget, machine, Compute, m, Target(m, w.now), n))
  {
    hide Act, ActAll, WindowRows, InsertRows, Target, Owed, MeterOf, AdvancedRow, Reach;
    SelectedIs(w, w.now);
    var w1 := Act(w, Select(w.now));
    ComposedIs(w1, |w.readings|, machine, Compute, n, m, w.now);
    var w2 := Act(w1, Compose(|w.readings|, machine, Compute, n));
    ExecutedIs(w2, |w.batches|);
    ActFirst(w, Select(w.now));
    ActOne(w, [Select(w.now)], Compose(|w.readings|, machine, Compute, n));
    ActOne(w, [Select(w.now)] + [Compose(|w.readings|, machine, Compute, n)], Execute(|w.batches|));
    steps := [Select(w.now)] + [Compose(|w.readings|, machine, Compute, n)] + [Execute(|w.batches|)];
  }

  /** Windows from a stamp behind `reached` pass over its last instant, and end elsewhere. */
  lemma WindowOver(stamp: nat, reached: nat, hourly: nat, at: nat) returns (q: nat)
    requires stamp < reached && (reached - stamp) % WINDOW_SECONDS != 0 && reached + WINDOW_SECONDS <= at <= U64_MAX
    ensures Boundary(stamp, q) < reached < Boundary(stamp, q + 1)
    ensures var m := Meter(hourly, stamp, stamp);
      q + 1 <= Owed(m, at) && Boundary(stamp, q + 1) <= Target(m, at)
  {
    q := (reached - stamp) / WINDOW_SECONDS;
  }

  /** Such a restart, and one sweep, bill an instant twice. (A stamp a whole number of minutes
      behind cuts windows that are on the ledger already, under the same keys.) */
  lemma LateRestartBillsTwice(steps: seq<WorldStep>, machine: nat, stamp: nat) returns (more: seq<WorldStep>)
    requires LagsBilled(steps, machine, stamp)
    ensures var legs := LegsAfter(steps, machine, Compute);
      TwiceBilled(LedgerAfter(steps + more), machine, Compute, legs[|legs| - 1].base)
  {
    hide Play, Act, ActAll, WindowRows, InsertRows, Target, Owed, TwiceBilled, Keys, HasRow, IntervalCost, MeterOf;
    var w, legs := Play(steps), LegsAfter(steps, machine, Compute);
    var leg := legs[|legs| - 1];
    LegsMatch(steps);
    CurrentMeter(steps, machine);
    var from := LastWindow(steps, machine);
    var restart, tick := Live(machine, Restarted(Running), stamp), Tick(w.now + WINDOW_SECONDS);
    RestartedMeter(w, machine, stamp);
    var w1 := Act(w, restart);
    TickedIs(w1, w.now + WINDOW_SECONDS);
    var w2 := Act(w1, tick);
    var m := Meter(leg.hourly, stamp, stamp);
    var q := WindowOver(stamp, leg.reached, leg.hourly, w2.now);
    var sweep := OneSweep(w2, machine, m, q + 1);
    PlayOne(steps, restart);
    PlayOne(steps + [restart], tick);
    PlayOn(steps + [restart] + [tick], sweep);
    more := [restart] + [tick] + sweep;
    assert steps + more == steps + [restart] + [tick] + sweep;
    var rows := WindowRows(w2.machines[machine].budget, machine, Compute, m, Target(m, w2.now), q + 1);
    SecondsCost(leg.hourly, stamp, Boundary(stamp, q), Boundary(stamp, q + 1));
    WindowIsARow(w2.machines[machine].budget, machine, Compute, m, Target(m, w2.now), q + 1, q);
    var before, after := LedgerAfter(steps), LedgerAfter(steps + more);
    InsertedKeysLand(before, rows, Window(machine, Compute, Boundary(stamp, q), Boundary(stamp, q + 1)));
    InsertsGrow(before, rows);
    KeysGrow(before, after);
    KeysTwiceBilled(after, machine, Compute, leg.base,
      Window(machine, Compute, from, leg.reached), Window(machine, Compute, Boundary(stamp, q), Boundary(stamp, q + 1)));
  }

  lemma InsertsGrow(ledger: seq<SpendRow>, rows: seq<SpendRow>)
    ensures ledger <= InsertRows(ledger, rows)
  {
  }

  lemma CurrentMeter(steps: seq<WorldStep>, machine: nat)
    requires OnTime(steps, machine, Compute) && Counts(Play(steps), machine, Compute)
    ensures var legs := LegsAfter(steps, machine, Compute);
      && legs != []
      && var leg := legs[|legs| - 1];
         leg.reached <= Play(steps).now && MeterOf(Play(steps).machines[machine], Compute).value.hourly == leg.hourly
  {
    hide Play, LegCovered, RowsInLegs, LegsInOrder;
    MeterHolds(steps, machine, Compute);
    var legs := LegsAfter(steps, machine, Compute);
    assert LegInv(legs, |legs| - 1, Play(steps).now);
  }

  const SWEPT: seq<WorldStep> :=
    [AddMachine(0)] + [Live(0, Built(Running, Some(3_600), None), 0)] + [Tick(60)] + [Select(60)] + [Compose(0, 0, Compute, 1)] + [Execute(0)]

  const BUILT: MachineRow :=
    MachineRow(0, Running, Columns(Some(3_600), Some(0), Some(0)), Columns(None, Some(0), Some(0)))

  const BATCH: MeterBatch :=
    MeterBatch([SpendRow(0, 60, 60, Some(Window(0, Compute, 0, 60)))], 0, Compute, 60, Meter(3_600, 0, 0), 60, 1, 0)

  lemma SweptMachine()
    ensures Play(SWEPT).now == 60 && OnTime(SWEPT, 0, Compute) && Counts(Play(SWEPT), 0, Compute)
    ensures LegsAfter(SWEPT, 0, Compute) == [Leg(3_600, 0, 0, 60, true)]
  {
    hide Play, Do;
    NothingPlayed();
    var s1 := [AddMachine(0)];
    var s2 := s1 + [Live(0, Built(Running, Some(3_600), None), 0)];
    var s3 := s2 + [Tick(60)];
    var s4 := s3 + [Select(60)];
    var s5 := s4 + [Compose(0, 0, Compute, 1)];
    assert [] + [AddMachine(0)] == s1;
    PlayOne([], AddMachine(0));
    PlayOne(s1, Live(0, Built(Running, Some(3_600), None), 0));
    assert Play(s2).machines == [BUILT];
    PlayOne(s2, Tick(60));
    PlayOne(s3, Select(60));
    PlayOne(s4, Compose(0, 0, Compute, 1));
    OneWindow();
    assert Play(s5).batches == [BATCH];
    PlayOne(s5, Execute(0));
    assert Play(SWEPT).machines == [BUILT.(compute := BUILT.compute.(cursor := Some(60)))];
  }

  lemma NothingPlayed()
    ensures Play([]) == Begin()
  {
  }

  lemma OneWindow()
    ensures Target(Meter(3_600, 0, 0), 60) == 60 && Owed(Meter(3_600, 0, 0), 60) == 1
    ensures Drain(0, 0, Compute, Meter(3_600, 0, 0), 60, 0, 1, []) == (BATCH.rows, 60, 0)
  {
    assert IntervalCost(3_600, 0, 0, 60) == 60;
    assert [] + BATCH.rows == BATCH.rows;
    assert Drain(0, 0, Compute, Meter(3_600, 0, 0), 60, 60, 0, BATCH.rows) == (BATCH.rows, 60, 0);
  }

  /** A machine swept through its first minute and restarted with the stamp of the second before. */
  lemma RestartedLateBillsTwice()
    ensures exists steps :: TwiceBilled(LedgerAfter(steps), 0, Compute, 0)
  {
    hide Play, TwiceBilled;
    SweptMachine();
    var more := LateRestartBillsTwice(SWEPT, 0, 59);
    assert TwiceBilled(LedgerAfter(SWEPT + more), 0, Compute, 0);
  }
}
