/** What a leg has been billed through is billed in full: one that did not begin on a whole
    minute may be billed more than once for an instant (OffMinute), but from where it began to
    where it has been billed through there is always a chain of windows, one after another,
    each on the ledger unless it costs nothing. What lies beyond, up to where the next leg
    begins, is billed by nobody (Dropped). */
module BilledInFull {
  import opened Prelude
  import opened BudgetTables
  import opened BudgetRuns
  import opened Metering
  import opened MeterRuns
  import opened MeterBills

  /** A window that is on the ledger or costs nothing. */
  predicate Linked(ledger: seq<SpendRow>, machine: nat, kind: Kind, leg: Leg, from: nat, end: nat)
  {
    from < end && (IntervalCost(leg.hourly, leg.origin, from, end) == 0 || Window(machine, kind, from, end) in Keys(ledger))
  }

  /** A chain of `n` such windows from where the leg began to `x`. */
  ghost predicate Reaches(ledger: seq<SpendRow>, machine: nat, kind: Kind, leg: Leg, x: nat, n: nat)
    decreases n
  {
    if n == 0 then x == leg.base
    else exists p: nat :: Reaches(ledger, machine, kind, leg, p, n - 1) && Linked(ledger, machine, kind, leg, p, x)
  }

  ghost predicate Chained(ledger: seq<SpendRow>, machine: nat, kind: Kind, leg: Leg, x: nat)
  {
    exists n: nat :: Reaches(ledger, machine, kind, leg, x, n)
  }

  /** Every row of a leg is charged what its window costs. */
  predicate RowsPriced(ledger: seq<SpendRow>, machine: nat, kind: Kind, leg: Leg, hi: Option<nat>)
  {
    forall row :: row in ledger && BillsIn(row, machine, kind, leg.base, hi) ==> AtPrice(row, leg)
  }

  predicate AtPrice(row: SpendRow, leg: Leg)
  {
    row.key.Some? && row.key.value.Window?
      && row.amount == IntervalCost(leg.hourly, leg.origin, row.key.value.start, row.key.value.end)
  }

  // ── A chain bounds the bill from below ──

  lemma {:induction false} OneRowBills(ledger: seq<SpendRow>, machine: nat, kind: Kind, leg: Leg, from: nat, end: nat, hi: nat)
    requires Window(machine, kind, from, end) in Keys(ledger) && from < hi
    requires forall row :: row in ledger && BillsIn(row, machine, kind, from, Some(hi)) ==> AtPrice(row, leg)
    ensures BilledIn(ledger, machine, kind, from, Some(hi)) >= IntervalCost(leg.hourly, leg.origin, from, end)
  {
    hide IntervalCost;
    var n := |ledger| - 1;
    var i :| 0 <= i < |ledger| && ledger[i].key.Some? && ledger[i].key.value == Window(machine, kind, from, end);
    if i == n {
      assert ledger[n] in ledger;
    } else {
      assert ledger[..n][i] == ledger[i];
      OneRowBills(ledger[..n], machine, kind, leg, from, end, hi);
    }
  }

  lemma {:induction false} ChainBills(ledger: seq<SpendRow>, machine: nat, kind: Kind, leg: Leg, hi: Option<nat>, x: nat, n: nat)
    requires Reaches(ledger, machine, kind, leg, x, n) && RowsPriced(ledger, machine, kind, leg, hi)
    requires hi.Some? ==> x <= hi.value
    ensures leg.base <= x
    ensures BilledIn(ledger, machine, kind, leg.base, Some(x)) >= IntervalCost(leg.hourly, leg.origin, leg.base, x)
  {
    hide IntervalCost, Keys, BilledIn;
    if n == 0 {
      NothingCosts(leg);
    } else {
      var p: nat :| Reaches(ledger, machine, kind, leg, p, n - 1) && Linked(ledger, machine, kind, leg, p, x);
      ChainBills(ledger, machine, kind, leg, hi, p, n - 1);
      BilledInSplits(ledger, machine, kind, leg.base, p, Some(x));
      CostsTelescope(leg.hourly, leg.origin, leg.base, p, x);
      if IntervalCost(leg.hourly, leg.origin, p, x) != 0 {
        OneRowBills(ledger, machine, kind, leg, p, x, x);
      }
    }
  }

  lemma NothingCosts(leg: Leg)
    ensures IntervalCost(leg.hourly, leg.origin, leg.base, leg.base) == 0
  {
  }

  lemma ChainedLegBills(ledger: seq<SpendRow>, machine: nat, kind: Kind, leg: Leg, hi: Option<nat>)
    requires Chained(ledger, machine, kind, leg, leg.reached) && RowsPriced(ledger, machine, kind, leg, hi)
    requires hi.Some? ==> leg.reached <= hi.value
    ensures BilledIn(ledger, machine, kind, leg.base, hi) >= LegPrice(leg)
  {
    hide IntervalCost, Keys, BilledIn, RowsPriced;
    var n: nat :| Reaches(ledger, machine, kind, leg, leg.reached, n);
    ChainBills(ledger, machine, kind, leg, hi, leg.reached, n);
    BilledInSplits(ledger, machine, kind, leg.base, leg.reached, hi);
  }

  // ── Chains last ──

  predicate SameLine(leg: Leg, after: Leg)
  {
    after.hourly == leg.hourly && after.origin == leg.origin && after.base == leg.base
  }

  lemma {:induction false} ReachStays(before: seq<SpendRow>, after: seq<SpendRow>, machine: nat, kind: Kind, leg: Leg, later: Leg, x: nat, n: nat)
    requires Keys(before) <= Keys(after) && SameLine(leg, later) && Reaches(before, machine, kind, leg, x, n)
    ensures Reaches(after, machine, kind, later, x, n)
  {
    hide IntervalCost, Keys;
    if n != 0 {
      var p: nat :| Reaches(before, machine, kind, leg, p, n - 1) && Linked(before, machine, kind, leg, p, x);
      ReachStays(before, after, machine, kind, leg, later, p, n - 1);
      assert Linked(after, machine, kind, later, p, x);
    }
  }

  lemma ChainStays(before: seq<SpendRow>, after: seq<SpendRow>, machine: nat, kind: Kind, leg: Leg, later: Leg, x: nat)
    requires Keys(before) <= Keys(after) && SameLine(leg, later) && Chained(before, machine, kind, leg, x)
    ensures Chained(after, machine, kind, later, x)
  {
    hide Keys, Reaches;
    var n: nat :| Reaches(before, machine, kind, leg, x, n);
    ReachStays(before, after, machine, kind, leg, later, x, n);
  }

  lemma NextLink(ledger: seq<SpendRow>, machine: nat, kind: Kind, leg: Leg, p: nat, x: nat)
    requires Chained(ledger, machine, kind, leg, p) && Linked(ledger, machine, kind, leg, p, x)
    ensures Chained(ledger, machine, kind, leg, x)
  {
    hide Linked;
    var n: nat :| Reaches(ledger, machine, kind, leg, p, n);
    assert Reaches(ledger, machine, kind, leg, x, n + 1);
  }

  /** A batch composed from a chained cursor carries the chain to its end. */
  lemma {:induction false} BatchChains(ledger: seq<SpendRow>, budget: nat, machine: nat, kind: Kind, leg: Leg, m: Meter, target: nat, n: nat)
    requires Chained(ledger, machine, kind, leg, m.cursor) && m.hourly == leg.hourly && m.startedAt == leg.origin
    ensures Chained(InsertRows(ledger, WindowRows(budget, machine, kind, m, target, n)), machine, kind, leg, Reach(m, target, n))
  {
    hide Chained, IntervalCost, Keys, InsertRow;
    if n != 0 {
      BatchChains(ledger, budget, machine, kind, leg, m, target, n - 1);
      var earlier, rows := WindowRows(budget, machine, kind, m, target, n - 1), WindowRows(budget, machine, kind, m, target, n);
      var from, end := Reach(m, target, n - 1), Reach(m, target, n);
      var l, l' := InsertRows(ledger, earlier), InsertRows(ledger, rows);
      if rows == earlier {
        assert from < end ==> Linked(l, machine, kind, leg, from, end);
      } else {
        assert rows[..|rows| - 1] == earlier;
        KeysGrow(l, l');
        ChainStays(l, l', machine, kind, leg, leg, from);
        KeysLand(l, rows[|rows| - 1]);
        assert from < end ==> Linked(l', machine, kind, leg, from, end);
      }
      if from < end { NextLink(l', machine, kind, leg, from, end); }
    }
  }

  lemma KeysLand(ledger: seq<SpendRow>, row: SpendRow)
    requires row.key.Some?
    ensures row.key.value in Keys(InsertRow(ledger, row))
  {
    if row.key.value !in Keys(ledger) { KeysAfterInsert(ledger, row); }
  }

  lemma {:induction false} RowsAtPrice(budget: nat, machine: nat, kind: Kind, leg: Leg, m: Meter, target: nat, n: nat)
    requires m.hourly == leg.hourly && m.startedAt == leg.origin
    ensures forall row :: row in WindowRows(budget, machine, kind, m, target, n) ==> AtPrice(row, leg)
  {
    hide IntervalCost;
    if n != 0 {
      RowsAtPrice(budget, machine, kind, leg, m, target, n - 1);
    }
  }

  lemma {:induction false} InsertedFrom(ledger: seq<SpendRow>, rows: seq<SpendRow>, row: SpendRow)
    requires row in InsertRows(ledger, rows)
    ensures row in ledger || row in rows
  {
    hide Keys;
    if rows != [] && row !in ledger {
      var init := rows[..|rows| - 1];
      if row in InsertRows(ledger, init) {
        InsertedFrom(ledger, init, row);
      } else {
        assert row == rows[|rows| - 1];
      }
    }
  }

  // ── In every run ──

  ghost predicate LegFloor(ledger: seq<SpendRow>, machine: nat, kind: Kind, legs: seq<Leg>, j: nat)
    requires j < |legs|
  {
    legs[j].steady ==>
      RowsPriced(ledger, machine, kind, legs[j], Until(legs, j)) && Chained(ledger, machine, kind, legs[j], legs[j].reached)
  }

  ghost predicate CursorFloor(ledger: seq<SpendRow>, machine: nat, kind: Kind, legs: seq<Leg>, j: nat, cursor: nat)
  {
    j < |legs| && legs[j].steady ==> Chained(ledger, machine, kind, legs[j], cursor)
  }

  ghost predicate MeterFloor(w: World, i: nat, kind: Kind)
    requires i < |w.legs|
  {
    (i, kind) !in w.late ==> LegsFloor(w.books.tables.ledger, i, kind, LegsOf(w.legs[i], kind))
  }

  ghost predicate LegsFloor(ledger: seq<SpendRow>, machine: nat, kind: Kind, legs: seq<Leg>)
  {
    forall j: nat :: j < |legs| ==> LegFloor(ledger, machine, kind, legs, j)
  }

  ghost predicate ReadFloor(w: World, r: Reading, i: nat, kind: Kind)
    requires i < |w.legs|
  {
    ReadOnTime(w, r, i, kind) ==>
      CursorFloor(w.books.tables.ledger, i, kind, LegsOf(w.legs[i], kind), |LegsOf(r.legs[i], kind)| - 1,
                  MeterOf(r.machines[i], kind).value.cursor)
  }

  predicate ReadOnTime(w: World, r: Reading, i: nat, kind: Kind)
  {
    (i, kind) !in w.late && i < |r.machines| && i < |r.legs| && MeterOf(r.machines[i], kind).Some? && LegsOf(r.legs[i], kind) != []
  }

  ghost predicate BatchFloor(w: World, b: MeterBatch)
  {
    b.machine < |w.legs| && (b.machine, b.kind) !in w.late ==>
      CursorFloor(w.books.tables.ledger, b.machine, b.kind, LegsOf(w.legs[b.machine], b.kind), b.leg, b.meter.cursor)
  }

  ghost predicate FloorInv(w: World)
  {
    && (forall i: nat, kind :: i < |w.legs| ==> MeterFloor(w, i, kind))
    && (forall r: nat, i: nat, kind :: r < |w.readings| && i < |w.legs| ==> ReadFloor(w, w.readings[r], i, kind))
    && (forall b: nat :: b < |w.batches| ==> BatchFloor(w, w.batches[b]))
  }

  /** The ledger grew and legs moved on. */
  predicate Onward(w: World, after: World)
  {
    && |w.legs| <= |after.legs| && w.late <= after.late && Keys(w.books.tables.ledger) <= Keys(after.books.tables.ledger)
    && forall i, kind :: 0 <= i < |w.legs| ==> LegsOnward(LegsOf(w.legs[i], kind), LegsOf(after.legs[i], kind))
  }

  predicate LegsOnward(legs: seq<Leg>, later: seq<Leg>)
  {
    |legs| <= |later| && forall j: nat :: j < |legs| ==> SameLeg(legs, later, j)
  }

  lemma CursorStays(before: seq<SpendRow>, after: seq<SpendRow>, machine: nat, kind: Kind, legs: seq<Leg>, later: seq<Leg>, j: nat, cursor: nat)
    requires Keys(before) <= Keys(after) && LegsOnward(legs, later) && j < |legs|
    requires CursorFloor(before, machine, kind, legs, j, cursor)
    ensures CursorFloor(after, machine, kind, later, j, cursor)
  {
    hide Keys, Chained;
    assert SameLeg(legs, later, j);
    if later[j].steady {
      ChainStays(before, after, machine, kind, legs[j], later[j], cursor);
    }
  }

  lemma ReadStays(w: World, after: World, r: Reading, i: nat, kind: Kind)
    requires Onward(w, after) && i < |w.legs| && ReadFloor(w, r, i, kind)
    requires ReadOnTime(w, r, i, kind) ==> |LegsOf(r.legs[i], kind)| <= |LegsOf(w.legs[i], kind)|
    ensures ReadFloor(after, r, i, kind)
  {
    hide Keys, Chained, CursorFloor, LegsOnward, MeterOf;
    if ReadOnTime(after, r, i, kind) {
      CursorStays(w.books.tables.ledger, after.books.tables.ledger, i, kind, LegsOf(w.legs[i], kind), LegsOf(after.legs[i], kind),
        |LegsOf(r.legs[i], kind)| - 1, MeterOf(r.machines[i], kind).value.cursor);
    }
  }

  lemma BatchStays(w: World, after: World, b: MeterBatch)
    requires Onward(w, after) && b.machine < |w.legs| && BatchFloor(w, b)
    requires (b.machine, b.kind) !in w.late ==> b.leg < |LegsOf(w.legs[b.machine], b.kind)|
    ensures BatchFloor(after, b)
  {
    hide Keys, Chained, CursorFloor, LegsOnward;
    if (b.machine, b.kind) !in after.late {
      CursorStays(w.books.tables.ledger, after.books.tables.ledger, b.machine, b.kind,
        LegsOf(w.legs[b.machine], b.kind), LegsOf(after.legs[b.machine], b.kind), b.leg, b.meter.cursor);
    }
  }

  lemma ActGoesOnward(w: World, step: WorldStep)
    requires |w.machines| == |w.legs|
    ensures Onward(w, Act(w, step))
  {
    hide Act, SameLeg, LegsOf, Keys;
    var after := Act(w, step);
    ActGrowsLedger(w, step);
    KeysGrow(w.books.tables.ledger, after.books.tables.ledger);
    ActGrowsLegs(w, step);
    forall i, kind | 0 <= i < |w.legs| ensures LegsOnward(LegsOf(w.legs[i], kind), LegsOf(after.legs[i], kind)) {
      ActMovesLegs(w, step, i, kind);
    }
  }

  lemma ActGrowsLegs(w: World, step: WorldStep)
    ensures |w.legs| <= |Act(w, step).legs| && w.late <= Act(w, step).late
  {
    hide Do, Lived, Drain, ContinuedLegs, BilledThrough;
  }

  // ── Each step ──

  /** A leg nothing was billed to in this step. */
  lemma LegFloorStays(before: seq<SpendRow>, after: seq<SpendRow>, machine: nat, kind: Kind, legs: seq<Leg>, later: seq<Leg>, j: nat)
    requires Keys(before) <= Keys(after) && LegsOnward(legs, later) && j < |legs| && LegFloor(before, machine, kind, legs, j)
    requires later[j].reached == legs[j].reached
    requires Until(legs, j).Some? ==> Until(later, j) == Until(legs, j)
    requires forall row :: row in after && Bills(row, machine, kind) ==> row in before
    ensures LegFloor(after, machine, kind, later, j)
  {
    hide Keys, Chained, IntervalCost, OfMeter;
    assert SameLeg(legs, later, j);
    if later[j].steady {
      ChainStays(before, after, machine, kind, legs[j], later[j], legs[j].reached);
    }
  }

  lemma OtherLegFloorStays(before: seq<SpendRow>, after: seq<SpendRow>, machine: nat, kind: Kind, legs: seq<Leg>, later: seq<Leg>, j: nat)
    requires Keys(before) <= Keys(after) && LegsOnward(legs, later) && j < |legs| && LegFloor(before, machine, kind, legs, j)
    requires later[j].reached == legs[j].reached && Until(later, j) == Until(legs, j)
    requires forall row :: row in after && BillsIn(row, machine, kind, legs[j].base, Until(legs, j)) ==> row in before
    ensures LegFloor(after, machine, kind, later, j)
  {
    hide Keys, Chained, IntervalCost, OfMeter, Within;
    assert SameLeg(legs, later, j);
    if later[j].steady {
      ChainStays(before, after, machine, kind, legs[j], later[j], legs[j].reached);
    }
  }

  lemma FreshLegFloor(ledger: seq<SpendRow>, machine: nat, kind: Kind, legs: seq<Leg>, j: nat)
    requires j < |legs| && legs[j].reached == legs[j].base
    requires forall row :: row in ledger && Bills(row, machine, kind) ==> row.key.value.start < legs[j].base
    ensures LegFloor(ledger, machine, kind, legs, j)
  {
    hide Keys, IntervalCost, OfMeter;
    assert Reaches(ledger, machine, kind, legs[j], legs[j].base, 0);
  }

  /** Steps that bill nobody's meter: the ledger gains no window, and legs are continued. */
  lemma ContinuedFloor(w: World, ledger: seq<SpendRow>, i: nat, kind: Kind, later: seq<Leg>)
    requires WorldInv(w) && i < |w.legs| && (i, kind) !in w.late && MeterFloor(w, i, kind)
    requires Keys(w.books.tables.ledger) <= Keys(ledger)
    requires forall row :: row in ledger && Bills(row, i, kind) ==> row in w.books.tables.ledger
    requires LegsOnward(LegsOf(w.legs[i], kind), later) && ContinuesFrom(LegsOf(w.legs[i], kind), later)
    ensures LegsFloor(ledger, i, kind, later)
  {
    hide Keys, LegFloor, LegsOnward, ReadingInv, BatchInv, Inv, RowsBelong, OfMeter;
    var l, legs := w.books.tables.ledger, LegsOf(w.legs[i], kind);
    assert MeterInv(l, i, kind, ColumnsOf(w.machines[i], kind), legs, w.now);
    forall j: nat | j < |later| ensures LegFloor(ledger, i, kind, later, j) {
      if j < |legs| {
        OnwardBases(legs, later, j);
        LegFloorStays(l, ledger, i, kind, legs, later, j);
      } else {
        AllReachedBy(legs, w.now, later[j].base);
        RowsEnded(l, i, kind, legs, later[j].base);
        FreshLegFloor(ledger, i, kind, later, j);
      }
    }
  }

  lemma OnwardBases(legs: seq<Leg>, later: seq<Leg>, j: nat)
    requires LegsOnward(legs, later) && j < |legs|
    ensures Until(legs, j).Some? ==> Until(later, j) == Until(legs, j)
  {
    if j + 1 < |legs| { assert SameLeg(legs, later, j + 1); }
  }

  /** No leg was billed further, and new ones begin no earlier than anything billed. */
  predicate ContinuesFrom(legs: seq<Leg>, later: seq<Leg>)
  {
    && |legs| <= |later| && (forall j :: 0 <= j < |legs| ==> later[j].reached == legs[j].reached)
    && (forall j :: |legs| <= j < |later| ==>
          later[j].base == later[j].reached && (legs != [] ==> legs[|legs| - 1].reached <= later[j].base))
  }

  lemma LiveContinues(w: World, m: nat, event: Event, stamp: nat, i: nat, kind: Kind)
    requires WorldInv(w) && i < |w.legs| && (i, kind) !in Act(w, Live(m, event, stamp)).late
    ensures ContinuesFrom(LegsOf(w.legs[i], kind), LegsOf(Act(w, Live(m, event, stamp)).legs[i], kind))
  {
    hide MeterInv, ReadingInv, BatchInv, Inv, RowsBelong, Lived, MeterOf;
    if m == i && Payable(event) && stamp <= w.now {
      EventsRewrite(w.machines[i], event, stamp, kind);
      StandsAtCursor(w, i, kind);
      assert Lagging(w, i, Lived(w.machines[i], event, stamp), stamp, kind) == {};
    }
  }

  lemma StandsAtCursor(w: World, i: nat, kind: Kind)
    requires WorldInv(w) && i < |w.legs| && (i, kind) !in w.late
    ensures ColumnsInv(ColumnsOf(w.machines[i], kind), LegsOf(w.legs[i], kind), w.now)
  {
    hide ReadingInv, BatchInv, Inv, RowsBelong, LegsInOrder, RowsInLegs, ColumnsInv;
    assert MeterInv(w.books.tables.ledger, i, kind, ColumnsOf(w.machines[i], kind), LegsOf(w.legs[i], kind), w.now);
  }

  lemma OthersContinue(w: World, step: WorldStep, i: nat, kind: Kind)
    requires |w.machines| == |w.legs| && i < |w.legs| && !step.Live? && !step.Execute?
    ensures i < |Act(w, step).legs| && LegsOf(Act(w, step).legs[i], kind) == LegsOf(w.legs[i], kind)
  {
    hide Do, Drain;
  }

  lemma NobodyBilled(w: World, step: WorldStep, i: nat, kind: Kind)
    requires !step.Execute?
    ensures forall row :: row in Act(w, step).books.tables.ledger && Bills(row, i, kind) ==> row in w.books.tables.ledger
  {
    hide Do, Drain, Lived, InsertRows;
    if step.Budget? && step.step.Insert? {
      InsertIs(w.books, step.step.rows);
      forall row | row in Act(w, step).books.tables.ledger && Bills(row, i, kind) ensures row in w.books.tables.ledger {
        if Unmetered(step.step.rows) { InsertedFrom(w.books.tables.ledger, step.step.rows, row); }
      }
    } else if step.Budget? {
      LedgerOnlyGrowsByInsert(w.books, step.step);
    }
  }

  lemma StepKeepsMeter(w: World, step: WorldStep, i: nat, kind: Kind)
    requires WorldInv(w) && FloorInv(w) && !step.Execute? && i < |w.legs|
    ensures i < |Act(w, step).legs| && MeterFloor(Act(w, step), i, kind)
  {
    hide Act, WorldInv, LegsFloor, ReadFloor, BatchFloor, ContinuesFrom, LegsOf, LegsOnward, Keys, OfMeter;
    LegsMatchMachines(w);
    ActGoesOnward(w, step);
    NobodyBilled(w, step, i, kind);
    if (i, kind) !in Act(w, step).late {
      if step.Live? {
        LiveContinues(w, step.machine, step.event, step.stamp, i, kind);
      } else {
        OthersContinue(w, step, i, kind);
        Standing(LegsOf(w.legs[i], kind));
      }
      ContinuedFloor(w, Act(w, step).books.tables.ledger, i, kind, LegsOf(Act(w, step).legs[i], kind));
    }
  }

  lemma LegsMatchMachines(w: World)
    requires WorldInv(w)
    ensures |w.legs| == |w.machines|
  {
  }

  lemma Standing(legs: seq<Leg>)
    ensures ContinuesFrom(legs, legs)
  {
  }

  /** An executed batch carries its leg's chain to its end, at the leg's price. */
  lemma ExecutedLegFloor(ledger: seq<SpendRow>, b: MeterBatch, budget: nat, legs: seq<Leg>, now: nat)
    requires FromLeg(b.meter, legs, b.leg, b.target, now) && LegFloor(ledger, b.machine, b.kind, legs, b.leg)
    requires CursorFloor(ledger, b.machine, b.kind, legs, b.leg, b.meter.cursor)
    requires b.end == Reach(b.meter, b.target, b.taken)
    requires b.rows == WindowRows(budget, b.machine, b.kind, b.meter, b.target, b.taken)
    ensures LegFloor(InsertRows(ledger, b.rows), b.machine, b.kind, ReachedLegs(legs, b.leg, b.end), b.leg)
  {
    hide Chained, Keys, InsertRows, WindowRows, AtPrice, BillsIn, Reach, OnTheMinute;
    var j := b.leg;
    var leg, later, l := legs[j], ReachedLegs(legs, j, b.end), InsertRows(ledger, b.rows);
    if leg.steady {
      KeysGrow(ledger, l);
      BatchChains(ledger, budget, b.machine, b.kind, leg, b.meter, b.target, b.taken);
      ChainStays(l, l, b.machine, b.kind, leg, later[j], b.end);
      ChainStays(ledger, l, b.machine, b.kind, leg, later[j], leg.reached);
      RowsAtPrice(budget, b.machine, b.kind, leg, b.meter, b.target, b.taken);
      forall row | row in l && BillsIn(row, b.machine, b.kind, leg.base, Until(later, j)) ensures AtPrice(row, later[j]) {
        InsertedFrom(ledger, b.rows, row);
        assert AtPrice(row, leg);
        SamePrice(row, leg, later[j]);
      }
    }
  }

  lemma SamePrice(row: SpendRow, leg: Leg, later: Leg)
    requires AtPrice(row, leg) && SameLine(leg, later)
    ensures AtPrice(row, later)
  {
  }

  lemma ExecutedMeterFloor(w: World, b: MeterBatch, after: World, i: nat, kind: Kind)
    requires WorldInv(w) && FloorInv(w) && BatchInv(b, w) && BatchFloor(w, b) && i < |w.legs| && (i, kind) !in w.late
    requires after.books.tables.ledger == InsertRows(w.books.tables.ledger, b.rows)
    requires after.legs == w.legs[b.machine := BilledThrough(w.legs[b.machine], b.kind, b.leg, b.end)]
    ensures LegsFloor(after.books.tables.ledger, i, kind, LegsOf(after.legs[i], kind))
  {
    hide Keys, LegFloor, ReadFloor, InsertRows, WindowRows, ReachedLegs, RowsOf, MeterInv, ReadingInv, Inv, RowsBelong;
    hide OnTheMinute, CursorFloor, Reach, FromLeg, OfMeter;
    var l, l', legs := w.books.tables.ledger, after.books.tables.ledger, LegsOf(w.legs[i], kind);
    assert MeterFloor(w, i, kind);
    assert MeterInv(l, i, kind, ColumnsOf(w.machines[i], kind), legs, w.now);
    if i == b.machine && kind == b.kind {
      forall j: nat | j < |LegsOf(after.legs[i], kind)| ensures LegFloor(l', i, kind, LegsOf(after.legs[i], kind), j) {
        ReachedKeepsCount(legs, b.leg, b.end);
        LegOfExecutedFloor(l, b, w.machines[b.machine].budget, ColumnsOf(w.machines[i], kind), legs, w.now, j);
      }
    } else {
      BatchRowsBill(b, w.machines[b.machine].budget);
      RowsOfAnother(b.rows, b.machine, b.kind, i, kind);
      forall row | row in l' && Bills(row, i, kind) ensures row in l { InsertedFrom(l, b.rows, row); }
      KeysGrow(l, l');
      forall j: nat | j < |legs| ensures LegFloor(l', i, kind, legs, j) {
        SelfOnward(legs);
        LegFloorStays(l, l', i, kind, legs, legs, j);
      }
      assert LegsOf(after.legs[i], kind) == legs;
    }
  }

  lemma RowsOfAnother(rows: seq<SpendRow>, machine: nat, kind: Kind, i: nat, other: Kind)
    requires (forall row :: row in rows ==> Bills(row, machine, kind)) && (i != machine || other != kind)
    ensures forall row :: row in rows ==> !Bills(row, i, other)
  {
  }

  lemma SelfOnward(legs: seq<Leg>)
    ensures LegsOnward(legs, legs)
  {
  }

  lemma ReachedKeepsCount(legs: seq<Leg>, j: nat, end: nat)
    ensures |ReachedLegs(legs, j, end)| == |legs|
    ensures LegsOnward(legs, ReachedLegs(legs, j, end))
    ensures forall i: nat :: i < |legs| && i != j ==> ReachedLegs(legs, j, end)[i] == legs[i]
    ensures forall i: nat :: i < |legs| ==> Until(ReachedLegs(legs, j, end), i) == Until(legs, i)
  {
    var later := ReachedLegs(legs, j, end);
    forall i: nat | i < |legs| ensures SameLeg(legs, later, i) {}
  }

  lemma LegOfExecutedFloor(ledger: seq<SpendRow>, b: MeterBatch, budget: nat, c: Columns, legs: seq<Leg>, now: nat, j: nat)
    requires MeterInv(ledger, b.machine, b.kind, c, legs, now) && FromLeg(b.meter, legs, b.leg, b.target, now)
    requires j < |legs| && LegFloor(ledger, b.machine, b.kind, legs, j)
    requires CursorFloor(ledger, b.machine, b.kind, legs, b.leg, b.meter.cursor)
    requires b.meter.cursor < b.end == Reach(b.meter, b.target, b.taken)
    requires b.rows == WindowRows(budget, b.machine, b.kind, b.meter, b.target, b.taken)
    ensures LegFloor(InsertRows(ledger, b.rows), b.machine, b.kind, ReachedLegs(legs, b.leg, b.end), j)
  {
    hide Keys, LegFloor, InsertRows, WindowRows, ReachedLegs, LegsOnward, LegInv, LegsInOrder, Until, OnTheMinute, CursorFloor, FromLeg;
    if j == b.leg {
      ExecutedLegFloor(ledger, b, budget, legs, now);
    } else {
      ReachedKeepsCount(legs, b.leg, b.end);
      BatchEnds(b.meter, legs, b.leg, b.target, b.taken, now);
      BatchRowsLie(b, budget, legs, now);
      var l := InsertRows(ledger, b.rows);
      KeysGrow(ledger, l);
      forall row | row in l && BillsIn(row, b.machine, b.kind, legs[j].base, Until(legs, j)) ensures row in ledger {
        InsertedFrom(ledger, b.rows, row);
        if row in b.rows { LegsApart(row.key.value, legs, j, b.leg, b.end, now); }
      }
      OtherLegFloorStays(ledger, l, b.machine, b.kind, legs, ReachedLegs(legs, b.leg, b.end), j);
    }
  }

  /** What a sweep reads now is chained: its cursor is where the last leg has been billed to. */
  lemma FreshReadFloor(w: World, at: nat, i: nat, kind: Kind)
    requires WorldInv(w) && FloorInv(w) && i < |w.legs|
    ensures ReadFloor(w, Reading(at, w.machines, w.legs), i, kind)
  {
    hide Keys, BatchFloor, Chained, RowsPriced, ReadingInv, BatchInv, Inv, RowsBelong, RowsInLegs, LegCovered, LegsInOrder;
    var c, legs := ColumnsOf(w.machines[i], kind), LegsOf(w.legs[i], kind);
    assert MeterFloor(w, i, kind);
    if ReadOnTime(w, Reading(at, w.machines, w.legs), i, kind) {
      StandsAtCursor(w, i, kind);
      assert LegFloor(w.books.tables.ledger, i, kind, legs, |legs| - 1);
      assert CursorFloor(w.books.tables.ledger, i, kind, legs, |legs| - 1, c.cursor.value);
    }
  }

  /** And so is what it composes from it. */
  lemma ComposedFloor(w: World, reading: nat, machine: nat, kind: Kind, left: nat)
    requires WorldInv(w) && FloorInv(w) && Act(w, Compose(reading, machine, kind, left)) != w
    ensures var after := Act(w, Compose(reading, machine, kind, left));
      |after.batches| == |w.batches| + 1 && after.batches[..|w.batches|] == w.batches && BatchFloor(w, after.batches[|w.batches|])
  {
    hide Keys, MeterFloor, CursorFloor, MeterInv, BatchInv, Inv, RowsBelong, Drain, Target, FromLeg;
    var r := w.readings[reading];
    assert ReadingInv(r, w);
    assert ReadMeterInv(r, machine, kind, w);
    assert ReadFloor(w, r, machine, kind);
  }

  // ── Putting the steps together ──

  lemma StepKeepsMeters(w: World, step: WorldStep)
    requires WorldInv(w) && FloorInv(w)
    ensures forall i: nat, kind :: i < |Act(w, step).legs| ==> MeterFloor(Act(w, step), i, kind)
  {
    hide Act, WorldInv, FloorInv, MeterFloor;
    var after := Act(w, step);
    LegsMatchMachines(w);
    ActGoesOnward(w, step);
    forall i: nat, kind | i < |after.legs| ensures MeterFloor(after, i, kind) {
      if i >= |w.legs| {
        NewMachineFloor(w, step, i, kind);
      } else if step.Execute? {
        ExecuteKeepsMeter(w, step.batch, i, kind);
      } else {
        StepKeepsMeter(w, step, i, kind);
      }
    }
  }

  lemma NewMachineFloor(w: World, step: WorldStep, i: nat, kind: Kind)
    requires |w.legs| <= i < |Act(w, step).legs|
    ensures MeterFloor(Act(w, step), i, kind)
  {
    hide Do, Lived, Drain, ContinuedLegs, BilledThrough, LegFloor;
  }

  lemma ExecuteKeepsMeter(w: World, b: nat, i: nat, kind: Kind)
    requires WorldInv(w) && FloorInv(w) && i < |w.legs|
    ensures i < |Act(w, Execute(b)).legs| && MeterFloor(Act(w, Execute(b)), i, kind)
  {
    hide LegsFloor, ReadFloor, BatchFloor, MeterInv, ReadingInv, BatchInv, Inv, RowsBelong, Do, InsertRows, BilledThrough, AdvancedRow;
    if Act(w, Execute(b)) != w {
      assert BatchInv(w.batches[b], w) && BatchFloor(w, w.batches[b]);
      InsertIs(w.books, w.batches[b].rows);
      if (i, kind) !in w.late {
        ExecutedMeterFloor(w, w.batches[b], Act(w, Execute(b)), i, kind);
      }
    }
  }

  lemma StepKeepsReads(w: World, step: WorldStep)
    requires WorldInv(w) && FloorInv(w)
    ensures var after := Act(w, step);
      forall r: nat, i: nat, kind :: r < |after.readings| && i < |after.legs| ==> ReadFloor(after, after.readings[r], i, kind)
  {
    hide Act, MeterFloor, ReadFloor, BatchFloor, MeterInv, BatchInv, Inv, RowsBelong, Onward;
    var after := Act(w, step);
    ActGoesOnward(w, step);
    ReadingsGrow(w, step);
    forall r: nat, i: nat, kind | r < |after.readings| && i < |after.legs| ensures ReadFloor(after, after.readings[r], i, kind) {
      if r < |w.readings| {
        assert ReadingInv(w.readings[r], w);
        OldReadFloor(w, after, w.readings[r], i, kind);
      } else {
        assert step.Select?;
        SelectedFloor(w, step.at, i, kind);
      }
    }
  }

  lemma ReadingsGrow(w: World, step: WorldStep)
    ensures var after := Act(w, step);
      && |w.readings| <= |after.readings| && (step.Select? || after.readings == w.readings)
      && (forall r: nat :: r < |w.readings| ==> after.readings[r] == w.readings[r])
      && |w.batches| <= |after.batches| && (step.Compose? || after.batches == w.batches)
  {
    hide Do, Lived, Drain, ContinuedLegs, BilledThrough;
  }

  lemma OldReadFloor(w: World, after: World, r: Reading, i: nat, kind: Kind)
    requires WorldInv(w) && FloorInv(w) && Onward(w, after) && ReadingInv(r, w) && i < |after.legs|
    requires i < |w.legs| ==> ReadFloor(w, r, i, kind)
    ensures ReadFloor(after, r, i, kind)
  {
    hide MeterFloor, CursorFloor, BatchFloor, MeterInv, BatchInv, Inv, RowsBelong, Onward, Keys, FromLeg;
    if i < |r.machines| {
      assert ReadMeterInv(r, i, kind, w);
      ReadStays(w, after, r, i, kind);
    }
  }

  lemma SelectedFloor(w: World, at: nat, i: nat, kind: Kind)
    requires WorldInv(w) && FloorInv(w) && i < |Act(w, Select(at)).legs|
    ensures var after := Act(w, Select(at));
      forall r: nat :: |w.readings| <= r < |after.readings| ==> ReadFloor(after, after.readings[r], i, kind)
  {
    hide MeterFloor, ReadFloor, BatchFloor, MeterInv, ReadingInv, BatchInv, Inv, RowsBelong;
    var after := Act(w, Select(at));
    if after != w {
      FreshReadFloor(w, at, i, kind);
      SameFloor(w, after, Reading(at, w.machines, w.legs), i, kind);
    }
  }

  lemma SameFloor(w: World, after: World, r: Reading, i: nat, kind: Kind)
    requires i < |w.legs| && after.legs == w.legs && after.books == w.books && after.late == w.late && ReadFloor(w, r, i, kind)
    ensures ReadFloor(after, r, i, kind)
  {
    hide CursorFloor;
  }

  lemma StepKeepsBatches(w: World, step: WorldStep)
    requires WorldInv(w) && FloorInv(w)
    ensures var after := Act(w, step); forall b: nat :: b < |after.batches| ==> BatchFloor(after, after.batches[b])
  {
    hide Act, MeterFloor, ReadFloor, BatchFloor, MeterInv, ReadingInv, Inv, RowsBelong, Onward, WindowRows, OnTheMinute;
    var after := Act(w, step);
    ActGoesOnward(w, step);
    ReadingsGrow(w, step);
    if step.Compose? && after != w {
      ComposedFloor(w, step.reading, step.machine, step.kind, step.left);
      ComposedBatch(w, step.reading, step.machine, step.kind, step.left);
    }
    forall b: nat | b < |after.batches| ensures BatchFloor(after, after.batches[b]) {
      if b < |w.batches| {
        assert after.batches[b] == w.batches[b] && BatchInv(w.batches[b], w);
        BatchStays(w, after, w.batches[b]);
      } else {
        BatchStays(w, after, after.batches[b]);
      }
    }
  }

  lemma {:induction false} PlayKeepsFloor(steps: seq<WorldStep>)
    ensures FloorInv(Play(steps))
  {
    hide Act, WorldInv, MeterFloor, ReadFloor, BatchFloor;
    if steps != [] {
      var w, step := Play(steps[..|steps| - 1]), steps[|steps| - 1];
      PlayKeepsFloor(steps[..|steps| - 1]);
      PlayKeepsInv(steps[..|steps| - 1]);
      StepKeepsMeters(w, step);
      StepKeepsReads(w, step);
      StepKeepsBatches(w, step);
    }
  }

  /** While its price stands, a leg has been billed at least the price of everything from
      where it began to where it has been billed through, on the minute or off it; and no
      more, if it began on the minute. */
  lemma LegIsBilledInFull(steps: seq<WorldStep>, machine: nat, kind: Kind, j: nat)
    requires OnTime(steps, machine, kind) && j < |LegsAfter(steps, machine, kind)|
    requires LegsAfter(steps, machine, kind)[j].steady
    ensures var legs := LegsAfter(steps, machine, kind);
      && BilledIn(LedgerAfter(steps), machine, kind, legs[j].base, Until(legs, j)) >= LegPrice(legs[j])
      && (OnTheMinute(legs[j]) ==> BilledIn(LedgerAfter(steps), machine, kind, legs[j].base, Until(legs, j)) == LegPrice(legs[j]))
  {
    hide Play, RowsPriced, Chained, LegCovered, RowsInLegs, LegsInOrder, ColumnsInv, OnTheMinute, ReadFloor, BatchFloor, BilledIn, LegPrice;
    MeterHolds(steps, machine, kind);
    PlayKeepsFloor(steps);
    var ledger, legs := LedgerAfter(steps), LegsAfter(steps, machine, kind);
    assert MeterFloor(Play(steps), machine, kind);
    assert LegFloor(ledger, machine, kind, legs, j);
    assert LegInv(legs, j, Play(steps).now);
    ChainedLegBills(ledger, machine, kind, legs[j], Until(legs, j));
    if OnTheMinute(legs[j]) { EachLegIsExact(steps, machine, kind, j); }
  }

  // ── To the cached totals ──

  lemma {:induction false} LegsCoverTheirPrices(ledger: seq<SpendRow>, machine: nat, kind: Kind, legs: seq<Leg>, now: nat, n: nat)
    requires 0 < n <= |legs| && forall j: nat :: j < |legs| ==> LegInv(legs, j, now)
    requires forall j: nat :: j < |legs| ==> BilledIn(ledger, machine, kind, legs[j].base, Until(legs, j)) >= LegPrice(legs[j])
    requires LegsInOrder(legs)
    ensures BilledIn(ledger, machine, kind, legs[0].base, Until(legs, n - 1)) >= LegPrices(legs, n)
  {
    hide BilledIn, LegPrice;
    if n > 1 {
      LegsCoverTheirPrices(ledger, machine, kind, legs, now, n - 1);
      assert LegInv(legs, n - 1, now) && LegInv(legs, 0, now);
      BilledInSplits(ledger, machine, kind, legs[0].base, legs[n - 1].base, Until(legs, n - 1));
    } else {
      assert LegPrices(legs, 0) == 0;
    }
  }

  lemma MeterCoversItsPrices(steps: seq<WorldStep>, machine: nat, kind: Kind)
    requires OnTime(steps, machine, kind)
    requires forall leg :: leg in LegsAfter(steps, machine, kind) ==> leg.steady
    ensures Billed(LedgerAfter(steps), machine, kind) >= LegPrices(LegsAfter(steps, machine, kind), |LegsAfter(steps, machine, kind)|)
  {
    hide Play, BilledIn, Billed, LegCovered, LegPrice, ColumnsInv, InSomeLeg, Keys;
    MeterHolds(steps, machine, kind);
    var ledger, legs, now := LedgerAfter(steps), LegsAfter(steps, machine, kind), Play(steps).now;
    if legs != [] {
      forall j: nat | j < |legs| ensures BilledIn(ledger, machine, kind, legs[j].base, Until(legs, j)) >= LegPrice(legs[j]) {
        assert legs[j] in legs;
        LegIsBilledInFull(steps, machine, kind, j);
      }
      LegsCoverTheirPrices(ledger, machine, kind, legs, now, |legs|);
      RowsStartInLegs(ledger, machine, kind, legs, now);
      BilledFrom(ledger, machine, kind, legs[0].base);
    }
  }

  /** No leg of the budget's machines was repriced, and none began late. */
  predicate AllSteady(w: World, budget: nat)
    requires |w.legs| == |w.machines|
  {
    forall i, kind :: 0 <= i < |w.machines| && w.machines[i].budget == budget ==>
      (i, kind) !in w.late && LegsSteady(LegsOf(w.legs[i], kind))
  }

  predicate LegsSteady(legs: seq<Leg>)
  {
    forall leg :: leg in legs ==> leg.steady
  }

  lemma {:induction false} BillsCoverPrices(steps: seq<WorldStep>, budget: nat, n: nat)
    requires var w := Play(steps); |w.legs| == |w.machines| && n <= |w.machines| && AllSteady(w, budget)
    ensures var w := Play(steps);
      MachineBills(w.books.tables.ledger, w.machines, budget, n) >= MachinePrices(w.machines, w.legs, budget, n)
  {
    hide Play, Billed, LegPrices;
    var w := Play(steps);
    if n != 0 {
      BillsCoverPrices(steps, budget, n - 1);
      if w.machines[n - 1].budget == budget {
        assert LegsOf(w.legs[n - 1], Compute) == w.legs[n - 1].compute && LegsOf(w.legs[n - 1], Storage) == w.legs[n - 1].storage;
        MeterCoversItsPrices(steps, n - 1, Compute);
        MeterCoversItsPrices(steps, n - 1, Storage);
      }
    }
  }

  /** End to end: a budget's certified total is at least what was recorded by hand plus, for
      every leg of its machines, the price of what it has been billed through, however they
      stopped, started and restarted, as long as none was repriced. */
  lemma CertifiedSpendCoversTheLegs(steps: seq<WorldStep>, budget: nat)
    requires budget in Play(steps).books.tables.budgets
    requires var t := Play(steps).books.tables; t.budgets[budget].folded == Count(t.ledger, budget)
    requires |Play(steps).legs| == |Play(steps).machines| && AllSteady(Play(steps), budget)
    ensures var w := Play(steps);
      w.books.tables.budgets[budget].spent
        >= OtherSpend(w.books.tables.ledger, budget) + MachinePrices(w.machines, w.legs, budget, |w.machines|)
  {
    hide Play, OtherSpend, MachineBills, MachinePrices, Count, AllSteady;
    CertifiedSpendIsMetered(steps, budget);
    BillsCoverPrices(steps, budget, |Play(steps).machines|);
  }
}
