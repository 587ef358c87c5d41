/** What every interleaving of sweeps and machine events in MeterRuns leaves on the ledger. */
module MeterBills {
  import opened Prelude
  import opened BudgetEngine
  import opened BudgetTables
  import opened BudgetRuns
  import opened Metering
  import opened MeterRuns

  /** The legs of one meter after a run. */
  function LegsAfter(steps: seq<WorldStep>, machine: nat, kind: Kind): seq<Leg>
  {
    var w := Play(steps);
    if machine < |w.legs| then LegsOf(w.legs[machine], kind) else []
  }

  function LedgerAfter(steps: seq<WorldStep>): seq<SpendRow> { Play(steps).books.tables.ledger }

  /** The exact price of what a leg has been billed through. */
  function LegPrice(leg: Leg): nat
  {
    IntervalCost(leg.hourly, leg.origin, leg.base, leg.reached)
  }

  /** A leg whose bills are bound to come to its price: nothing of it was billed yet, or it
      began on a whole minute and kept its price. */
  predicate Settled(leg: Leg)
  {
    leg.reached == leg.base || (leg.steady && OnTheMinute(leg))
  }

  /** A machine's meter whose cursor no event has put behind a sweep: every one was stamped no
      earlier than anything billed of it, or still to be billed from what a sweep had read. */
  predicate OnTime(steps: seq<WorldStep>, machine: nat, kind: Kind)
  {
    machine < |Play(steps).machines| && (machine, kind) !in Play(steps).late
  }

  lemma LegsMatch(steps: seq<WorldStep>)
    ensures |Play(steps).legs| == |Play(steps).machines|
  {
    hide Play, MetersInv, ReadingInv, BatchInv, Inv, RowsBelong;
    PlayKeepsInv(steps);
  }

  lemma MeterHolds(steps: seq<WorldStep>, machine: nat, kind: Kind)
    requires OnTime(steps, machine, kind)
    ensures |Play(steps).legs| == |Play(steps).machines|
    ensures var w := Play(steps);
      MeterInv(w.books.tables.ledger, machine, kind, ColumnsOf(w.machines[machine], kind), LegsOf(w.legs[machine], kind), w.now)
  {
    hide Play, MeterInv, ReadingInv, BatchInv, Inv, RowsBelong;
    PlayKeepsInv(steps);
  }

  // ── Every leg ──

  lemma CoveredLegIsExact(ledger: seq<SpendRow>, machine: nat, kind: Kind, legs: seq<Leg>, j: nat)
    requires j < |legs| && LegCovered(ledger, machine, kind, legs, j) && Settled(legs[j])
    ensures BilledIn(ledger, machine, kind, legs[j].base, Until(legs, j)) == LegPrice(legs[j])
  {
    hide BilledIn, Keys, WindowsAmong, OnTheMinute;
    if legs[j].reached != legs[j].base {
      var k: nat :| CoveredTo(ledger, machine, kind, legs, j, k);
    }
  }

  /** From where a leg began to where the next one did, the ledger bills exactly the price of
      the time behind its cursor; whatever overlapped, was retried, or landed late. */
  lemma EachLegIsExact(steps: seq<WorldStep>, machine: nat, kind: Kind, j: nat)
    requires OnTime(steps, machine, kind) && j < |LegsAfter(steps, machine, kind)|
    requires Settled(LegsAfter(steps, machine, kind)[j])
    ensures var legs := LegsAfter(steps, machine, kind);
      BilledIn(LedgerAfter(steps), machine, kind, legs[j].base, Until(legs, j)) == LegPrice(legs[j])
  {
    hide Play, LegCovered, Settled, RowsInLegs, LegsInOrder, ColumnsInv;
    MeterHolds(steps, machine, kind);
    CoveredLegIsExact(LedgerAfter(steps), machine, kind, LegsAfter(steps, machine, kind), j);
  }

  /** While its origin stands, a meter's rows from the origin on sum to the price of the time
      behind its cursor. */
  lemma MeterIsExact(steps: seq<WorldStep>, machine: nat, kind: Kind)
    requires OnTime(steps, machine, kind) && Priced(ColumnsOf(Play(steps).machines[machine], kind))
    ensures var c, legs := ColumnsOf(Play(steps).machines[machine], kind), LegsAfter(steps, machine, kind);
      && legs != []
      && var leg := legs[|legs| - 1];
         leg.steady && leg.base == c.startedAt.value ==>
           c.startedAt.value <= c.cursor.value
           && BilledIn(LedgerAfter(steps), machine, kind, c.startedAt.value, None)
                == c.hourly.value * (c.cursor.value - c.startedAt.value) / SECONDS_PER_HOUR
  {
    hide Play, LegCovered, RowsInLegs, LegsInOrder, BilledIn, LegInv;
    MeterHolds(steps, machine, kind);
    var legs := LegsAfter(steps, machine, kind);
    var leg := legs[|legs| - 1];
    assert LegInv(legs, |legs| - 1, Play(steps).now);
    LastLegInv(legs, Play(steps).now);
    if leg.steady && leg.base == leg.origin {
      EachLegIsExact(steps, machine, kind, |legs| - 1);
    }
  }

  lemma LastLegInv(legs: seq<Leg>, now: nat)
    requires legs != [] && LegInv(legs, |legs| - 1, now)
    ensures legs[|legs| - 1].base <= legs[|legs| - 1].reached
  {
  }

  // ── The ledger only grows ──

  /** Rows once billed stay as they are. */
  lemma {:induction false} BilledRowsStay(steps: seq<WorldStep>, more: seq<WorldStep>)
    ensures LedgerAfter(steps) <= LedgerAfter(steps + more)
  {
    if more == [] {
      assert steps + more == steps;
    } else {
      var init, step := more[..|more| - 1], more[|more| - 1];
      BilledRowsStay(steps, init);
      assert (steps + more)[..|steps + more| - 1] == steps + init;
      ActGrowsLedger(Play(steps + init), step);
    }
  }

  lemma ActGrowsLedger(w: World, step: WorldStep)
    ensures w.books.tables.ledger <= Act(w, step).books.tables.ledger
  {
    hide Do, InsertRows;
    if step.Budget? && step.step.Insert? {
      InsertIs(w.books, step.step.rows);
    } else if step.Budget? {
      LedgerOnlyGrowsByInsert(w.books, step.step);
    } else if step.Execute? && step.batch < |w.batches| {
      InsertIs(w.books, w.batches[step.batch].rows);
    }
  }

  /** A leg stays where it began, and whether it began on the minute is settled then. */
  lemma {:induction false} LegsPersist(steps: seq<WorldStep>, more: seq<WorldStep>, machine: nat, kind: Kind)
    requires machine < |Play(steps).machines|
    ensures machine < |Play(steps + more).machines|
    ensures var legs, later := LegsAfter(steps, machine, kind), LegsAfter(steps + more, machine, kind);
      |legs| <= |later| && forall j: nat :: j < |legs| ==> SameLeg(legs, later, j)
  {
    hide LegsOf, Act;
    LegsMatch(steps);
    if more == [] {
      assert steps + more == steps;
    } else {
      var init, step := more[..|more| - 1], more[|more| - 1];
      LegsPersist(steps, init, machine, kind);
      assert (steps + more)[..|steps + more| - 1] == steps + init;
      LegsMatch(steps + init);
      ActMovesLegs(Play(steps + init), step, machine, kind);
      var legs, mid, later := LegsAfter(steps, machine, kind), LegsAfter(steps + init, machine, kind), LegsAfter(steps + more, machine, kind);
      forall j: nat | j < |legs| ensures SameLeg(legs, later, j) {
        assert SameLeg(legs, mid, j) && SameLeg(mid, later, j);
      }
    }
  }

  lemma ActMovesLegs(w: World, step: WorldStep, machine: nat, kind: Kind)
    requires machine < |w.machines| == |w.legs|
    ensures var after := Act(w, step);
      && |after.machines| == |after.legs| && |w.machines| <= |after.machines|
      && var legs, later := LegsOf(w.legs[machine], kind), LegsOf(after.legs[machine], kind);
         |legs| <= |later| && forall j: nat :: j < |legs| ==> SameLeg(legs, later, j)
  {
    hide Do, Lived, Drain, Continued, ReachedLegs;
    if step.Live? && step.machine == machine {
      var before, after := w.machines[machine], Lived(w.machines[machine], step.event, step.stamp);
      ContinuedMoves(LegsOf(w.legs[machine], kind), ColumnsOf(before, kind), ColumnsOf(after, kind));
    } else if step.Execute? && step.batch < |w.batches| && w.batches[step.batch].machine == machine {
      var b, legs := w.batches[step.batch], LegsOf(w.legs[machine], kind);
      ReachedMoves(legs, b.leg, b.end, w.now);
      StillLegs(legs, w.now, w.now);
    }
  }

  lemma ContinuedMoves(legs: seq<Leg>, before: Columns, after: Columns)
    ensures var later := Continued(legs, before, after);
      |legs| <= |later| && forall j: nat :: j < |legs| ==> SameLeg(legs, later, j)
  {
  }

  // ── No instant twice ──

  predicate KeysOnce(ledger: seq<SpendRow>)
  {
    forall i, j :: 0 <= i < j < |ledger| && ledger[i].key.Some? ==> ledger[i].key != ledger[j].key
  }

  lemma {:induction false} InsertsKeepKeysOnce(ledger: seq<SpendRow>, rows: seq<SpendRow>)
    requires KeysOnce(ledger)
    ensures KeysOnce(InsertRows(ledger, rows))
  {
    if rows != [] {
      InsertsKeepKeysOnce(ledger, rows[..|rows| - 1]);
      var l, row := InsertRows(ledger, rows[..|rows| - 1]), rows[|rows| - 1];
      forall i | 0 <= i < |l| && l[i].key.Some? ensures l[i].key.value in Keys(l) {
      }
    }
  }

  lemma {:induction false} KeysStayUnique(steps: seq<WorldStep>)
    ensures KeysOnce(LedgerAfter(steps))
  {
    if steps != [] {
      var w, step := Play(steps[..|steps| - 1]), steps[|steps| - 1];
      KeysStayUnique(steps[..|steps| - 1]);
      hide KeysOnce, Do, InsertRows;
      if step.Budget? && !step.step.Insert? {
        LedgerOnlyGrowsByInsert(w.books, step.step);
      }
      if step.Budget? && step.step.Insert? {
        InsertIs(w.books, step.step.rows);
        InsertsKeepKeysOnce(w.books.tables.ledger, step.step.rows);
      }
      if step.Execute? && step.batch < |w.batches| {
        InsertIs(w.books, w.batches[step.batch].rows);
        InsertsKeepKeysOnce(w.books.tables.ledger, w.batches[step.batch].rows);
      }
    }
  }

  /** Two windows that share no instant. */
  predicate Apart(a: SpendKey, b: SpendKey)
    requires a.Window? && b.Window?
  {
    a.end <= b.start || b.end <= a.start
  }

  ghost predicate ShareAnOffMinuteLeg(a: SpendKey, b: SpendKey, legs: seq<Leg>)
  {
    exists j: nat :: InLeg(a, legs, j) && InLeg(b, legs, j) && !OnTheMinute(legs[j])
  }

  lemma WindowsOfOneLeg(a: SpendKey, b: SpendKey, machine: nat, kind: Kind, leg: Leg, k: nat)
    requires AmongFirst(a, machine, kind, leg, k) && AmongFirst(b, machine, kind, leg, k) && a != b
    ensures Apart(a, b)
  {
    var p: nat :| p < k && a == NthKey(machine, kind, leg, p);
    var q: nat :| q < k && b == NthKey(machine, kind, leg, q);
  }

  lemma LegIsWithin(key: SpendKey, legs: seq<Leg>, j: nat, now: nat)
    requires InLeg(key, legs, j) && LegInv(legs, j, now)
    ensures Within(key, legs[j].base, Until(legs, j))
  {
  }

  lemma LaterLegIsApart(a: SpendKey, b: SpendKey, legs: seq<Leg>, i: nat, j: nat, now: nat)
    requires LegsInOrder(legs) && forall l: nat :: l < |legs| ==> LegInv(legs, l, now)
    requires InLeg(a, legs, i) && InLeg(b, legs, j) && i < j
    ensures a.end <= b.start
  {
    assert LegInv(legs, i + 1, now);
  }

  lemma KeysOfMeterApart(ledger: seq<SpendRow>, machine: nat, kind: Kind, c: Columns, legs: seq<Leg>, now: nat, a: SpendKey, b: SpendKey)
    requires MeterInv(ledger, machine, kind, c, legs, now)
    requires a in Keys(ledger) && b in Keys(ledger) && OfMeter(a, machine, kind) && OfMeter(b, machine, kind) && a != b
    ensures Apart(a, b) || ShareAnOffMinuteLeg(a, b, legs)
  {
    hide Keys, Covers, LegInv, LegsInOrder, ColumnsInv, AmongFirst, OnTheMinute;
    assert InSomeLeg(a, legs) && InSomeLeg(b, legs);
    var i: nat :| InLeg(a, legs, i);
    var j: nat :| InLeg(b, legs, j);
    if i < j {
      LaterLegIsApart(a, b, legs, i, j, now);
    } else if j < i {
      LaterLegIsApart(b, a, legs, j, i, now);
    } else if OnTheMinute(legs[i]) {
      assert LegCovered(ledger, machine, kind, legs, i);
      var k: nat :| CoveredTo(ledger, machine, kind, legs, i, k);
      LegIsWithin(a, legs, i, now);
      LegIsWithin(b, legs, i, now);
      WindowsOfOneLeg(a, b, machine, kind, legs[i], k);
    }
  }

  /** No instant of a meter is billed twice: any two of its rows bill intervals that share no
      instant, except two rows of one leg that did not begin on a whole minute. */
  lemma NoInstantBilledTwice(steps: seq<WorldStep>, machine: nat, kind: Kind, i: nat, j: nat)
    requires OnTime(steps, machine, kind) && i < j < |LedgerAfter(steps)|
    requires Bills(LedgerAfter(steps)[i], machine, kind) && Bills(LedgerAfter(steps)[j], machine, kind)
    ensures var a, b := LedgerAfter(steps)[i].key.value, LedgerAfter(steps)[j].key.value;
      Apart(a, b) || ShareAnOffMinuteLeg(a, b, LegsAfter(steps, machine, kind))
  {
    hide Play, MeterInv, ReadingInv, BatchInv, Inv, ShareAnOffMinuteLeg;
    PlayKeepsInv(steps);
    KeysStayUnique(steps);
    var w, ledger := Play(steps), LedgerAfter(steps);
    var a, b := ledger[i].key.value, ledger[j].key.value;
    assert a in Keys(ledger) && b in Keys(ledger);
    MeterHolds(steps, machine, kind);
    KeysOfMeterApart(ledger, machine, kind, ColumnsOf(w.machines[machine], kind), LegsOf(w.legs[machine], kind), w.now, a, b);
  }

  // ── From the meters to the cached totals ──

  /** A budget's ledger rows that no meter window put there. */
  function OtherSpend(ledger: seq<SpendRow>, budget: nat): nat
  {
    if ledger == [] then 0
    else
      var n := |ledger| - 1;
      OtherSpend(ledger[..n], budget)
        + if ledger[n].budget == budget && !(ledger[n].key.Some? && ledger[n].key.value.Window?)
          then ledger[n].amount else 0
  }

  /** The bills of a budget's machines among the first `n`. */
  function MachineBills(ledger: seq<SpendRow>, machines: seq<MachineRow>, budget: nat, n: nat): nat
    requires n <= |machines|
  {
    if n == 0 then 0
    else
      MachineBills(ledger, machines, budget, n - 1)
        + if machines[n - 1].budget == budget
          then Billed(ledger, n - 1, Compute) + Billed(ledger, n - 1, Storage) else 0
  }

  lemma {:induction false} BillsOfOneRow(ledger: seq<SpendRow>, row: SpendRow, machines: seq<MachineRow>, budget: nat, n: nat)
    requires n <= |machines|
    ensures MachineBills(ledger + [row], machines, budget, n)
      == MachineBills(ledger, machines, budget, n)
        + if row.key.Some? && row.key.value.Window? && row.key.value.machine < n
             && machines[row.key.value.machine].budget == budget then row.amount else 0
  {
    if n != 0 {
      BillsOfOneRow(ledger, row, machines, budget, n - 1);
      BilledAfterAppend(ledger, row, n - 1, Compute, 0, None);
      BilledAfterAppend(ledger, row, n - 1, Storage, 0, None);
    }
  }

  /** Everything a budget was charged is either some machine's windows or something else. */
  lemma {:induction false} SpentSplits(ledger: seq<SpendRow>, machines: seq<MachineRow>, budget: nat)
    requires RowsBelong(ledger, machines)
    ensures Spent(ledger, budget) == OtherSpend(ledger, budget) + MachineBills(ledger, machines, budget, |machines|)
  {
    if ledger == [] {
      NothingBilled(machines, budget, |machines|);
    } else {
      var n := |ledger| - 1;
      SpentSplits(ledger[..n], machines, budget);
      assert ledger == ledger[..n] + [ledger[n]];
      BillsOfOneRow(ledger[..n], ledger[n], machines, budget, |machines|);
    }
  }

  lemma {:induction false} NothingBilled(machines: seq<MachineRow>, budget: nat, n: nat)
    requires n <= |machines|
    ensures MachineBills([], machines, budget, n) == 0
  {
    if n != 0 {
      NothingBilled(machines, budget, n - 1);
    }
  }

  lemma {:induction false} BilledInSplits(ledger: seq<SpendRow>, machine: nat, kind: Kind, lo: nat, mid: nat, hi: Option<nat>)
    requires lo <= mid && (hi.Some? ==> mid <= hi.value)
    ensures BilledIn(ledger, machine, kind, lo, hi)
         == BilledIn(ledger, machine, kind, lo, Some(mid)) + BilledIn(ledger, machine, kind, mid, hi)
  {
    if ledger != [] {
      BilledInSplits(ledger[..|ledger| - 1], machine, kind, lo, mid, hi);
    }
  }

  lemma {:induction false} BilledFrom(ledger: seq<SpendRow>, machine: nat, kind: Kind, lo: nat)
    requires forall row :: row in ledger && Bills(row, machine, kind) ==> lo <= row.key.value.start
    ensures Billed(ledger, machine, kind) == BilledIn(ledger, machine, kind, lo, None)
  {
    if ledger != [] {
      BilledFrom(ledger[..|ledger| - 1], machine, kind, lo);
      assert ledger[|ledger| - 1] in ledger;
    }
  }

  lemma {:induction false} BilledNever(ledger: seq<SpendRow>, machine: nat, kind: Kind)
    requires forall row :: row in ledger ==> !Bills(row, machine, kind)
    ensures Billed(ledger, machine, kind) == 0
  {
    if ledger != [] {
      BilledNever(ledger[..|ledger| - 1], machine, kind);
      assert ledger[|ledger| - 1] in ledger;
    }
  }

  /** The prices of a meter's first `n` legs. */
  function LegPrices(legs: seq<Leg>, n: nat): nat
    requires n <= |legs|
  {
    if n == 0 then 0 else LegPrices(legs, n - 1) + LegPrice(legs[n - 1])
  }

  /** A meter's rows are its legs', one leg after another. */
  lemma {:induction false} BillsOfLegs(ledger: seq<SpendRow>, machine: nat, kind: Kind, legs: seq<Leg>, now: nat, n: nat)
    requires 0 < n <= |legs| && LegsInOrder(legs)
    requires forall j: nat :: j < |legs| ==> LegInv(legs, j, now) && LegCovered(ledger, machine, kind, legs, j) && Settled(legs[j])
    ensures BilledIn(ledger, machine, kind, legs[0].base, Until(legs, n - 1)) == LegPrices(legs, n)
  {
    hide BilledIn, LegCovered, Settled, LegPrice;
    CoveredLegIsExact(ledger, machine, kind, legs, n - 1);
    if n > 1 {
      BillsOfLegs(ledger, machine, kind, legs, now, n - 1);
      assert LegInv(legs, n - 1, now) && LegInv(legs, 0, now);
      BilledInSplits(ledger, machine, kind, legs[0].base, legs[n - 1].base, Until(legs, n - 1));
    } else {
      assert LegPrices(legs, 0) == 0;
    }
  }

  lemma RowsStartInLegs(ledger: seq<SpendRow>, machine: nat, kind: Kind, legs: seq<Leg>, now: nat)
    requires legs != [] && RowsInLegs(ledger, machine, kind, legs) && LegsInOrder(legs)
    requires forall j: nat :: j < |legs| ==> LegInv(legs, j, now)
    ensures forall row :: row in ledger && Bills(row, machine, kind) ==> legs[0].base <= row.key.value.start
  {
    forall row | row in ledger && Bills(row, machine, kind) ensures legs[0].base <= row.key.value.start {
      var key := row.key.value;
      assert key in Keys(ledger);
      assert InSomeLeg(key, legs);
      var j: nat :| InLeg(key, legs, j);
      assert LegInv(legs, 0, now) && LegInv(legs, j, now);
    }
  }

  lemma NoLegsNoRows(ledger: seq<SpendRow>, machine: nat, kind: Kind, now: nat)
    requires RowsInLegs(ledger, machine, kind, [])
    ensures forall row :: row in ledger ==> !Bills(row, machine, kind)
  {
    forall row | row in ledger ensures !Bills(row, machine, kind) {
      assert row.key.Some? ==> row.key.value in Keys(ledger);
      assert row.key.Some? ==> !InSomeLeg(row.key.value, []);
    }
  }

  lemma MeterBillIsItsPrice(ledger: seq<SpendRow>, machine: nat, kind: Kind, c: Columns, legs: seq<Leg>, now: nat)
    requires MeterInv(ledger, machine, kind, c, legs, now) && forall j: nat :: j < |legs| ==> Settled(legs[j])
    ensures Billed(ledger, machine, kind) == LegPrices(legs, |legs|)
  {
    hide BilledIn, Billed, LegCovered, Settled, LegPrice, ColumnsInv, InSomeLeg, Keys;
    if legs == [] {
      NoLegsNoRows(ledger, machine, kind, now);
      BilledNever(ledger, machine, kind);
    } else {
      RowsStartInLegs(ledger, machine, kind, legs, now);
      BilledFrom(ledger, machine, kind, legs[0].base);
      BillsOfLegs(ledger, machine, kind, legs, now, |legs|);
    }
  }

  /** The prices of a budget's machines among the first `n`, leg by leg. */
  function MachinePrices(machines: seq<MachineRow>, legs: seq<Legs>, budget: nat, n: nat): nat
    requires n <= |machines| && n <= |legs|
  {
    if n == 0 then 0
    else
      MachinePrices(machines, legs, budget, n - 1)
        + if machines[n - 1].budget == budget
          then LegPrices(legs[n - 1].compute, |legs[n - 1].compute|) + LegPrices(legs[n - 1].storage, |legs[n - 1].storage|) else 0
  }

  /** Every leg of the budget's machines is bound to come to its price, and none began late. */
  predicate AllSettled(w: World, budget: nat)
    requires |w.legs| == |w.machines|
  {
    forall i, kind :: 0 <= i < |w.machines| && w.machines[i].budget == budget ==>
      (i, kind) !in w.late && LegsSettled(LegsOf(w.legs[i], kind))
  }

  predicate LegsSettled(legs: seq<Leg>)
  {
    forall j :: 0 <= j < |legs| ==> Settled(legs[j])
  }

  lemma BillOfKind(w: World, budget: nat, i: nat, kind: Kind)
    requires |w.legs| == |w.machines| && i < |w.machines| && MetersInv(w)
    requires AllSettled(w, budget) && w.machines[i].budget == budget
    ensures var legs := match kind { case Compute => w.legs[i].compute case Storage => w.legs[i].storage };
      Billed(w.books.tables.ledger, i, kind) == LegPrices(legs, |legs|)
  {
    hide Billed, MeterInv, LegPrices, Settled;
    MeterBillIsItsPrice(w.books.tables.ledger, i, kind, ColumnsOf(w.machines[i], kind), LegsOf(w.legs[i], kind), w.now);
  }

  lemma {:induction false} BillsArePrices(w: World, budget: nat, n: nat)
    requires |w.legs| == |w.machines| && n <= |w.machines| && MetersInv(w) && AllSettled(w, budget)
    ensures MachineBills(w.books.tables.ledger, w.machines, budget, n) == MachinePrices(w.machines, w.legs, budget, n)
  {
    hide Billed, MeterInv, LegPrices, Settled;
    if n != 0 {
      BillsArePrices(w, budget, n - 1);
      if w.machines[n - 1].budget == budget {
        BillOfKind(w, budget, n - 1, Compute);
        BillOfKind(w, budget, n - 1, Storage);
      }
    }
  }

  /** End to end: whenever a budget's cache is certified, what it says was spent is what was
      recorded by hand plus its machines' rows; and where every leg of those machines began on
      a whole minute and kept its price, or was billed nothing yet, that is the exact price of
      the time behind each leg. */
  lemma CertifiedSpendIsMetered(steps: seq<WorldStep>, budget: nat)
    requires budget in Play(steps).books.tables.budgets
    requires var t := Play(steps).books.tables; t.budgets[budget].folded == Count(t.ledger, budget)
    ensures |Play(steps).legs| == |Play(steps).machines|
    ensures var w := Play(steps);
      var spent, other := w.books.tables.budgets[budget].spent, OtherSpend(w.books.tables.ledger, budget);
      && spent == other + MachineBills(w.books.tables.ledger, w.machines, budget, |w.machines|)
      && (AllSettled(w, budget) ==> spent == other + MachinePrices(w.machines, w.legs, budget, |w.machines|))
  {
    hide Spent, Count, OtherSpend, MeterInv, ReadingInv, BatchInv, RowsBelong, AllSettled, Play;
    PlayKeepsInv(steps);
    var w := Play(steps);
    var ledger, row := w.books.tables.ledger, w.books.tables.budgets[budget];
    assert RowInv(row, ledger, budget);
    var n: nat :| CacheOf(row, ledger, budget, n);
    UnmovedCountUnmovedTotal(ledger, n, budget);
    SpentSplits(ledger, w.machines, budget);
    if AllSettled(w, budget) {
      BillsArePrices(w, budget, |w.machines|);
    }
  }
}
