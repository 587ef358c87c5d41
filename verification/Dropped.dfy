/** The time no row bills. Stopping, starting, restarting and finding a machine put its compute
    cursor at the present (crates/api/src/machines.rs:243-250, 1460, 1580, 1612, 1759) and bill
    nothing, so what the machine ran through since the cursor, and no sweep has in hand, is
    dropped. */
module Dropped {
  import opened Prelude
  import opened BudgetTables
  import opened BudgetRuns
  import opened Metering
  import opened MeterRuns
  import opened MeterBills
  import opened OffMinute
  import opened BilledInFull

  /** A row of the meter bills the instant. */
  ghost predicate Covered(ledger: seq<SpendRow>, machine: nat, kind: Kind, t: nat)
  {
    exists key :: key in Keys(ledger) && OfMeter(key, machine, kind) && key.start <= t < key.end
  }

  /** The instant lies after what leg `j` has been billed through and before the next leg. */
  predicate PutBehind(legs: seq<Leg>, j: nat, t: nat)
  {
    j + 1 < |legs| && legs[j].reached <= t < legs[j + 1].base
  }

  predicate InSpan(legs: seq<Leg>, j: nat, t: nat)
  {
    j < |legs| && legs[j].base <= t && (j + 1 < |legs| ==> t < legs[j + 1].base)
  }

  // ── What is billed, instant by instant ──

  lemma PastReachedIsUncovered(ledger: seq<SpendRow>, machine: nat, kind: Kind, legs: seq<Leg>, now: nat, j: nat, t: nat)
    requires RowsInLegs(ledger, machine, kind, legs) && LegsInOrder(legs)
    requires forall l: nat :: l < |legs| ==> LegInv(legs, l, now)
    requires InSpan(legs, j, t) && legs[j].reached <= t
    ensures !Covered(ledger, machine, kind, t)
  {
    forall key | key in Keys(ledger) && OfMeter(key, machine, kind) ensures !(key.start <= t < key.end) {
      assert InSomeLeg(key, legs);
      var i: nat :| InLeg(key, legs, i);
      assert LegInv(legs, j, now) && LegInv(legs, i, now);
      if i > j { assert LegInv(legs, j + 1, now); }
    }
  }

  lemma {:induction false} ChainBillsEverySecond(ledger: seq<SpendRow>, machine: nat, kind: Kind, leg: Leg, x: nat, n: nat, t: nat)
    requires Reaches(ledger, machine, kind, leg, x, n) && leg.base <= t < x
    requires leg.hourly >= SECONDS_PER_HOUR && leg.origin <= leg.base
    ensures Covered(ledger, machine, kind, t)
    decreases n
  {
    hide IntervalCost, Keys;
    var p: nat :| Reaches(ledger, machine, kind, leg, p, n - 1) && Linked(ledger, machine, kind, leg, p, x);
    if t < p {
      ChainBillsEverySecond(ledger, machine, kind, leg, p, n - 1, t);
    } else {
      ChainStartsAtBase(ledger, machine, kind, leg, p, n - 1);
      SecondsCost(leg.hourly, leg.origin, p, x);
      assert OfMeter(Window(machine, kind, p, x), machine, kind);
    }
  }

  lemma {:induction false} ChainStartsAtBase(ledger: seq<SpendRow>, machine: nat, kind: Kind, leg: Leg, x: nat, n: nat)
    requires Reaches(ledger, machine, kind, leg, x, n)
    ensures leg.base <= x
    decreases n
  {
    hide IntervalCost, Keys;
    if n > 0 {
      var p: nat :| Reaches(ledger, machine, kind, leg, p, n - 1) && Linked(ledger, machine, kind, leg, p, x);
      ChainStartsAtBase(ledger, machine, kind, leg, p, n - 1);
    }
  }

  /** From a microdollar a second on, every interval costs something. */
  lemma SecondsCost(hourly: nat, origin: nat, start: nat, end: nat)
    requires hourly >= SECONDS_PER_HOUR && origin <= start < end
    ensures IntervalCost(hourly, origin, start, end) > 0
  {
    var x, y := start - origin, end - origin;
    MulMonotone(x + 1, y, hourly);
    assert hourly * (x + 1) == hourly * x + hourly;
    DivMonotone(hourly * x + 3_600, hourly * y, 3_600);
    assert (hourly * x + 3_600) / 3_600 == hourly * x / 3_600 + 1;
  }

  /** Between where a leg began and where the next did, exactly the instants it has been billed
      through are on some row, if each second costs at least a microdollar; so the ones on none
      are as many as lie between. At any price, none past it is on any row. */
  lemma BilledExactlyThroughReached(steps: seq<WorldStep>, machine: nat, kind: Kind, j: nat, t: nat)
    requires OnTime(steps, machine, kind) && InSpan(LegsAfter(steps, machine, kind), j, t)
    ensures var leg := LegsAfter(steps, machine, kind)[j];
      && (leg.reached <= t ==> !Covered(LedgerAfter(steps), machine, kind, t))
      && (leg.steady && leg.hourly >= SECONDS_PER_HOUR ==> (Covered(LedgerAfter(steps), machine, kind, t) <==> t < leg.reached))
  {
    hide Play, RowsPriced, LegCovered, RowsInLegs, LegsInOrder, ColumnsInv, OnTheMinute, ReadFloor, BatchFloor, Reaches, Covered;
    MeterHolds(steps, machine, kind);
    PlayKeepsFloor(steps);
    var ledger, legs := LedgerAfter(steps), LegsAfter(steps, machine, kind);
    var leg := legs[j];
    assert LegInv(legs, j, Play(steps).now);
    if leg.reached <= t {
      PastReachedIsUncovered(ledger, machine, kind, legs, Play(steps).now, j, t);
    } else if leg.steady && leg.hourly >= SECONDS_PER_HOUR {
      assert MeterFloor(Play(steps), machine, kind);
      assert LegFloor(ledger, machine, kind, legs, j);
      var n: nat :| Reaches(ledger, machine, kind, leg, leg.reached, n);
      ChainBillsEverySecond(ledger, machine, kind, leg, leg.reached, n, t);
    }
  }

  ghost function Uncovered(ledger: seq<SpendRow>, machine: nat, kind: Kind, lo: nat, hi: nat): set<nat>
  {
    set t: nat | lo <= t < hi && !Covered(ledger, machine, kind, t)
  }

  lemma {:induction false} UncoveredFrom(ledger: seq<SpendRow>, machine: nat, kind: Kind, lo: nat, mid: nat, hi: nat)
    requires lo <= mid <= hi
    requires forall t: nat :: lo <= t < hi ==> (Covered(ledger, machine, kind, t) <==> t < mid)
    ensures |Uncovered(ledger, machine, kind, lo, hi)| == hi - mid
    decreases hi - lo
  {
    hide Covered;
    var all := Uncovered(ledger, machine, kind, lo, hi);
    if mid < hi {
      UncoveredFrom(ledger, machine, kind, lo, mid, hi - 1);
      assert all == Uncovered(ledger, machine, kind, lo, hi - 1) + {hi - 1};
    } else {
      assert all == {};
    }
  }

  /** The gap a leg leaves: none of its instants is on any row, it is as long as from where the
      leg has been billed through to where the next began, and its price is exactly what the
      bill falls short of. */
  lemma GapIsUnbilled(steps: seq<WorldStep>, machine: nat, kind: Kind, j: nat)
    requires OnTime(steps, machine, kind) && j + 1 < |LegsAfter(steps, machine, kind)|
    ensures var legs := LegsAfter(steps, machine, kind);
      && (forall t :: PutBehind(legs, j, t) ==> !Covered(LedgerAfter(steps), machine, kind, t))
      && legs[j].base <= legs[j].reached <= legs[j + 1].base
      && (legs[j].steady && legs[j].hourly >= SECONDS_PER_HOUR ==>
            |Uncovered(LedgerAfter(steps), machine, kind, legs[j].base, legs[j + 1].base)| == legs[j + 1].base - legs[j].reached)
      && (Settled(legs[j]) ==>
            BilledIn(LedgerAfter(steps), machine, kind, legs[j].base, Some(legs[j + 1].base))
              + IntervalCost(legs[j].hourly, legs[j].origin, legs[j].reached, legs[j + 1].base)
            == IntervalCost(legs[j].hourly, legs[j].origin, legs[j].base, legs[j + 1].base))
  {
    hide Play, Covered, LegCovered, RowsInLegs, LegsInOrder, ColumnsInv, Settled, BilledIn, IntervalCost;
    MeterHolds(steps, machine, kind);
    var ledger, legs := LedgerAfter(steps), LegsAfter(steps, machine, kind);
    var leg, next := legs[j], legs[j + 1].base;
    assert LegInv(legs, j, Play(steps).now);
    forall t: nat | leg.base <= t < next ensures leg.reached <= t ==> !Covered(ledger, machine, kind, t) {
      BilledExactlyThroughReached(steps, machine, kind, j, t);
    }
    if leg.steady && leg.hourly >= SECONDS_PER_HOUR {
      forall t: nat | leg.base <= t < next ensures Covered(ledger, machine, kind, t) <==> t < leg.reached {
        BilledExactlyThroughReached(steps, machine, kind, j, t);
      }
      UncoveredFrom(ledger, machine, kind, leg.base, leg.reached, next);
    }
    if Settled(leg) {
      EachLegIsExact(steps, machine, kind, j);
      CostsTelescope(leg.hourly, leg.origin, leg.base, leg.reached, next);
    }
  }

  // ── For good ──

  /** Some sweep has in hand what would bill leg `j` past `t`: a batch, or a reading to compose
      one from. */
  ghost predicate InHand(w: World, machine: nat, kind: Kind, j: nat, t: nat)
  {
    || (exists b :: b in w.batches && BatchPast(b, machine, kind, j, t))
    || (exists r :: r in w.readings && ReadingPast(r, machine, kind, j, t))
  }

  predicate BatchPast(b: MeterBatch, machine: nat, kind: Kind, j: nat, t: nat)
  {
    b.machine == machine && b.kind == kind && b.leg == j && b.end > t
  }

  predicate ReadingPast(r: Reading, machine: nat, kind: Kind, j: nat, t: nat)
  {
    && machine < |r.machines| && machine < |r.legs| && SaturatingSub(|LegsOf(r.legs[machine], kind)|, 1) == j
    && MeterOf(r.machines[machine], kind).Some? && Target(MeterOf(r.machines[machine], kind).value, r.at) > t
  }

  predicate PutBehindIn(w: World, machine: nat, kind: Kind, j: nat, t: nat)
  {
    machine < |w.legs| == |w.machines| && PutBehind(LegsOf(w.legs[machine], kind), j, t)
  }

  /** With nothing in hand, no step bills the leg past `t`, or takes it in hand. */
  lemma DroppedStays(w: World, step: WorldStep, machine: nat, kind: Kind, j: nat, t: nat)
    requires PutBehindIn(w, machine, kind, j, t) && !InHand(w, machine, kind, j, t)
    ensures PutBehindIn(Act(w, step), machine, kind, j, t) && !InHand(Act(w, step), machine, kind, j, t)
  {
    hide Act, MeterOf, Target, SameLeg;
    var after := Act(w, step);
    ActMovesLegs(w, step, machine, kind);
    var legs, later := LegsOf(w.legs[machine], kind), LegsOf(after.legs[machine], kind);
    assert SameLeg(legs, later, j) && SameLeg(legs, later, j + 1);
    ReachedStays(w, step, machine, kind, j, t);
    NothingTaken(w, step, machine, kind, j, t);
    SameBases(legs, later, j);
  }

  lemma SameBases(legs: seq<Leg>, later: seq<Leg>, j: nat)
    requires |legs| <= |later| && j + 1 < |legs| && SameLeg(legs, later, j) && SameLeg(legs, later, j + 1)
    ensures later[j].base == legs[j].base && later[j + 1].base == legs[j + 1].base
  {
  }

  lemma ReachedStays(w: World, step: WorldStep, machine: nat, kind: Kind, j: nat, t: nat)
    requires PutBehindIn(w, machine, kind, j, t) && !InHand(w, machine, kind, j, t)
    ensures machine < |Act(w, step).legs| && j < |LegsOf(Act(w, step).legs[machine], kind)|
    ensures LegsOf(Act(w, step).legs[machine], kind)[j].reached <= t
  {
    hide Do, Lived, Drain, MeterOf, Target, ReadingPast;
    if step.Execute? && step.batch < |w.batches| {
      assert w.batches[step.batch] in w.batches;
      assert !BatchPast(w.batches[step.batch], machine, kind, j, t);
    }
  }

  lemma NothingTaken(w: World, step: WorldStep, machine: nat, kind: Kind, j: nat, t: nat)
    requires PutBehindIn(w, machine, kind, j, t) && !InHand(w, machine, kind, j, t)
    ensures !InHand(Act(w, step), machine, kind, j, t)
  {
    hide Act, BatchPast, ReadingPast;
    var after := Act(w, step);
    ReadingsGrow(w, step);
    forall r | r in after.readings ensures !ReadingPast(r, machine, kind, j, t) {
      if r !in w.readings { ReadLater(w, step, r, machine, kind, j, t); }
    }
    forall b | b in after.batches ensures !BatchPast(b, machine, kind, j, t) {
      if b !in w.batches { ComposedPast(w, step, b, machine, kind, j, t); }
    }
  }

  /** What is read now is of a later leg. */
  lemma ReadLater(w: World, step: WorldStep, r: Reading, machine: nat, kind: Kind, j: nat, t: nat)
    requires PutBehindIn(w, machine, kind, j, t) && r in Act(w, step).readings && r !in w.readings
    ensures !ReadingPast(r, machine, kind, j, t)
  {
    hide Do, Lived, Drain, MeterOf, Target, ContinuedLegs, BilledThrough;
  }

  /** What is composed ends no later than its reading's target. */
  lemma ComposedPast(w: World, step: WorldStep, b: MeterBatch, machine: nat, kind: Kind, j: nat, t: nat)
    requires !InHand(w, machine, kind, j, t) && b in Act(w, step).batches && b !in w.batches
    ensures !BatchPast(b, machine, kind, j, t)
  {
    hide Do, Lived, Drain, MeterOf, Target, ContinuedLegs, BilledThrough, WindowRows;
    assert step.Compose?;
    var r := w.readings[step.reading];
    var m := MeterOf(r.machines[step.machine], step.kind).value;
    DrainTakesAll(r.machines[step.machine].budget, step.machine, step.kind, m, r.at, step.left);
    assert r in w.readings && !ReadingPast(r, machine, kind, j, t);
  }

  lemma {:induction false} DroppedStaysOn(steps: seq<WorldStep>, more: seq<WorldStep>, machine: nat, kind: Kind, j: nat, t: nat)
    requires PutBehindIn(Play(steps), machine, kind, j, t) && !InHand(Play(steps), machine, kind, j, t)
    ensures PutBehindIn(Play(steps + more), machine, kind, j, t) && !InHand(Play(steps + more), machine, kind, j, t)
  {
    hide Act, PutBehindIn, InHand;
    if more == [] {
      assert steps + more == steps;
    } else {
      DroppedStaysOn(steps, more[..|more| - 1], machine, kind, j, t);
      assert (steps + more)[..|steps + more| - 1] == steps + more[..|more| - 1];
      DroppedStays(Play(steps + more[..|more| - 1]), more[|more| - 1], machine, kind, j, t);
    }
  }

  /** A batch in hand bills the leg past `t` when it executes. */
  lemma BatchInHandBills(w: World, i: nat, machine: nat, kind: Kind, j: nat, t: nat)
    requires i < |w.batches| && BatchPast(w.batches[i], machine, kind, j, t)
    requires machine < |w.legs| == |w.machines| && j < |LegsOf(w.legs[machine], kind)|
    ensures var after := Act(w, Execute(i));
      |after.legs| == |w.legs| && j < |LegsOf(after.legs[machine], kind)| && LegsOf(after.legs[machine], kind)[j].reached > t
  {
    hide Do;
  }

  /** And one can be composed from a reading in hand. */
  lemma ReadingInHandComposes(w: World, i: nat, machine: nat, kind: Kind, j: nat, t: nat)
    requires i < |w.readings| && ReadingPast(w.readings[i], machine, kind, j, t)
    requires MeterOf(w.readings[i].machines[machine], kind).value.cursor <= t
    ensures var r := w.readings[i]; var m := MeterOf(r.machines[machine], kind).value;
      var after := Act(w, Compose(i, machine, kind, Owed(m, r.at)));
      && after == w.(batches := after.batches) && |after.batches| == |w.batches| + 1
      && BatchPast(after.batches[|w.batches|], machine, kind, j, t)
  {
    hide Target, WindowRows, Drain, MeterOf;
    var r := w.readings[i];
    var m := MeterOf(r.machines[machine], kind).value;
    DrainTakesAll(r.machines[machine].budget, machine, kind, m, r.at, Owed(m, r.at));
  }

  /** An instant put behind stays unbilled in every continuation exactly if no sweep has in hand
      what would bill it. */
  lemma DroppedForGoodExactlyWhenNothingIsInHand(steps: seq<WorldStep>, machine: nat, kind: Kind, j: nat, t: nat)
    requires OnTime(steps, machine, kind) && PutBehind(LegsAfter(steps, machine, kind), j, t)
    ensures (forall more :: PutBehind(LegsAfter(steps + more, machine, kind), j, t)) <==> !InHand(Play(steps), machine, kind, j, t)
  {
    hide Play, InHand, PutBehindIn, PutBehind;
    LegsMatch(steps);
    var w := Play(steps);
    assert PutBehindIn(w, machine, kind, j, t) by { BehindIn(w, machine, kind, j, t); }
    if InHand(w, machine, kind, j, t) {
      var more := InHandBills(steps, machine, kind, j, t);
      assert !PutBehind(LegsAfter(steps + more, machine, kind), j, t) by { NotBehind(LegsAfter(steps + more, machine, kind), j, t); }
    } else {
      forall more ensures PutBehind(LegsAfter(steps + more, machine, kind), j, t) {
        DroppedStaysOn(steps, more, machine, kind, j, t);
        LegsAreBehind(Play(steps + more), machine, kind, j, t);
      }
    }
  }

  lemma BehindIn(w: World, machine: nat, kind: Kind, j: nat, t: nat)
    requires |w.legs| == |w.machines| && machine < |w.legs| && PutBehind(LegsOf(w.legs[machine], kind), j, t)
    ensures PutBehindIn(w, machine, kind, j, t)
  {
  }

  lemma LegsAreBehind(w: World, machine: nat, kind: Kind, j: nat, t: nat)
    requires PutBehindIn(w, machine, kind, j, t)
    ensures machine < |w.legs| && PutBehind(LegsOf(w.legs[machine], kind), j, t)
  {
  }

  lemma NotBehind(legs: seq<Leg>, j: nat, t: nat)
    requires j < |legs| && legs[j].reached > t
    ensures !PutBehind(legs, j, t)
  {
  }

  lemma InHandBills(steps: seq<WorldStep>, machine: nat, kind: Kind, j: nat, t: nat) returns (more: seq<WorldStep>)
    requires OnTime(steps, machine, kind) && PutBehind(LegsAfter(steps, machine, kind), j, t)
    requires InHand(Play(steps), machine, kind, j, t)
    ensures j < |LegsAfter(steps + more, machine, kind)| && LegsAfter(steps + more, machine, kind)[j].reached > t
  {
    hide Play, Act, BatchPast, ReadingPast;
    LegsMatch(steps);
    var w := Play(steps);
    if b :| b in w.batches && BatchPast(b, machine, kind, j, t) {
      var i: nat :| i < |w.batches| && w.batches[i] == b;
      BatchInHandBills(w, i, machine, kind, j, t);
      PlayOne(steps, Execute(i));
      more := [Execute(i)];
    } else {
      var r :| r in w.readings && ReadingPast(r, machine, kind, j, t);
      var i: nat :| i < |w.readings| && w.readings[i] == r;
      ReadAtOrBefore(steps, i, machine, kind, j, t);
      ReadingInHandComposes(w, i, machine, kind, j, t);
      var compose := Compose(i, machine, kind, Owed(MeterOf(r.machines[machine], kind).value, r.at));
      PlayOne(steps, compose);
      var mid := Play(steps + [compose]);
      BatchInHandBills(mid, |w.batches|, machine, kind, j, t);
      PlayOne(steps + [compose], Execute(|w.batches|));
      more := [compose] + [Execute(|w.batches|)];
      assert steps + more == steps + [compose] + [Execute(|w.batches|)];
    }
  }

  /** A reading's cursor is no later than what its leg has been billed through since. */
  lemma ReadAtOrBefore(steps: seq<WorldStep>, i: nat, machine: nat, kind: Kind, j: nat, t: nat)
    requires OnTime(steps, machine, kind) && PutBehind(LegsAfter(steps, machine, kind), j, t)
    requires i < |Play(steps).readings| && ReadingPast(Play(steps).readings[i], machine, kind, j, t)
    ensures machine < |Play(steps).readings[i].machines|
    ensures MeterOf(Play(steps).readings[i].machines[machine], kind).Some?
    ensures MeterOf(Play(steps).readings[i].machines[machine], kind).value.cursor <= t
  {
    hide Play, MetersInv, BatchInv, Inv, RowsBelong, Target, MeterOf;
    PlayKeepsInv(steps);
    var w := Play(steps);
    assert ReadingInv(w.readings[i], w);
    assert ReadMeterInv(w.readings[i], machine, kind, w);
  }

  // ── What a machine ran through ──

  predicate Counts(w: World, machine: nat, kind: Kind)
  {
    machine < |w.machines| && MeterOf(w.machines[machine], kind).Some?
  }

  /** The clock passed over the instant while the meter counted. */
  predicate Ran(steps: seq<WorldStep>, machine: nat, kind: Kind, t: nat)
  {
    if steps == [] then false
    else
      var n := |steps| - 1;
      Ran(steps[..n], machine, kind, t)
        || (Counts(Play(steps[..n]), machine, kind) && Play(steps[..n]).now <= t < Play(steps).now)
  }

  lemma {:induction false} RanBeforeNow(steps: seq<WorldStep>, machine: nat, kind: Kind, t: nat)
    requires Ran(steps, machine, kind, t)
    ensures t < Play(steps).now
  {
    hide Act, Counts;
    if steps != [] {
      var n := |steps| - 1;
      if Ran(steps[..n], machine, kind, t) { RanBeforeNow(steps[..n], machine, kind, t); }
      ClockRises(Play(steps[..n]), steps[n]);
    }
  }

  lemma ClockRises(w: World, step: WorldStep)
    ensures w.now <= Act(w, step).now && (step.Tick? || Act(w, step).now == w.now)
  {
    hide Do, Lived, Drain, Target;
  }

  /** Nothing the meter ran through has been put behind a cursor unbilled. */
  ghost predicate NothingDropped(steps: seq<WorldStep>, machine: nat, kind: Kind)
  {
    forall j: nat, t: nat :: PutBehind(LegsAfter(steps, machine, kind), j, t) ==> !Ran(steps, machine, kind, t)
  }

  /** The step is an event that puts the cursor forward over an instant the meter ran through. */
  predicate Drops(steps: seq<WorldStep>, step: WorldStep, machine: nat, kind: Kind, t: nat)
  {
    && step.Live? && step.machine == machine < |Play(steps).machines| && Payable(step.event) && step.stamp <= Play(steps).now
    && var c := ColumnsOf(Play(steps).machines[machine], kind);
       var after := ColumnsOf(Lived(Play(steps).machines[machine], step.event, step.stamp), kind);
       Timed(c) && Retimed(c, after) && c.cursor.value <= t < step.stamp && Ran(steps, machine, kind, t)
  }

  ghost predicate EventsDropNothing(steps: seq<WorldStep>, machine: nat, kind: Kind)
  {
    forall n: nat, t: nat :: n < |steps| ==> !Drops(steps[..n], steps[n], machine, kind, t)
  }

  ghost predicate NothingEverDropped(steps: seq<WorldStep>, machine: nat, kind: Kind)
  {
    forall n: nat :: n <= |steps| ==> NothingDropped(steps[..n], machine, kind)
  }

  /** What one event puts behind: nothing, or the instants from the cursor to its stamp. */
  lemma EventPutsBehind(w: World, step: WorldStep, machine: nat, kind: Kind, j: nat, t: nat)
    requires WorldInv(w) && machine < |w.machines| && step.Live? && (machine, kind) !in Act(w, step).late
    ensures |Act(w, step).legs| == |w.legs| == |w.machines|
    ensures var legs, later := LegsOf(w.legs[machine], kind), LegsOf(Act(w, step).legs[machine], kind);
      var c := ColumnsOf(w.machines[machine], kind);
      PutBehind(later, j, t) <==>
        || PutBehind(legs, j, t)
        || (step.machine == machine && Payable(step.event) && step.stamp <= w.now && j + 1 == |legs| && Timed(c)
            && Retimed(c, ColumnsOf(Lived(w.machines[machine], step.event, step.stamp), kind))
            && c.cursor.value <= t < step.stamp)
  {
    hide MeterInv, ReadingInv, BatchInv, Inv, RowsBelong, Lived, MeterOf, Timely;
    StandsAtCursor(w, machine, kind);
    if step.machine == machine && Payable(step.event) {
      EventsRewrite(w.machines[machine], step.event, step.stamp, kind);
    }
  }

  /** Any other step puts nothing behind. */
  lemma OthersPutNothingBehind(w: World, step: WorldStep, machine: nat, kind: Kind, j: nat, t: nat)
    requires |w.legs| == |w.machines| && machine < |w.machines| && !step.Live?
    requires machine < |Act(w, step).legs| && PutBehind(LegsOf(Act(w, step).legs[machine], kind), j, t)
    ensures PutBehind(LegsOf(w.legs[machine], kind), j, t)
  {
    hide Do, Drain, Target;
  }

  lemma BehindIsPast(w: World, machine: nat, kind: Kind, j: nat, t: nat)
    requires WorldInv(w) && machine < |w.machines| && (machine, kind) !in w.late && PutBehind(LegsOf(w.legs[machine], kind), j, t)
    ensures t < w.now
  {
    hide ReadingInv, BatchInv, Inv, RowsBelong, LegsInOrder, RowsInLegs, ColumnsInv, LegCovered;
    var legs := LegsOf(w.legs[machine], kind);
    assert MeterInv(w.books.tables.ledger, machine, kind, ColumnsOf(w.machines[machine], kind), legs, w.now);
    assert LegInv(legs, j, w.now);
  }

  lemma NewMachineHasNoLegs(w: World, step: WorldStep, machine: nat, kind: Kind)
    requires |w.legs| == |w.machines| <= machine < |Act(w, step).legs|
    ensures LegsOf(Act(w, step).legs[machine], kind) == []
  {
    hide Do, Lived, Drain, ContinuedLegs, BilledThrough;
  }

  /** One step more: something is dropped by it exactly if it is an event that drops it. */
  lemma StepDrops(steps: seq<WorldStep>, step: WorldStep, machine: nat, kind: Kind)
    requires OnTime(steps + [step], machine, kind) && NothingDropped(steps, machine, kind)
    ensures NothingDropped(steps + [step], machine, kind) <==> forall t :: !Drops(steps, step, machine, kind, t)
  {
    hide Play, Act, PutBehind, Drops, WorldInv;
    var w, after := Play(steps), Play(steps + [step]);
    PlayOne(steps, step);
    PlayKeepsInv(steps);
    PlayKeepsInv(steps + [step]);
    LegsMatch(steps);
    LegsMatch(steps + [step]);
    ActGrowsLegs(w, step);
    if machine < |w.machines| {
      forall j: nat, t: nat
        ensures PutBehind(LegsAfter(steps + [step], machine, kind), j, t) && Ran(steps + [step], machine, kind, t)
          ==> Drops(steps, step, machine, kind, t)
      {
        if PutBehind(LegsAfter(steps + [step], machine, kind), j, t) && Ran(steps + [step], machine, kind, t) {
          BehindIsPast(after, machine, kind, j, t);
          RanOneMore(steps, step, machine, kind, t);
          OnlyEventsDrop(steps, step, machine, kind, j, t);
        }
      }
      forall t | Drops(steps, step, machine, kind, t) ensures !NothingDropped(steps + [step], machine, kind) {
        DropIsPutBehind(steps, step, machine, kind, t);
        RanOneMore(steps, step, machine, kind, t);
        assert PutBehind(LegsAfter(steps + [step], machine, kind), |LegsAfter(steps, machine, kind)| - 1, t);
      }
    } else {
      NewMachineHasNoLegs(w, step, machine, kind);
      NoLegsNoDrop(steps, step, machine, kind);
    }
  }

  lemma NoLegsNoDrop(steps: seq<WorldStep>, step: WorldStep, machine: nat, kind: Kind)
    requires |Play(steps).machines| <= machine && LegsAfter(steps + [step], machine, kind) == []
    ensures NothingDropped(steps + [step], machine, kind) && forall t :: !Drops(steps, step, machine, kind, t)
  {
    hide Play, Ran;
  }

  lemma RanOneMore(steps: seq<WorldStep>, step: WorldStep, machine: nat, kind: Kind, t: nat)
    ensures Ran(steps, machine, kind, t) ==> Ran(steps + [step], machine, kind, t)
    ensures Ran(steps + [step], machine, kind, t) && !Ran(steps, machine, kind, t) ==> step.Tick? && Play(steps).now <= t
  {
    hide Act, Counts;
    assert (steps + [step])[..|steps|] == steps;
    PlayOne(steps, step);
    ClockRises(Play(steps), step);
  }

  lemma OnlyEventsDrop(steps: seq<WorldStep>, step: WorldStep, machine: nat, kind: Kind, j: nat, t: nat)
    requires OnTime(steps + [step], machine, kind) && NothingDropped(steps, machine, kind) && machine < |Play(steps).machines|
    requires PutBehind(LegsAfter(steps + [step], machine, kind), j, t) && Ran(steps + [step], machine, kind, t)
    ensures Drops(steps, step, machine, kind, t)
  {
    hide Play, Act, WorldInv, Ran, Lived, PutBehind;
    var w := Play(steps);
    PlayOne(steps, step);
    PlayKeepsInv(steps);
    LegsMatch(steps);
    ActGrowsLegs(w, step);
    RanOneMore(steps, step, machine, kind, t);
    assert PutBehind(LegsAfter(steps, machine, kind), j, t) ==> !Ran(steps, machine, kind, t);
    if step.Live? {
      EventPutsBehind(w, step, machine, kind, j, t);
    } else {
      OthersPutNothingBehind(w, step, machine, kind, j, t);
      BehindIsPast(w, machine, kind, j, t);
    }
  }

  lemma DropIsPutBehind(steps: seq<WorldStep>, step: WorldStep, machine: nat, kind: Kind, t: nat)
    requires OnTime(steps + [step], machine, kind) && Drops(steps, step, machine, kind, t)
    ensures LegsAfter(steps, machine, kind) != [] && Ran(steps, machine, kind, t)
    ensures PutBehind(LegsAfter(steps + [step], machine, kind), |LegsAfter(steps, machine, kind)| - 1, t)
  {
    hide Play, Act, Ran, Lived, MeterInv, ReadingInv, BatchInv, Inv, RowsBelong, PutBehind;
    var w := Play(steps);
    PlayOne(steps, step);
    PlayKeepsInv(steps);
    ActGrowsLegs(w, step);
    StandsAtCursor(w, machine, kind);
    EventPutsBehind(w, step, machine, kind, |LegsAfter(steps, machine, kind)| - 1, t);
  }

  lemma {:induction false} OnTimeEarlier(steps: seq<WorldStep>, n: nat, machine: nat, kind: Kind)
    requires OnTime(steps, machine, kind) && n <= |steps|
    ensures machine < |Play(steps[..n]).machines| ==> OnTime(steps[..n], machine, kind)
    decreases |steps| - n
  {
    hide Act;
    if n == |steps| {
      assert steps[..n] == steps;
    } else {
      OnTimeEarlier(steps, n + 1, machine, kind);
      assert steps[..n + 1][..n] == steps[..n];
      MachinesStay(Play(steps[..n]), steps[n]);
      ActGrowsLegs(Play(steps[..n]), steps[n]);
    }
  }

  lemma MachinesStay(w: World, step: WorldStep)
    ensures |w.machines| <= |Act(w, step).machines|
  {
    hide Do, Lived, Drain, AdvancedRow;
  }

  lemma NotYetBuilt(steps: seq<WorldStep>, machine: nat, kind: Kind)
    requires |Play(steps).machines| <= machine
    ensures NothingDropped(steps, machine, kind)
  {
    hide Play, Ran;
    LegsMatch(steps);
  }

  lemma {:induction false} NothingDroppedBy(steps: seq<WorldStep>, n: nat, machine: nat, kind: Kind)
    requires OnTime(steps, machine, kind) && EventsDropNothing(steps, machine, kind) && n <= |steps|
    ensures NothingDropped(steps[..n], machine, kind)
  {
    hide Play, Drops, NothingDropped;
    if |Play(steps[..n]).machines| <= machine {
      NotYetBuilt(steps[..n], machine, kind);
    } else if n == 0 {
      NothingBegun(machine, kind);
    } else {
      NothingDroppedBy(steps, n - 1, machine, kind);
      assert steps[..n] == steps[..n - 1] + [steps[n - 1]];
      OnTimeEarlier(steps, n, machine, kind);
      StepDrops(steps[..n - 1], steps[n - 1], machine, kind);
    }
  }

  lemma NothingBegun(machine: nat, kind: Kind)
    ensures NothingDropped([], machine, kind)
  {
  }

  /** Through a whole run nothing the meter ran through is ever put behind unbilled, exactly if
      no event put its cursor forward over an instant it ran through. */
  lemma NothingDroppedExactlyWhenNoEventDrops(steps: seq<WorldStep>, machine: nat, kind: Kind)
    requires OnTime(steps, machine, kind)
    ensures NothingEverDropped(steps, machine, kind) <==> EventsDropNothing(steps, machine, kind)
  {
    hide Play, Drops, NothingDropped;
    if EventsDropNothing(steps, machine, kind) {
      forall n: nat | n <= |steps| ensures NothingDropped(steps[..n], machine, kind) {
        NothingDroppedBy(steps, n, machine, kind);
      }
    }
    if NothingEverDropped(steps, machine, kind) {
      forall n: nat, t: nat | n < |steps| ensures !Drops(steps[..n], steps[n], machine, kind, t) {
        assert NothingDropped(steps[..n], machine, kind) && NothingDropped(steps[..n + 1], machine, kind);
        assert steps[..n + 1] == steps[..n] + [steps[n]];
        OnTimeEarlier(steps, n + 1, machine, kind);
        if machine < |Play(steps[..n + 1]).machines| {
          StepDrops(steps[..n], steps[n], machine, kind);
        } else {
          NeverBuiltNeverDrops(steps[..n], steps[n], machine, kind, t);
        }
      }
    }
  }

  lemma NeverBuiltNeverDrops(steps: seq<WorldStep>, step: WorldStep, machine: nat, kind: Kind, t: nat)
    requires |Play(steps + [step]).machines| <= machine
    ensures !Drops(steps, step, machine, kind, t)
  {
    hide Play, Ran, Act;
    PlayOne(steps, step);
    MachinesStay(Play(steps), step);
  }

  /** For a meter that counted when the clock last passed the stamp, an event that moves the
      cursor drops something exactly if the cursor was behind the stamp. */
  lemma EventDropsExactlyWhenBehind(steps: seq<WorldStep>, event: Event, stamp: nat, machine: nat, kind: Kind)
    requires OnTime(steps, machine, kind) && Payable(event) && 0 < stamp <= Play(steps).now
    requires Ran(steps, machine, kind, stamp - 1)
    requires var row := Play(steps).machines[machine];
      Timed(ColumnsOf(row, kind)) && Retimed(ColumnsOf(row, kind), ColumnsOf(Lived(row, event, stamp), kind))
    ensures (exists t :: Drops(steps, Live(machine, event, stamp), machine, kind, t))
       <==> ColumnsOf(Play(steps).machines[machine], kind).cursor.value < stamp
  {
    hide Play, Ran, Lived;
    if ColumnsOf(Play(steps).machines[machine], kind).cursor.value < stamp {
      assert Drops(steps, Live(machine, event, stamp), machine, kind, stamp - 1);
    }
  }

  // ── A meter that no longer counts ──

  /** The meter counts no more, and its last leg has not been billed past `t`. */
  predicate Idle(w: World, machine: nat, kind: Kind, j: nat, t: nat)
  {
    && machine < |w.legs| == |w.machines| && !Counts(w, machine, kind)
    && j + 1 == |LegsOf(w.legs[machine], kind)| && LegsOf(w.legs[machine], kind)[j].reached <= t
  }

  lemma IdleStays(w: World, step: WorldStep, machine: nat, kind: Kind, j: nat, t: nat)
    requires Idle(w, machine, kind, j, t) && !InHand(w, machine, kind, j, t)
    requires !(step.Live? && step.machine == machine)
    ensures Idle(Act(w, step), machine, kind, j, t) && !InHand(Act(w, step), machine, kind, j, t)
  {
    hide Act, Idle, BatchPast, ReadingPast;
    IdleLegs(w, step, machine, kind, j, t);
    ReadingsGrow(w, step);
    var after := Act(w, step);
    forall r | r in after.readings ensures !ReadingPast(r, machine, kind, j, t) {
      if r !in w.readings { IdleRead(w, step, r, machine, kind, j, t); }
    }
    forall b | b in after.batches ensures !BatchPast(b, machine, kind, j, t) {
      if b !in w.batches { ComposedPast(w, step, b, machine, kind, j, t); }
    }
  }

  lemma IdleLegs(w: World, step: WorldStep, machine: nat, kind: Kind, j: nat, t: nat)
    requires Idle(w, machine, kind, j, t) && !InHand(w, machine, kind, j, t)
    requires !(step.Live? && step.machine == machine)
    ensures Idle(Act(w, step), machine, kind, j, t)
  {
    hide Do, Lived, Drain, Target, ReadingPast;
    if step.Execute? && step.batch < |w.batches| {
      assert w.batches[step.batch] in w.batches;
      assert !BatchPast(w.batches[step.batch], machine, kind, j, t);
    }
  }

  lemma IdleRead(w: World, step: WorldStep, r: Reading, machine: nat, kind: Kind, j: nat, t: nat)
    requires Idle(w, machine, kind, j, t) && r in Act(w, step).readings && r !in w.readings
    ensures !ReadingPast(r, machine, kind, j, t)
  {
    hide Do, Lived, Drain, Target, ContinuedLegs, BilledThrough;
  }

  /** So what a destroyed machine ran through and no sweep has in hand stays unbilled, until an
      event makes it count again. */
  lemma {:induction false} IdleMeterStaysUnbilled(steps: seq<WorldStep>, more: seq<WorldStep>, machine: nat, kind: Kind, j: nat, t: nat)
    requires Idle(Play(steps), machine, kind, j, t) && !InHand(Play(steps), machine, kind, j, t)
    requires forall step :: step in more ==> !(step.Live? && step.machine == machine)
    ensures Idle(Play(steps + more), machine, kind, j, t) && !InHand(Play(steps + more), machine, kind, j, t)
  {
    hide Act, Idle, InHand;
    if more == [] {
      assert steps + more == steps;
    } else {
      IdleMeterStaysUnbilled(steps, more[..|more| - 1], machine, kind, j, t);
      assert (steps + more)[..|steps + more| - 1] == steps + more[..|more| - 1];
      assert more[|more| - 1] in more;
      IdleStays(Play(steps + more[..|more| - 1]), more[|more| - 1], machine, kind, j, t);
    }
  }

  // ── It happens ──

  const STOPPED: seq<WorldStep> :=
    [AddMachine(0)] + [Live(0, Built(Running, Some(3_600), None), 0)] + [Tick(3_600)] + [Live(0, Operated(Deallocated), 3_600)]

  /** A machine that ran for an hour, was never swept, and is stopped: nothing bills the hour,
      and nothing ever will. */
  lemma StoppedMachineDropsItsHour()
    ensures LedgerAfter(STOPPED) == [] && OnTime(STOPPED, 0, Compute)
    ensures LegsAfter(STOPPED, 0, Compute) == [Leg(3_600, 0, 0, 0, true), Leg(3_600, 0, 3_600, 3_600, true)]
    ensures forall t: nat :: t < 3_600 ==> Ran(STOPPED, 0, Compute, t)
    ensures forall t: nat, more :: t < 3_600 ==> PutBehind(LegsAfter(STOPPED + more, 0, Compute), 0, t)
  {
    StoppedMachine();
    hide Play;
    forall t: nat, more | t < 3_600 ensures PutBehind(LegsAfter(STOPPED + more, 0, Compute), 0, t) {
      DroppedForGoodExactlyWhenNothingIsInHand(STOPPED, 0, Compute, 0, t);
    }
  }

  lemma StoppedMachine()
    ensures LedgerAfter(STOPPED) == [] && OnTime(STOPPED, 0, Compute)
    ensures LegsAfter(STOPPED, 0, Compute) == [Leg(3_600, 0, 0, 0, true), Leg(3_600, 0, 3_600, 3_600, true)]
    ensures forall t: nat :: t < 3_600 ==> Ran(STOPPED, 0, Compute, t)
    ensures Play(STOPPED).readings == [] && Play(STOPPED).batches == []
  {
    var s1 := [AddMachine(0)];
    var s2 := s1 + [Live(0, Built(Running, Some(3_600), None), 0)];
    var s3 := s2 + [Tick(3_600)];
    PlayOne([], AddMachine(0));
    assert [] + [AddMachine(0)] == s1;
    PlayOne(s1, Live(0, Built(Running, Some(3_600), None), 0));
    PlayOne(s2, Tick(3_600));
    PlayOne(s3, Live(0, Operated(Deallocated), 3_600));
    assert STOPPED[..|STOPPED| - 1] == s3 && s3[..|s3| - 1] == s2;
  }
}
