/** What a meter restarted off its minute comes to: a machine's start or resize puts the
    cursor at the present and leaves the origin where it was (crates/api/src/machines.rs:243-250),
    so the windows a sweep cuts depend on where its target fell, and two sweeps that read the
    same cursor at different times cut windows that share instants under different keys. */
module OffMinute {
  import opened Prelude
  import opened BudgetTables
  import opened BudgetRuns
  import opened Metering
  import opened MeterRuns
  import opened MeterBills

  /** No two rows of leg `j` share an instant. */
  ghost predicate BilledOnce(steps: seq<WorldStep>, machine: nat, kind: Kind, j: nat)
  {
    var ledger, legs := LedgerAfter(steps), LegsAfter(steps, machine, kind);
    j < |legs| && forall a: nat, b: nat :: a < b < |ledger| ==> OnceIn(ledger, machine, kind, legs, j, a, b)
  }

  /** Nor will any, while events come in time. */
  ghost predicate BilledOnceEver(steps: seq<WorldStep>, machine: nat, kind: Kind, j: nat)
  {
    forall more :: OnTime(steps + more, machine, kind) ==> BilledOnce(steps + more, machine, kind, j)
  }

  predicate OnceIn(ledger: seq<SpendRow>, machine: nat, kind: Kind, legs: seq<Leg>, j: nat, a: nat, b: nat)
    requires j < |legs| && a < b < |ledger|
  {
    var lo, hi := legs[j].base, Until(legs, j);
    if BillsIn(ledger[a], machine, kind, lo, hi) && BillsIn(ledger[b], machine, kind, lo, hi)
    then Apart(ledger[a].key.value, ledger[b].key.value) else true
  }

  // ── On the minute ──

  lemma RowsOfAlignedLegApart(ledger: seq<SpendRow>, machine: nat, kind: Kind, legs: seq<Leg>, j: nat, a: nat, b: nat)
    requires j < |legs| && LegCovered(ledger, machine, kind, legs, j) && OnTheMinute(legs[j])
    requires KeysOnce(ledger) && a < b < |ledger|
    ensures OnceIn(ledger, machine, kind, legs, j, a, b)
  {
    hide Covers, AmongFirst, OnTheMinute;
    var k: nat :| CoveredTo(ledger, machine, kind, legs, j, k);
    if BillsIn(ledger[a], machine, kind, legs[j].base, Until(legs, j)) && BillsIn(ledger[b], machine, kind, legs[j].base, Until(legs, j)) {
      assert ledger[a].key.value in Keys(ledger) && ledger[b].key.value in Keys(ledger);
      WindowsOfOneLeg(ledger[a].key.value, ledger[b].key.value, machine, kind, legs[j], k);
    }
  }

  lemma OnTheMinuteBillsOnce(steps: seq<WorldStep>, more: seq<WorldStep>, machine: nat, kind: Kind, j: nat)
    requires machine < |Play(steps).machines| && j < |LegsAfter(steps, machine, kind)|
    requires OnTheMinute(LegsAfter(steps, machine, kind)[j]) && OnTime(steps + more, machine, kind)
    ensures BilledOnce(steps + more, machine, kind, j)
  {
    hide Play, OnceIn, LegCovered, RowsInLegs, LegsInOrder, ColumnsInv, LegInv, KeysOnce;
    LegsPersist(steps, more, machine, kind);
    MeterHolds(steps + more, machine, kind);
    KeysStayUnique(steps + more);
    var ledger, legs := LedgerAfter(steps + more), LegsAfter(steps + more, machine, kind);
    assert SameLeg(LegsAfter(steps, machine, kind), legs, j);
    forall a: nat, b: nat | a < b < |ledger| ensures OnceIn(ledger, machine, kind, legs, j, a, b) {
      RowsOfAlignedLegApart(ledger, machine, kind, legs, j, a, b);
    }
  }

  // ── Off the minute ──

  lemma HourAddsThePrice(hourly: nat, origin: nat, start: nat)
    requires origin <= start
    ensures Cumulative(hourly, origin, start + 3_600) == Cumulative(hourly, origin, start) + hourly
  {
    assert hourly * (start + 3_600 - origin) == hourly * (start - origin) + 3_600 * hourly;
  }

  lemma {:induction false} FreeMinutes(hourly: nat, origin: nat, start: nat, n: nat)
    requires forall q: nat :: q < n ==> IntervalCost(hourly, origin, Boundary(start, q), Boundary(start, q + 1)) == 0
    ensures Cumulative(hourly, origin, Boundary(start, n)) == Cumulative(hourly, origin, start)
  {
    hide Cumulative;
    if n != 0 {
      FreeMinutes(hourly, origin, start, n - 1);
      CumulativeMonotone(hourly, origin, Boundary(start, n - 1), Boundary(start, n));
      assert IntervalCost(hourly, origin, Boundary(start, n - 1), Boundary(start, n)) == 0;
    }
  }

  /** At any price, some minute of every hour costs something. */
  lemma SomeMinuteCosts(hourly: nat, origin: nat, start: nat) returns (q: nat)
    requires hourly > 0 && origin <= start
    ensures q < 60 && IntervalCost(hourly, origin, Boundary(start, q), Boundary(start, q + 1)) > 0
  {
    hide Cumulative, IntervalCost;
    if forall q: nat :: q < 60 ==> IntervalCost(hourly, origin, Boundary(start, q), Boundary(start, q + 1)) == 0 {
      FreeMinutes(hourly, origin, start, 60);
      HourAddsThePrice(hourly, origin, start);
      assert false;
    }
    q :| q < 60 && IntervalCost(hourly, origin, Boundary(start, q), Boundary(start, q + 1)) != 0;
  }

  /** A window that costs something keeps costing on one side of any cut, and so in any two
      windows that cover it. */
  lemma OverlappingWindowCosts(hourly: nat, origin: nat, from: nat, base: nat, q: nat) returns (p: nat)
    requires base < from < base + WINDOW_SECONDS
    requires IntervalCost(hourly, origin, Boundary(from, q), Boundary(from, q + 1)) > 0
    ensures q <= p <= q + 1 && IntervalCost(hourly, origin, Boundary(base, p), Boundary(base, p + 1)) > 0
  {
    hide Cumulative;
    CumulativeMonotone(hourly, origin, Boundary(base, q), Boundary(from, q));
    CumulativeMonotone(hourly, origin, Boundary(from, q), Boundary(base, q + 1));
    CumulativeMonotone(hourly, origin, Boundary(base, q + 1), Boundary(from, q + 1));
    CumulativeMonotone(hourly, origin, Boundary(from, q + 1), Boundary(base, q + 2));
    p := if IntervalCost(hourly, origin, Boundary(base, q), Boundary(base, q + 1)) > 0 then q else q + 1;
  }

  ghost predicate HasRow(rows: seq<SpendRow>, key: SpendKey)
  {
    exists row :: row in rows && row.key == Some(key)
  }

  /** Every whole window a batch bills at a price is one of its rows. */
  lemma {:induction false} WindowIsARow(budget: nat, machine: nat, kind: Kind, m: Meter, target: nat, n: nat, q: nat)
    requires q < n && Boundary(m.cursor, n) <= target
    requires IntervalCost(m.hourly, m.startedAt, Boundary(m.cursor, q), Boundary(m.cursor, q + 1)) > 0
    ensures HasRow(WindowRows(budget, machine, kind, m, target, n), Window(machine, kind, Boundary(m.cursor, q), Boundary(m.cursor, q + 1)))
  {
    hide IntervalCost;
    var rows := WindowRows(budget, machine, kind, m, target, n);
    if q == n - 1 {
      assert rows[|rows| - 1] in rows;
    } else {
      WindowIsARow(budget, machine, kind, m, target, n - 1, q);
      var row :| row in WindowRows(budget, machine, kind, m, target, n - 1)
        && row.key == Some(Window(machine, kind, Boundary(m.cursor, q), Boundary(m.cursor, q + 1)));
      assert row in rows;
    }
  }

  lemma {:induction false} InsertedKeysLand(ledger: seq<SpendRow>, rows: seq<SpendRow>, key: SpendKey)
    requires HasRow(rows, key)
    ensures key in Keys(InsertRows(ledger, rows))
  {
    hide Keys;
    var init, last := rows[..|rows| - 1], rows[|rows| - 1];
    var l := InsertRows(ledger, init);
    if HasRow(init, key) {
      InsertedKeysLand(ledger, init, key);
      KeysGrow(l, InsertRows(ledger, rows));
    } else {
      var row :| row in rows && row.key == Some(key);
      assert row == last;
      if key !in Keys(l) { KeysAfterInsert(l, last); }
    }
  }

  /** The first minute after a cursor that is counted from the origin. */
  function NextMinute(m: Meter): nat
    requires m.startedAt <= m.cursor
  {
    m.startedAt + ((m.cursor - m.startedAt) / WINDOW_SECONDS + 1) * WINDOW_SECONDS
  }

  lemma NextMinuteIsNext(m: Meter)
    requires m.startedAt <= m.cursor && (m.cursor - m.startedAt) % WINDOW_SECONDS != 0
    requires m.cursor + 60 <= U64_MAX
    ensures m.cursor < NextMinute(m) < m.cursor + WINDOW_SECONDS
    ensures Target(m, NextMinute(m)) == NextMinute(m) && Owed(m, NextMinute(m)) == 1
    ensures Reach(m, NextMinute(m), 1) == NextMinute(m)
  {
    var k := (m.cursor - m.startedAt) / WINDOW_SECONDS;
    assert NextMinute(m) - m.startedAt == WINDOW_SECONDS * (k + 1);
    MinutesDivide(k + 1);
  }

  lemma MinutesDivide(k: nat)
    ensures WINDOW_SECONDS * k / WINDOW_SECONDS == k
  {
  }

  /** Two hours on, more than an hour of whole windows is owed. */
  lemma AnHourIsOwed(m: Meter, at: nat)
    requires m.startedAt <= m.cursor && m.cursor + 7_140 <= at <= U64_MAX
    ensures Owed(m, at) >= 62 && Boundary(m.cursor, 62) <= Target(m, at)
  {
  }

  lemma PlayOne(steps: seq<WorldStep>, step: WorldStep)
    ensures Play(steps + [step]) == Act(Play(steps), step)
  {
    assert (steps + [step])[..|steps|] == steps;
  }

  /** A sweep that composes what `reading` says of one meter, and the batch it makes. */
  lemma ComposedIs(w: World, reading: nat, machine: nat, kind: Kind, left: nat, m: Meter, at: nat)
    requires reading < |w.readings| && machine < |w.readings[reading].machines| && machine < |w.readings[reading].legs|
    requires w.readings[reading].at == at && MeterOf(w.readings[reading].machines[machine], kind) == Some(m)
    requires 0 < left <= Owed(m, at)
    ensures var after := Act(w, Compose(reading, machine, kind, left));
      && after == w.(batches := after.batches) && |after.batches| == |w.batches| + 1
      && after.batches[..|w.batches|] == w.batches
      && var b := after.batches[|w.batches|];
         && b.machine == machine && b.kind == kind && b.end == Reach(m, Target(m, at), left)
         && b.rows == WindowRows(w.readings[reading].machines[machine].budget, machine, kind, m, Target(m, at), left)
  {
    hide Target, WindowRows, Drain;
    DrainTakesAll(w.readings[reading].machines[machine].budget, machine, kind, m, at, left);
  }

  /** Executing it. */
  lemma ExecutedIs(w: World, i: nat)
    requires i < |w.batches| && w.batches[i].machine < |w.machines| == |w.legs|
    ensures var b, after := w.batches[i], Act(w, Execute(i));
      && after.now == w.now && after.readings == w.readings && after.batches == w.batches && after.late == w.late
      && after.machines == w.machines[b.machine := AdvancedRow(w.machines[b.machine], b.kind, b.end)]
      && after.books.tables.ledger == InsertRows(w.books.tables.ledger, b.rows)
  {
    hide InsertRows, Do, AdvancedRow;
    InsertIs(w.books, w.batches[i].rows);
  }

  lemma AdvancedMeter(row: MachineRow, kind: Kind, m: Meter, end: nat)
    requires MeterOf(row, kind) == Some(m) && m.cursor < end
    ensures MeterOf(AdvancedRow(row, kind, end), kind) == Some(m.(cursor := end))
    ensures AdvancedRow(row, kind, end).budget == row.budget
  {
  }

  /** A machine whose meter is live and stands between two minutes of its origin. */
  predicate OffMinute(w: World, machine: nat, kind: Kind, m: Meter)
  {
    && machine < |w.machines| == |w.legs|
    && MeterOf(w.machines[machine], kind) == Some(m) && m.hourly > 0
    && m.startedAt <= m.cursor <= w.now && (m.cursor - m.startedAt) % WINDOW_SECONDS != 0
    && w.now + 2 * SECONDS_PER_HOUR <= U64_MAX
  }

  function ActAll(w: World, steps: seq<WorldStep>): World
  {
    if steps == [] then w else Act(ActAll(w, steps[..|steps| - 1]), steps[|steps| - 1])
  }

  lemma {:induction false} PlayOn(steps: seq<WorldStep>, more: seq<WorldStep>)
    ensures Play(steps + more) == ActAll(Play(steps), more)
  {
    hide Act;
    if more == [] {
      assert steps + more == steps;
    } else {
      PlayOn(steps, more[..|more| - 1]);
      assert (steps + more)[..|steps + more| - 1] == steps + more[..|more| - 1];
    }
  }

  lemma ActOne(w: World, steps: seq<WorldStep>, step: WorldStep)
    ensures ActAll(w, steps + [step]) == Act(ActAll(w, steps), step)
  {
    assert (steps + [step])[..|steps|] == steps;
  }

  lemma ActFirst(w: World, step: WorldStep)
    ensures ActAll(w, [step]) == Act(w, step)
  {
    assert [step][..0] == [];
    assert ActAll(w, [step][..0]) == w;
  }

  lemma SelectedIs(w: World, at: nat)
    requires at <= w.now
    ensures Act(w, Select(at)) == w.(readings := w.readings + [Reading(at, w.machines, w.legs)])
  {
  }

  lemma TickedIs(w: World, now: nat)
    requires w.now <= now <= U64_MAX
    ensures Act(w, Tick(now)) == w.(now := now)
  {
  }

  /** One sweep's time is the next whole minute, another's two hours on; both read the meter
      before either wrote, and the first of them takes the minute it owes. */
  lemma FirstSweep(w: World, machine: nat, kind: Kind, m: Meter) returns (steps: seq<WorldStep>)
    requires OffMinute(w, machine, kind, m)
    ensures var after, late := ActAll(w, steps), w.now + 2 * SECONDS_PER_HOUR;
      && after.now == late && after.late == w.late && |after.machines| == |after.legs| == |w.machines|
      && |LegsOf(after.legs[machine], kind)| == |LegsOf(w.legs[machine], kind)|
      && MeterOf(after.machines[machine], kind) == Some(m.(cursor := NextMinute(m)))
      && |after.readings| == |w.readings| + 2
      && after.readings[|w.readings| + 1] == Reading(late, w.machines, w.legs)
  {
    hide Act, ActAll, WindowRows, InsertRows, Target, Owed, MeterOf, AdvancedRow, Reach, NextMinute;
    var late, next := w.now + 2 * SECONDS_PER_HOUR, NextMinute(m);
    NextMinuteIsNext(m);
    var r, i := |w.readings|, |w.batches|;
    TickedIs(w, late);
    var w1 := Act(w, Tick(late));
    SelectedIs(w1, next);
    var w2 := Act(w1, Select(next));
    SelectedIs(w2, late);
    var w3 := Act(w2, Select(late));
    ComposedIs(w3, r, machine, kind, 1, m, next);
    var w4 := Act(w3, Compose(r, machine, kind, 1));
    ExecutedIs(w4, i);
    ExecutedLegs(w4, i, kind);
    AdvancedMeter(w.machines[machine], kind, m, next);
    ActFirst(w, Tick(late));
    ActOne(w, [Tick(late)], Select(next));
    ActOne(w, [Tick(late)] + [Select(next)], Select(late));
    ActOne(w, [Tick(late)] + [Select(next)] + [Select(late)], Compose(r, machine, kind, 1));
    ActOne(w, [Tick(late)] + [Select(next)] + [Select(late)] + [Compose(r, machine, kind, 1)], Execute(i));
    steps := [Tick(late)] + [Select(next)] + [Select(late)] + [Compose(r, machine, kind, 1)] + [Execute(i)];
  }

  lemma ExecutedLegs(w: World, i: nat, kind: Kind)
    requires i < |w.batches| && w.batches[i].machine < |w.machines| == |w.legs|
    ensures var m, after := w.batches[i].machine, Act(w, Execute(i));
      |after.legs| == |w.legs| && |LegsOf(after.legs[m], kind)| == |LegsOf(w.legs[m], kind)|
  {
    hide InsertRows, Do, AdvancedRow;
  }

  /** Both later batches land: the one read before the cursor moved, and the one read after. */
  lemma SecondSweeps(w: World, machine: nat, kind: Kind, r: nat, m: Meter, later: Meter, n: nat, k: nat) returns (steps: seq<WorldStep>)
    requires machine < |w.machines| == |w.legs| && MeterOf(w.machines[machine], kind) == Some(later)
    requires r < |w.readings| && machine < |w.readings[r].machines| && machine < |w.readings[r].legs|
    requires MeterOf(w.readings[r].machines[machine], kind) == Some(m) && w.readings[r].at == w.now
    requires 0 < n <= Owed(m, w.now) && 0 < k <= Owed(later, w.now)
    ensures var after := ActAll(w, steps);
      && after.late == w.late && |after.legs| == |w.legs|
      && |LegsOf(after.legs[machine], kind)| == |LegsOf(w.legs[machine], kind)|
      && after.books.tables.ledger
           == InsertRows(InsertRows(w.books.tables.ledger, WindowRows(w.readings[r].machines[machine].budget, machine, kind, m, Target(m, w.now), n)),
                         WindowRows(w.machines[machine].budget, machine, kind, later, Target(later, w.now), k))
  {
    hide Act, ActAll, WindowRows, InsertRows, Target, Owed, MeterOf, AdvancedRow, Reach;
    var q, i := |w.readings|, |w.batches|;
    SelectedIs(w, w.now);
    var w1 := Act(w, Select(w.now));
    ComposedIs(w1, r, machine, kind, n, m, w.now);
    var w2 := Act(w1, Compose(r, machine, kind, n));
    ComposedIs(w2, q, machine, kind, k, later, w.now);
    var w3 := Act(w2, Compose(q, machine, kind, k));
    assert w3.batches[i] == w2.batches[i];
    ExecutedIs(w3, i);
    ExecutedLegs(w3, i, kind);
    var w4 := Act(w3, Execute(i));
    ExecutedIs(w4, i + 1);
    ExecutedLegs(w4, i + 1, kind);
    ActFirst(w, Select(w.now));
    ActOne(w, [Select(w.now)], Compose(r, machine, kind, n));
    ActOne(w, [Select(w.now)] + [Compose(r, machine, kind, n)], Compose(q, machine, kind, k));
    ActOne(w, [Select(w.now)] + [Compose(r, machine, kind, n)] + [Compose(q, machine, kind, k)], Execute(i));
    ActOne(w, [Select(w.now)] + [Compose(r, machine, kind, n)] + [Compose(q, machine, kind, k)] + [Execute(i)], Execute(i + 1));
    steps := [Select(w.now)] + [Compose(r, machine, kind, n)] + [Compose(q, machine, kind, k)] + [Execute(i)] + [Execute(i + 1)];
  }

  /** The ledger holds two windows of the meter, from `lo` on, that share an instant. */
  ghost predicate TwiceBilled(ledger: seq<SpendRow>, machine: nat, kind: Kind, lo: nat)
  {
    exists a: nat, b: nat :: TwiceIn(ledger, machine, kind, lo, a, b)
  }

  predicate TwiceIn(ledger: seq<SpendRow>, machine: nat, kind: Kind, lo: nat, a: nat, b: nat)
  {
    && a < b < |ledger|
    && BillsIn(ledger[a], machine, kind, lo, None) && BillsIn(ledger[b], machine, kind, lo, None)
    && !Apart(ledger[a].key.value, ledger[b].key.value)
  }

  lemma KeysTwiceBilled(ledger: seq<SpendRow>, machine: nat, kind: Kind, lo: nat, a: SpendKey, b: SpendKey)
    requires a in Keys(ledger) && b in Keys(ledger) && a != b
    requires OfMeter(a, machine, kind) && OfMeter(b, machine, kind) && lo <= a.start && lo <= b.start && !Apart(a, b)
    ensures TwiceBilled(ledger, machine, kind, lo)
  {
    var i: nat :| i < |ledger| && ledger[i].key == Some(a);
    var j: nat :| j < |ledger| && ledger[j].key == Some(b);
    if i < j {
      assert TwiceIn(ledger, machine, kind, lo, i, j);
    } else {
      assert TwiceIn(ledger, machine, kind, lo, j, i);
    }
  }

  /** Whole minutes from `next` and whole minutes from a cursor between two of them overlap,
      and somewhere within the hour both cost something. */
  lemma OverlappingRows(ledger: seq<SpendRow>, machine: nat, kind: Kind, budget: nat, other: nat, m: Meter, next: nat, target: nat)
    requires m.startedAt <= m.cursor < next < m.cursor + WINDOW_SECONDS && m.hourly > 0
    requires Boundary(m.cursor, 62) <= target
    ensures var later := m.(cursor := next);
      TwiceBilled(InsertRows(InsertRows(ledger, WindowRows(budget, machine, kind, m, target, 62)),
                             WindowRows(other, machine, kind, later, target, 60)), machine, kind, m.cursor)
  {
    hide WindowRows, InsertRows, IntervalCost, TwiceBilled, HasRow, Keys;
    var later := m.(cursor := next);
    var q := SomeMinuteCosts(m.hourly, m.startedAt, next);
    var p := OverlappingWindowCosts(m.hourly, m.startedAt, next, m.cursor, q);
    var a := Window(machine, kind, Boundary(m.cursor, p), Boundary(m.cursor, p + 1));
    var b := Window(machine, kind, Boundary(next, q), Boundary(next, q + 1));
    WindowIsARow(budget, machine, kind, m, target, 62, p);
    WindowIsARow(other, machine, kind, later, target, 60, q);
    var first := InsertRows(ledger, WindowRows(budget, machine, kind, m, target, 62));
    var second := InsertRows(first, WindowRows(other, machine, kind, later, target, 60));
    InsertedKeysLand(ledger, WindowRows(budget, machine, kind, m, target, 62), a);
    InsertedKeysLand(first, WindowRows(other, machine, kind, later, target, 60), b);
    KeysGrow(first, second);
    KeysTwiceBilled(second, machine, kind, m.cursor, a, b);
  }

  lemma SameTarget(m: Meter, at: nat, cursor: nat)
    ensures Target(m.(cursor := cursor), at) == Target(m, at)
  {
  }

  lemma NextHourIsOwed(m: Meter, next: nat, at: nat)
    requires m.startedAt <= m.cursor < next < m.cursor + WINDOW_SECONDS && m.cursor + 7_200 <= at <= U64_MAX
    ensures Owed(m, at) >= 62 && Owed(m.(cursor := next), at) >= 60 && Boundary(m.cursor, 62) <= Target(m, at)
  {
    AnHourIsOwed(m, at);
    AnHourIsOwed(m.(cursor := next), at);
  }

  /** From any state where a live meter stands between two minutes of its origin, sweeps
      alone bill some instant of it twice. */
  lemma OffMinuteBillsTwice(w: World, machine: nat, kind: Kind, m: Meter) returns (steps: seq<WorldStep>)
    requires OffMinute(w, machine, kind, m)
    ensures var after := ActAll(w, steps);
      && after.late == w.late && |after.legs| == |w.legs|
      && |LegsOf(after.legs[machine], kind)| == |LegsOf(w.legs[machine], kind)|
      && TwiceBilled(after.books.tables.ledger, machine, kind, m.cursor)
  {
    hide Act, WindowRows, InsertRows, Target, Owed, MeterOf, NextMinute, TwiceBilled, ActAll;
    var next, late := NextMinute(m), w.now + 2 * SECONDS_PER_HOUR;
    NextMinuteIsNext(m);
    NextHourIsOwed(m, next, late);
    var later := m.(cursor := next);
    SameTarget(m, late, next);
    var first := FirstSweep(w, machine, kind, m);
    var mid := ActAll(w, first);
    var second := SecondSweeps(mid, machine, kind, |w.readings| + 1, m, later, 62, 60);
    OverlappingRows(mid.books.tables.ledger, machine, kind, w.machines[machine].budget, mid.machines[machine].budget, m, next, Target(m, late));
    ActAllTwice(w, first, second);
    steps := first + second;
  }

  lemma {:induction false} ActAllTwice(w: World, first: seq<WorldStep>, second: seq<WorldStep>)
    ensures ActAll(w, first + second) == ActAll(ActAll(w, first), second)
  {
    hide Act;
    if second == [] {
      assert first + second == first;
    } else {
      ActAllTwice(w, first, second[..|second| - 1]);
      assert (first + second)[..|first + second| - 1] == first + second[..|second| - 1];
    }
  }

  lemma TwiceIsNotOnce(steps: seq<WorldStep>, machine: nat, kind: Kind, j: nat)
    requires var legs := LegsAfter(steps, machine, kind);
      j + 1 == |legs| && TwiceBilled(LedgerAfter(steps), machine, kind, legs[j].base)
    ensures !BilledOnce(steps, machine, kind, j)
  {
    hide Play, Apart;
    var ledger, legs := LedgerAfter(steps), LegsAfter(steps, machine, kind);
    var a: nat, b: nat :| TwiceIn(ledger, machine, kind, legs[j].base, a, b);
    assert !OnceIn(ledger, machine, kind, legs, j, a, b);
  }

  /** A priced machine's meter whose cursor was just put somewhere is safe from double billing,
      whatever sweeps overlap afterwards and whatever events come in time, exactly if it stands
      a whole number of minutes from its origin. */
  lemma BilledOnceExactlyOnTheMinute(steps: seq<WorldStep>, machine: nat, kind: Kind)
    requires OnTime(steps, machine, kind) && MeterOf(Play(steps).machines[machine], kind).Some?
    requires MeterOf(Play(steps).machines[machine], kind).value.hourly > 0
    requires Play(steps).now + 2 * SECONDS_PER_HOUR <= U64_MAX
    requires var legs := LegsAfter(steps, machine, kind); legs != [] && legs[|legs| - 1].reached == legs[|legs| - 1].base
    ensures var m := MeterOf(Play(steps).machines[machine], kind).value;
      && m.startedAt <= m.cursor
      && var j: nat := |LegsAfter(steps, machine, kind)| - 1;
         (m.cursor - m.startedAt) % WINDOW_SECONDS == 0 <==> BilledOnceEver(steps, machine, kind, j)
  {
    hide Play, BilledOnce, MeterInv, TwiceBilled;
    var w, legs := Play(steps), LegsAfter(steps, machine, kind);
    var m, j := MeterOf(w.machines[machine], kind).value, |legs| - 1;
    MeterHolds(steps, machine, kind);
    FreshMeter(w, machine, kind, m);
    if OnTheMinute(legs[j]) {
      forall more | OnTime(steps + more, machine, kind) ensures BilledOnce(steps + more, machine, kind, j) {
        OnTheMinuteBillsOnce(steps, more, machine, kind, j);
      }
    } else {
      var more := OffMinuteBillsTwice(w, machine, kind, m);
      PlayOn(steps, more);
      LegsPersist(steps, more, machine, kind);
      assert SameLeg(legs, LegsAfter(steps + more, machine, kind), j);
      TwiceIsNotOnce(steps + more, machine, kind, j);
    }
  }

  lemma FreshMeter(w: World, machine: nat, kind: Kind, m: Meter)
    requires machine < |w.machines| == |w.legs| && MeterOf(w.machines[machine], kind) == Some(m)
    requires var legs := LegsOf(w.legs[machine], kind); legs != [] && legs[|legs| - 1].reached == legs[|legs| - 1].base
    requires MeterInv(w.books.tables.ledger, machine, kind, ColumnsOf(w.machines[machine], kind), LegsOf(w.legs[machine], kind), w.now)
    ensures var legs := LegsOf(w.legs[machine], kind); var leg := legs[|legs| - 1];
      && leg.base == m.cursor && leg.origin == m.startedAt && m.startedAt <= m.cursor <= w.now
      && (OnTheMinute(leg) <==> (m.cursor - m.startedAt) % WINDOW_SECONDS == 0)
  {
    hide RowsInLegs, LegCovered, LegsInOrder;
    var legs := LegsOf(w.legs[machine], kind);
    assert LegInv(legs, |legs| - 1, w.now);
  }

  const STARTED: seq<WorldStep> :=
    [AddMachine(0)] + [Live(0, Built(Running, Some(3_600), None), 0)] + [Tick(90)] + [Live(0, Operated(Running), 90)]

  /** A machine built at one instant and started again ninety seconds later is such a one. */
  lemma StartedMachineIsOffTheMinute()
    ensures OffMinute(Play(STARTED), 0, Compute, Meter(3_600, 0, 90))
  {
    PlayOne([], AddMachine(0));
    assert [] + [AddMachine(0)] == [AddMachine(0)];
    PlayOne([AddMachine(0)], Live(0, Built(Running, Some(3_600), None), 0));
    PlayOne([AddMachine(0)] + [Live(0, Built(Running, Some(3_600), None), 0)], Tick(90));
    PlayOne([AddMachine(0)] + [Live(0, Built(Running, Some(3_600), None), 0)] + [Tick(90)], Live(0, Operated(Running), 90));
  }

  lemma StartedMachineBillsTwice()
    ensures exists steps :: TwiceBilled(LedgerAfter(steps), 0, Compute, 90)
  {
    hide Play, TwiceBilled, OffMinute;
    StartedMachineIsOffTheMinute();
    var more := OffMinuteBillsTwice(Play(STARTED), 0, Compute, Meter(3_600, 0, 90));
    PlayOn(STARTED, more);
    assert TwiceBilled(LedgerAfter(STARTED + more), 0, Compute, 90);
  }
}
