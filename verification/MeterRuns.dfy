/** Overlapping sweeps of crates/api/src/metering.rs over machines that are built, stopped,
    started, rebuilt and destroyed (crates/api/src/machines.rs), interleaved with every
    budget request of BudgetRuns.

    A sweep is given its time, reads the machines, composes one batch per meter from what it
    read, and executes it: at any time after, in any order, once, never, or again after a
    crash. A batch is atomic: its rows and the cursor advance land together. */
module MeterRuns {
  import opened Prelude
  import opened BudgetEngine
  import opened BudgetTables
  import opened BudgetRuns
  import opened Metering

  datatype MachineState = Provisioning | Running | Deallocated | Destroyed

  /** One meter's columns in a `machines` row; all NULL until the machine is built. */
  datatype Columns = Columns(hourly: Option<nat>, startedAt: Option<nat>, cursor: Option<nat>)

  datatype MachineRow = MachineRow(budget: nat, state: MachineState, compute: Columns, storage: Columns)

  function ColumnsOf(row: MachineRow, kind: Kind): Columns
  {
    match kind
    case Compute => row.compute
    case Storage => row.storage
  }

  predicate Timed(c: Columns) { c.startedAt.Some? && c.cursor.Some? }

  predicate Priced(c: Columns) { c.hourly.Some? && Timed(c) }

  /** `MeterRow::compute` and `MeterRow::storage`. */
  function MeterOf(row: MachineRow, kind: Kind): Option<Meter>
  {
    var counts := match kind { case Compute => row.state.Running? case Storage => !row.state.Destroyed? };
    var c := ColumnsOf(row, kind);
    if counts && Priced(c) then Some(Meter(c.hourly.value, c.startedAt.value, c.cursor.value)) else None
  }

  /** The loop of `accrue_meter`: from `start`, at most `left` windows, onto `rows`. */
  function Drain(budget: nat, machine: nat, kind: Kind, m: Meter, target: nat, start: nat, left: nat, rows: seq<SpendRow>)
    : (seq<SpendRow>, nat, nat)
    decreases left
  {
    if start >= target || left == 0 then (rows, start, left)
    else
      var end := Min(SaturatingAdd(start, WINDOW_SECONDS), target);
      var amount := IntervalCost(m.hourly, m.startedAt, start, end);
      var more := if amount == 0 then []
        else [SpendRow(budget, amount, end, Some(Window(machine, kind, start, end)))];
      Drain(budget, machine, kind, m, target, end, left - 1, rows + more)
  }

  /** The loop takes as many windows as are owed, up to its allowance, and the cursor lands
      behind the last. */
  lemma {:induction false} DrainTakesWindows(budget: nat, machine: nat, kind: Kind, m: Meter, at: nat, left: nat, done: nat)
    requires done <= Owed(m, at)
    ensures var target, taken := Target(m, at), done + Min(left, Owed(m, at) - done);
      Drain(budget, machine, kind, m, target, Reach(m, target, done), left, WindowRows(budget, machine, kind, m, target, done))
        == (WindowRows(budget, machine, kind, m, target, taken), Reach(m, target, taken), left - (taken - done))
    decreases left
  {
    hide Target, IntervalCost;
    TargetInRange(m, at);
    var target := Target(m, at);
    if Reach(m, target, done) < target && left > 0 {
      DrainTakesWindows(budget, machine, kind, m, at, left - 1, done + 1);
      var rows := WindowRows(budget, machine, kind, m, target, done);
      assert rows + [] == rows;
    }
  }

  lemma TargetInRange(m: Meter, at: nat)
    ensures Target(m, at) <= U64_MAX
    ensures Target(m, at) <= Max(at, m.startedAt)
  {
  }

  // ── The machine row's lifecycle ──

  /** What rewrites a machine's state or meter columns: building it, a provider operation a
      user or the control plane asked for, the new prices after a resize, draining a host, what
      the reconcile learns, a recovery's restart, a container answer, and the ends of a machine. */
  datatype Event =
    | Built(state: MachineState, hourly: Option<nat>, storageHourly: Option<nat>)
    | Operated(state: MachineState)
    | Resized(hourly: Option<nat>, storageHourly: Option<nat>)
    | Drained
    | Suspended
    | Restarted(state: MachineState)
    | FoundRunning
    | ContainerRan
    | Wrecked
    | Lost
    | Released
    | Reset

  function Stopped(row: MachineRow, now: nat): MachineRow
  {
    row.(state := Deallocated, compute := row.compute.(cursor := Some(now)))
  }

  function Reorigined(c: Columns, now: nat): Columns { c.(startedAt := Some(now), cursor := Some(now)) }

  function Unpriced(row: MachineRow): MachineRow
  {
    row.(state := Destroyed, compute := row.compute.(hourly := None), storage := row.storage.(hourly := None))
  }

  function Lived(row: MachineRow, event: Event, now: nat): MachineRow
  {
    match event
    case Built(state, hourly, storageHourly) =>
      row.(state := state,
           compute := Columns(hourly, Some(now), Some(now)),
           storage := Columns(storageHourly, Some(now), Some(now)))
    case Operated(state) => row.(state := state, compute := row.compute.(cursor := Some(now)))
    case Resized(hourly, storageHourly) =>
      row.(compute := row.compute.(hourly := hourly), storage := row.storage.(hourly := storageHourly))
    case Drained => Stopped(row, now)
    case Suspended => if row.state.Running? then Stopped(row, now) else row
    case Restarted(state) => row.(state := state, compute := Reorigined(row.compute, now))
    case FoundRunning =>
      if row.state.Deallocated? then row.(state := Running, compute := Reorigined(row.compute, now)) else row
    case ContainerRan => row.(state := Running)
    case Wrecked => Unpriced(row)
    case Lost => if row.state.Destroyed? then row else Unpriced(row)
    case Released => if row.state.Provisioning? then Unpriced(row) else row
    case Reset => row.(state := Provisioning)
  }

  // ── The world ──

  /** The legs of one machine's two meters, oldest first. */
  datatype Legs = Legs(compute: seq<Leg>, storage: seq<Leg>)

  function LegsOf(legs: Legs, kind: Kind): seq<Leg>
  {
    match kind
    case Compute => legs.compute
    case Storage => legs.storage
  }

  /** What a sweep read, and the time it was given. */
  datatype Reading = Reading(at: nat, machines: seq<MachineRow>, legs: seq<Legs>)

  /** A composed batch: the rows, and the cursor advance that lands with them; `meter`,
      `target`, `taken` and `leg` remember what it was composed from. */
  datatype MeterBatch = MeterBatch(rows: seq<SpendRow>, machine: nat, kind: Kind, end: nat, meter: Meter, target: nat, taken: nat, leg: nat)

  /** `late` remembers the meters whose cursor an event has put behind a sweep. */
  datatype World = World(
    now: nat,
    books: System,
    machines: seq<MachineRow>,
    legs: seq<Legs>,
    readings: seq<Reading>,
    batches: seq<MeterBatch>,
    late: set<(nat, Kind)>)

  datatype WorldStep =
    | Tick(now: nat)
    | Budget(step: Step)
    | AddMachine(budget: nat)
    | Live(machine: nat, event: Event, stamp: nat)
    | Select(at: nat)
    | Compose(reading: nat, machine: nat, kind: Kind, left: nat)
    | Execute(batch: nat)

  const BLANK: Columns := Columns(None, None, None)

  function Price(c: Columns): nat { if c.hourly.Some? then c.hourly.value else 0 }

  /** A new leg begins where an event rewrote the cursor or the origin; where it rewrote the
      price alone, the leg goes on and is not steady. */
  function Continued(legs: seq<Leg>, before: Columns, after: Columns): seq<Leg>
  {
    if Timed(after) && Retimed(before, after) then
      legs + [Leg(Price(after), after.startedAt.value, after.cursor.value, after.cursor.value, true)]
    else if legs != [] && after.hourly.Some? && Price(after) != legs[|legs| - 1].hourly then Repriced(legs, Price(after))
    else legs
  }

  function Repriced(legs: seq<Leg>, hourly: nat): seq<Leg>
    requires legs != []
  {
    legs[|legs| - 1 := legs[|legs| - 1].(hourly := hourly, steady := false)]
  }

  function ContinuedLegs(legs: Legs, before: MachineRow, after: MachineRow): Legs
  {
    Legs(Continued(legs.compute, before.compute, after.compute), Continued(legs.storage, before.storage, after.storage))
  }

  /** `AND cursor < end`: a cursor only moves forward. */
  function Advanced(c: Columns, end: nat): Columns
  {
    if c.cursor.Some? && c.cursor.value < end then c.(cursor := Some(end)) else c
  }

  function AdvancedRow(row: MachineRow, kind: Kind, end: nat): MachineRow
  {
    match kind
    case Compute => row.(compute := Advanced(row.compute, end))
    case Storage => row.(storage := Advanced(row.storage, end))
  }

  function ReachedLegs(legs: seq<Leg>, j: nat, end: nat): seq<Leg>
  {
    if j < |legs| then legs[j := legs[j].(reached := Max(legs[j].reached, end))] else legs
  }

  function BilledThrough(legs: Legs, kind: Kind, j: nat, end: nat): Legs
  {
    match kind
    case Compute => legs.(compute := ReachedLegs(legs.compute, j, end))
    case Storage => legs.(storage := ReachedLegs(legs.storage, j, end))
  }

  predicate Unmetered(rows: seq<SpendRow>)
  {
    forall i :: 0 <= i < |rows| ==> !(rows[i].key.Some? && rows[i].key.value.Window?)
  }

  predicate InU64(n: Option<nat>) { n.Some? ==> n.value <= U64_MAX }

  predicate Payable(event: Event)
  {
    event.Built? || event.Resized? ==> InU64(event.hourly) && InU64(event.storageHourly)
  }

  predicate Retimed(c: Columns, after: Columns)
  {
    after.startedAt != c.startedAt || after.cursor != c.cursor
  }

  /** An event's statement carries the time read before it was sent. It is no earlier than
      anything a sweep has billed of the meter, or may still bill from what it read. */
  predicate Timely(w: World, i: nat, kind: Kind, stamp: nat)
    requires i < |w.machines|
  {
    && (ColumnsOf(w.machines[i], kind).cursor.Some? ==> ColumnsOf(w.machines[i], kind).cursor.value <= stamp)
    && (forall r :: r in w.readings && i < |r.machines| && MeterOf(r.machines[i], kind).Some? ==> r.at <= stamp)
    && (forall b :: b in w.batches && b.machine == i && b.kind == kind ==> b.target <= stamp)
  }

  function Lagging(w: World, i: nat, after: MachineRow, stamp: nat, kind: Kind): set<(nat, Kind)>
    requires i < |w.machines|
  {
    if Retimed(ColumnsOf(w.machines[i], kind), ColumnsOf(after, kind)) && !Timely(w, i, kind, stamp) then {(i, kind)} else {}
  }

  function Composed(w: World, reading: nat, machine: nat, kind: Kind, left: nat): World
    requires reading < |w.readings| && machine < |w.readings[reading].machines| && machine < |w.readings[reading].legs|
  {
    var r := w.readings[reading];
    var row := r.machines[machine];
    match MeterOf(row, kind)
    case None => w
    case Some(m) =>
      var target := Target(m, r.at);
      var (rows, end, over) := Drain(row.budget, machine, kind, m, target, m.cursor, left, []);
      if end == m.cursor then w
      else w.(batches := w.batches
        + [MeterBatch(rows, machine, kind, end, m, target, Min(left, Owed(m, r.at)), SaturatingSub(|LegsOf(r.legs[machine], kind)|, 1))])
  }

  function Act(w: World, step: WorldStep): World
  {
    match step
    case Tick(now) => if w.now <= now <= U64_MAX then w.(now := now) else w
    case Budget(s) =>
      if s.Insert? && !Unmetered(s.rows) then w else w.(books := Do(w.books, s))
    case AddMachine(budget) =>
      w.(machines := w.machines + [MachineRow(budget, Provisioning, BLANK, BLANK)], legs := w.legs + [Legs([], [])])
    case Live(i, event, stamp) =>
      if i >= |w.machines| || i >= |w.legs| || !Payable(event) || stamp > w.now then w
      else
        var after := Lived(w.machines[i], event, stamp);
        w.(machines := w.machines[i := after],
           legs := w.legs[i := ContinuedLegs(w.legs[i], w.machines[i], after)],
           late := w.late + Lagging(w, i, after, stamp, Compute) + Lagging(w, i, after, stamp, Storage))
    case Select(at) => if at <= w.now then w.(readings := w.readings + [Reading(at, w.machines, w.legs)]) else w
    case Compose(r, machine, kind, left) =>
      if r < |w.readings| && machine < |w.readings[r].machines| && machine < |w.readings[r].legs|
      then Composed(w, r, machine, kind, left) else w
    case Execute(i) =>
      if i >= |w.batches| || w.batches[i].machine >= |w.machines| || w.batches[i].machine >= |w.legs| then w
      else
        var b := w.batches[i];
        w.(books := Do(w.books, Insert(b.rows)),
           machines := w.machines[b.machine := AdvancedRow(w.machines[b.machine], b.kind, b.end)],
           legs := w.legs[b.machine := BilledThrough(w.legs[b.machine], b.kind, b.leg, b.end)])
  }

  function Begin(): World { World(0, Initial(), [], [], [], [], {}) }

  function Play(steps: seq<WorldStep>): World
  {
    if steps == [] then Begin() else Act(Play(steps[..|steps| - 1]), steps[|steps| - 1])
  }

  // ── The invariant ──

  /** Where a leg's windows end: where the next leg begins, if there is one. */
  function Until(legs: seq<Leg>, j: nat): Option<nat>
  {
    if j + 1 < |legs| then Some(legs[j + 1].base) else None
  }

  /** No window of a leg ends later than this. */
  function Limit(legs: seq<Leg>, j: nat, now: nat): nat
  {
    if j + 1 < |legs| then legs[j + 1].base else now
  }

  predicate LegInv(legs: seq<Leg>, j: nat, now: nat)
    requires j < |legs|
  {
    && legs[j].hourly <= U64_MAX && legs[j].origin <= legs[j].base <= legs[j].reached <= Limit(legs, j, now) <= now
  }

  predicate LegsInOrder(legs: seq<Leg>)
  {
    forall j, l :: 0 <= j < l < |legs| ==> legs[j].reached <= legs[l].base
  }

  predicate Matches(c: Columns, leg: Leg)
    requires Timed(c)
  {
    && leg.origin == c.startedAt.value && leg.reached == c.cursor.value
    && (c.hourly.Some? ==> leg.hourly == c.hourly.value)
  }

  /** The columns are those of the last leg, accounted through what it has been billed. */
  predicate ColumnsInv(c: Columns, legs: seq<Leg>, now: nat)
  {
    && InU64(c.hourly)
    && (c.startedAt.Some? ==> c.cursor.Some?)
    && (Timed(c) <==> legs != [])
    && (Timed(c) ==> Matches(c, legs[|legs| - 1]))
  }

  /** A row's window belongs to leg `j`. */
  predicate InLeg(key: SpendKey, legs: seq<Leg>, j: nat)
  {
    && key.Window? && j < |legs|
    && legs[j].base <= key.start < key.end <= legs[j].reached
  }

  ghost predicate InSomeLeg(key: SpendKey, legs: seq<Leg>)
  {
    exists j: nat :: InLeg(key, legs, j)
  }

  ghost predicate RowsInLegs(ledger: seq<SpendRow>, machine: nat, kind: Kind, legs: seq<Leg>)
  {
    forall key :: key in Keys(ledger) && OfMeter(key, machine, kind) ==> InSomeLeg(key, legs)
  }

  /** A leg on the minute has been billed its first whole windows, at their exact price while
      the price stood; a leg nothing was billed to has no rows. */
  ghost predicate LegCovered(ledger: seq<SpendRow>, machine: nat, kind: Kind, legs: seq<Leg>, j: nat)
    requires j < |legs|
  {
    && (OnTheMinute(legs[j]) ==> exists k: nat :: CoveredTo(ledger, machine, kind, legs, j, k))
    && (legs[j].reached == legs[j].base ==> Covers(ledger, machine, kind, legs[j], Until(legs, j), 0))
  }

  ghost predicate CoveredTo(ledger: seq<SpendRow>, machine: nat, kind: Kind, legs: seq<Leg>, j: nat, k: nat)
    requires j < |legs|
  {
    && legs[j].reached == Boundary(legs[j].base, k)
    && WindowsAmong(ledger, machine, kind, legs[j], Until(legs, j), k)
    && (legs[j].steady ==> Covers(ledger, machine, kind, legs[j], Until(legs, j), k))
  }

  ghost predicate MeterInv(ledger: seq<SpendRow>, machine: nat, kind: Kind, c: Columns, legs: seq<Leg>, now: nat)
  {
    && (forall j: nat :: j < |legs| ==> LegInv(legs, j, now))
    && LegsInOrder(legs)
    && ColumnsInv(c, legs, now)
    && RowsInLegs(ledger, machine, kind, legs)
    && (forall j: nat :: j < |legs| ==> LegCovered(ledger, machine, kind, legs, j))
  }

  /** What a meter read from leg `j`, with windows through `target` at most, may rely on. */
  predicate FromLeg(m: Meter, legs: seq<Leg>, j: nat, target: nat, now: nat)
  {
    && j < |legs|
    && (legs[j].steady ==> m.hourly == legs[j].hourly) && m.startedAt == legs[j].origin
    && legs[j].base <= m.cursor <= legs[j].reached
    && (m.cursor < target ==> target <= Limit(legs, j, now))
    && (OnTheMinute(legs[j]) ==> (m.cursor - legs[j].base) % WINDOW_SECONDS == 0)
  }

  ghost predicate ReadingInv(r: Reading, w: World)
  {
    && r.at <= w.now
    && |r.machines| == |r.legs| <= |w.machines| == |w.legs|
    && forall i, kind :: 0 <= i < |r.machines| ==> ReadMeterInv(r, i, kind, w)
  }

  predicate ReadMeterInv(r: Reading, i: nat, kind: Kind, w: World)
    requires i < |r.machines| == |r.legs| <= |w.machines| == |w.legs|
  {
    && r.machines[i].budget == w.machines[i].budget
    && var m, was, legs := MeterOf(r.machines[i], kind), LegsOf(r.legs[i], kind), LegsOf(w.legs[i], kind);
       m.Some? && (i, kind) !in w.late ==>
         was != [] && |was| <= |legs| && FromLeg(m.value, legs, |was| - 1, r.at, w.now)
  }

  ghost predicate BatchInv(b: MeterBatch, w: World)
  {
    && b.machine < |w.machines| == |w.legs|
    && b.meter.cursor < b.end == Reach(b.meter, b.target, b.taken)
    && b.rows == WindowRows(w.machines[b.machine].budget, b.machine, b.kind, b.meter, b.target, b.taken)
    && ((b.machine, b.kind) !in w.late ==> LegBatch(b, LegsOf(w.legs[b.machine], b.kind), w.now))
  }

  predicate LegBatch(b: MeterBatch, legs: seq<Leg>, now: nat)
  {
    && FromLeg(b.meter, legs, b.leg, b.target, now)
    && (OnTheMinute(legs[b.leg]) ==> b.meter.cursor + WINDOW_SECONDS * b.taken <= b.target)
  }

  /** A metered row is charged to the budget of its machine. */
  predicate RowsBelong(ledger: seq<SpendRow>, machines: seq<MachineRow>)
  {
    forall i :: 0 <= i < |ledger| && ledger[i].key.Some? && ledger[i].key.value.Window? ==>
      && ledger[i].key.value.machine < |machines|
      && ledger[i].budget == machines[ledger[i].key.value.machine].budget
  }

  ghost predicate MetersInv(w: World)
    requires |w.legs| == |w.machines|
  {
    forall i, kind :: 0 <= i < |w.machines| && (i, kind) !in w.late ==>
      MeterInv(w.books.tables.ledger, i, kind, ColumnsOf(w.machines[i], kind), LegsOf(w.legs[i], kind), w.now)
  }

  ghost predicate WorldInv(w: World)
  {
    && w.now <= U64_MAX && |w.legs| == |w.machines|
    && Inv(w.books)
    && RowsBelong(w.books.tables.ledger, w.machines)
    && MetersInv(w)
    && (forall r :: 0 <= r < |w.readings| ==> ReadingInv(w.readings[r], w))
    && (forall b :: 0 <= b < |w.batches| ==> BatchInv(w.batches[b], w))
  }

  // ── Legs only grow ──

  /** How a meter's legs may move while earlier readings and batches stay good: one may reach
      further, the last may be repriced, and a new one may begin now. */
  predicate LegsMove(before: seq<Leg>, after: seq<Leg>, was: nat, now: nat)
  {
    && |before| <= |after|
    && (forall j: nat :: j < |before| ==> SameLeg(before, after, j))
    && (forall j: nat :: j + 1 == |before| ==> Limit(before, j, was) <= Limit(after, j, now))
  }

  predicate SameLeg(before: seq<Leg>, after: seq<Leg>, j: nat)
    requires j < |before| <= |after|
  {
    && after[j].origin == before[j].origin && after[j].base == before[j].base
    && (after[j].steady ==> before[j].steady && after[j].hourly == before[j].hourly)
    && before[j].reached <= after[j].reached
  }

  lemma MoveKeepsFrom(m: Meter, before: seq<Leg>, after: seq<Leg>, j: nat, target: nat, was: nat, now: nat)
    requires FromLeg(m, before, j, target, was) && LegsMove(before, after, was, now)
    ensures FromLeg(m, after, j, target, now)
  {
    assert SameLeg(before, after, j);
    if j + 1 < |before| { assert SameLeg(before, after, j + 1); }
  }

  ghost predicate WorldMoves(w: World, after: World)
    requires |w.legs| == |w.machines| && |after.legs| == |after.machines|
  {
    && w.now <= after.now && |w.machines| <= |after.machines| && w.late <= after.late
    && forall i, kind :: 0 <= i < |w.machines| ==>
         && after.machines[i].budget == w.machines[i].budget
         && LegsMove(LegsOf(w.legs[i], kind), LegsOf(after.legs[i], kind), w.now, after.now)
  }

  lemma MovesKeepReading(w: World, after: World, r: Reading)
    requires |w.legs| == |w.machines| && |after.legs| == |after.machines|
    requires WorldMoves(w, after) && ReadingInv(r, w)
    ensures ReadingInv(r, after)
  {
    hide FromLeg, LegsMove, MeterOf;
    forall i, kind | 0 <= i < |r.machines| ensures ReadMeterInv(r, i, kind, after) {
      assert ReadMeterInv(r, i, kind, w);
      var m, was, legs := MeterOf(r.machines[i], kind), LegsOf(r.legs[i], kind), LegsOf(w.legs[i], kind);
      if m.Some? && (i, kind) !in after.late {
        MoveKeepsFrom(m.value, legs, LegsOf(after.legs[i], kind), |was| - 1, r.at, w.now, after.now);
        MovesGrow(legs, LegsOf(after.legs[i], kind), w.now, after.now);
      }
    }
  }

  lemma MovesGrow(before: seq<Leg>, after: seq<Leg>, was: nat, now: nat)
    requires LegsMove(before, after, was, now)
    ensures |before| <= |after|
    ensures forall j: nat :: j < |before| ==> OnTheMinute(after[j]) == OnTheMinute(before[j])
  {
    forall j: nat | j < |before| ensures OnTheMinute(after[j]) == OnTheMinute(before[j]) {
      assert SameLeg(before, after, j);
    }
  }

  lemma MovesKeepBatch(w: World, after: World, b: MeterBatch)
    requires |w.legs| == |w.machines| && |after.legs| == |after.machines|
    requires WorldMoves(w, after) && BatchInv(b, w)
    ensures BatchInv(b, after)
  {
    hide LegsMove, WindowRows;
    var before, now := LegsOf(w.legs[b.machine], b.kind), LegsOf(after.legs[b.machine], b.kind);
    if (b.machine, b.kind) !in after.late {
      MoveKeepsFrom(b.meter, before, now, b.leg, b.target, w.now, after.now);
      MovesGrow(before, now, w.now, after.now);
    }
  }

  lemma MovesKeepRest(w: World, after: World)
    requires WorldInv(w) && |after.legs| == |after.machines| && WorldMoves(w, after)
    requires after.readings == w.readings && after.batches == w.batches
    ensures forall r :: 0 <= r < |after.readings| ==> ReadingInv(after.readings[r], after)
    ensures forall b :: 0 <= b < |after.batches| ==> BatchInv(after.batches[b], after)
  {
    hide ReadingInv, BatchInv, WorldMoves, MetersInv, Inv, RowsBelong;
    forall r | 0 <= r < |after.readings| ensures ReadingInv(after.readings[r], after) {
      MovesKeepReading(w, after, w.readings[r]);
    }
    forall b | 0 <= b < |after.batches| ensures BatchInv(after.batches[b], after) {
      MovesKeepBatch(w, after, w.batches[b]);
    }
  }

  lemma StillLegs(legs: seq<Leg>, was: nat, now: nat)
    requires was <= now
    ensures LegsMove(legs, legs, was, now)
  {
  }

  // ── What the ledger's growth leaves ──

  /** The ledger says the same of every stretch of a meter. */
  ghost predicate SameMeter(before: seq<SpendRow>, after: seq<SpendRow>, machine: nat, kind: Kind)
  {
    && Keys(before) <= Keys(after)
    && (forall lo: nat, hi: Option<nat> :: SameIn(before, after, machine, kind, lo, hi))
    && (forall key :: key in Keys(after) && OfMeter(key, machine, kind) ==> key in Keys(before))
  }

  lemma KeysGrow(before: seq<SpendRow>, after: seq<SpendRow>)
    requires before <= after
    ensures Keys(before) <= Keys(after)
  {
    forall key | key in Keys(before) ensures key in Keys(after) {
      var i :| 0 <= i < |before| && before[i].key.Some? && before[i].key.value == key;
      assert after[i] == before[i];
    }
  }

  lemma OthersRowsSpare(ledger: seq<SpendRow>, rows: seq<SpendRow>, machine: nat, kind: Kind)
    requires forall row :: row in rows ==> !Bills(row, machine, kind)
    ensures SameMeter(ledger, InsertRows(ledger, rows), machine, kind)
  {
    hide BilledIn, Keys, InsertRows;
    var after := InsertRows(ledger, rows);
    KeysGrow(ledger, after);
    forall lo: nat, hi: Option<nat> ensures SameIn(ledger, after, machine, kind, lo, hi) {
      InsertsSpare(ledger, rows, machine, kind, lo, hi);
    }
    assert SameIn(ledger, after, machine, kind, 0, None);
  }

  lemma SameKeepsMeter(before: seq<SpendRow>, after: seq<SpendRow>, machine: nat, kind: Kind, c: Columns, legs: seq<Leg>, now: nat)
    requires SameMeter(before, after, machine, kind) && MeterInv(before, machine, kind, c, legs, now)
    ensures MeterInv(after, machine, kind, c, legs, now)
  {
    hide Keys, SameIn, Covers, LegInv, LegsInOrder, ColumnsInv, InSomeLeg, OfMeter, OnTheMinute;
    forall j: nat | j < |legs| ensures LegCovered(after, machine, kind, legs, j) {
      assert LegCovered(before, machine, kind, legs, j);
      if OnTheMinute(legs[j]) {
        var k: nat :| CoveredTo(before, machine, kind, legs, j, k);
        SameKeepsCovered(before, after, machine, kind, legs, j, k);
      }
      if legs[j].reached == legs[j].base {
        SameCovers(before, after, machine, kind, legs[j], Until(legs, j), 0);
      }
    }
  }

  lemma SameKeepsCovered(before: seq<SpendRow>, after: seq<SpendRow>, machine: nat, kind: Kind, legs: seq<Leg>, j: nat, k: nat)
    requires j < |legs| && CoveredTo(before, machine, kind, legs, j, k)
    requires SameIn(before, after, machine, kind, legs[j].base, Until(legs, j)) && Keys(before) <= Keys(after)
    ensures CoveredTo(after, machine, kind, legs, j, k)
  {
    hide Keys, SameIn, Covers, WindowsAmong;
    SameAmong(before, after, machine, kind, legs[j], Until(legs, j), k);
    if legs[j].steady {
      SameCovers(before, after, machine, kind, legs[j], Until(legs, j), k);
    }
  }

  /** Time passes. */
  lemma LaterKeepsMeter(ledger: seq<SpendRow>, machine: nat, kind: Kind, c: Columns, legs: seq<Leg>, was: nat, now: nat)
    requires was <= now && MeterInv(ledger, machine, kind, c, legs, was)
    ensures MeterInv(ledger, machine, kind, c, legs, now)
  {
    hide Keys, Covers, OfMeter, LegCovered;
    forall j: nat | j < |legs| ensures LegInv(legs, j, now) {
      assert LegInv(legs, j, was);
    }
    forall key | key in Keys(ledger) && OfMeter(key, machine, kind) ensures InSomeLeg(key, legs) {
      assert InSomeLeg(key, legs);
      var j: nat :| InLeg(key, legs, j);
      assert InLeg(key, legs, j);
    }
  }

  lemma TickKeepsInv(w: World, now: nat)
    requires WorldInv(w)
    ensures WorldInv(Act(w, Tick(now)))
  {
    hide MeterInv, ReadingInv, BatchInv, Inv, RowsBelong, LegsMove;
    var after := Act(w, Tick(now));
    if after != w {
      forall i, kind | 0 <= i < |w.machines| && (i, kind) !in w.late
        ensures MeterInv(w.books.tables.ledger, i, kind, ColumnsOf(w.machines[i], kind), LegsOf(w.legs[i], kind), now)
      {
        LaterKeepsMeter(w.books.tables.ledger, i, kind, ColumnsOf(w.machines[i], kind), LegsOf(w.legs[i], kind), w.now, now);
      }
      forall i, kind | 0 <= i < |w.machines| ensures LegsMove(LegsOf(w.legs[i], kind), LegsOf(after.legs[i], kind), w.now, after.now) {
        StillLegs(LegsOf(w.legs[i], kind), w.now, now);
      }
      MovesKeepRest(w, after);
    }
  }

  // ── Budget requests ──

  lemma {:induction false} UnmeteredBelong(ledger: seq<SpendRow>, rows: seq<SpendRow>, machines: seq<MachineRow>)
    requires RowsBelong(ledger, machines) && Unmetered(rows)
    ensures RowsBelong(InsertRows(ledger, rows), machines)
  {
    if rows != [] {
      UnmeteredBelong(ledger, rows[..|rows| - 1], machines);
    }
  }

  lemma LedgerOnlyGrowsByInsert(s: System, step: Step)
    requires !step.Insert?
    ensures Do(s, step).tables.ledger == s.tables.ledger
  {
    hide WriteBack, Exec;
    if step.Commit? && step.call in s.calls && s.calls[step.call].Ready? {
      var call := s.calls[step.call];
      if call.row.limit > 0 && Replayed(call.row.limit, call.events).Some? {
        BatchKeepsLedger(s.tables, WriteBack(call.begun.budget, call.row, call.events));
      }
    }
  }

  lemma {:induction false} BatchKeepsLedger(t: Tables, statements: seq<Statement>)
    ensures ExecBatch(t, statements).ledger == t.ledger
  {
    if statements != [] {
      BatchKeepsLedger(t, statements[..|statements| - 1]);
    }
  }

  lemma BudgetKeepsInv(w: World, s: Step)
    requires WorldInv(w)
    ensures WorldInv(Act(w, Budget(s)))
  {
    hide MeterInv, ReadingInv, BatchInv, Inv, RowsBelong, LegsMove, SameMeter, Do, InsertRows;
    var after := Act(w, Budget(s));
    if after != w {
      var l, l' := w.books.tables.ledger, after.books.tables.ledger;
      StepKeepsInv(w.books, s);
      if s.Insert? {
        assert l' == InsertRows(l, s.rows) by { InsertIs(w.books, s.rows); }
        UnmeteredBelong(l, s.rows, w.machines);
        forall i, kind | 0 <= i < |w.machines| ensures SameMeter(l, l', i, kind) {
          OthersRowsSpare(l, s.rows, i, kind);
        }
        forall i, kind | 0 <= i < |w.machines| && (i, kind) !in w.late
          ensures MeterInv(l', i, kind, ColumnsOf(w.machines[i], kind), LegsOf(w.legs[i], kind), w.now)
        {
          SameKeepsMeter(l, l', i, kind, ColumnsOf(w.machines[i], kind), LegsOf(w.legs[i], kind), w.now);
        }
      } else {
        LedgerOnlyGrowsByInsert(w.books, s);
      }
      forall i, kind | 0 <= i < |w.machines| ensures LegsMove(LegsOf(w.legs[i], kind), LegsOf(after.legs[i], kind), w.now, after.now) {
        StillLegs(LegsOf(w.legs[i], kind), w.now, w.now);
      }
      MovesKeepRest(w, after);
    }
  }

  lemma InsertIs(s: System, rows: seq<SpendRow>)
    ensures Do(s, Insert(rows)).tables.ledger == InsertRows(s.tables.ledger, rows)
  {
  }

  // ── Machines ──

  lemma KeysKnown(ledger: seq<SpendRow>, machines: seq<MachineRow>)
    requires RowsBelong(ledger, machines)
    ensures forall key :: key in Keys(ledger) && key.Window? ==> key.machine < |machines|
  {
    forall key | key in Keys(ledger) && key.Window? ensures key.machine < |machines| {
      var i :| 0 <= i < |ledger| && ledger[i].key.Some? && ledger[i].key.value == key;
    }
  }

  lemma UnknownMachineUnbilled(ledger: seq<SpendRow>, machines: seq<MachineRow>, kind: Kind, now: nat)
    requires RowsBelong(ledger, machines)
    ensures MeterInv(ledger, |machines|, kind, BLANK, [], now)
  {
    hide Keys, RowsBelong;
    KeysKnown(ledger, machines);
  }

  lemma AddKeepsInv(w: World, budget: nat)
    requires WorldInv(w)
    ensures WorldInv(Act(w, AddMachine(budget)))
  {
    hide MeterInv, ReadingInv, BatchInv, Inv, LegsMove;
    var after := Act(w, AddMachine(budget));
    var l := w.books.tables.ledger;
    forall i, kind | 0 <= i < |after.machines| && (i, kind) !in after.late
      ensures MeterInv(l, i, kind, ColumnsOf(after.machines[i], kind), LegsOf(after.legs[i], kind), w.now)
    {
      if i == |w.machines| {
        UnknownMachineUnbilled(l, w.machines, kind, w.now);
      }
    }
    forall i, kind | 0 <= i < |w.machines| ensures LegsMove(LegsOf(w.legs[i], kind), LegsOf(after.legs[i], kind), w.now, after.now) {
      StillLegs(LegsOf(w.legs[i], kind), w.now, w.now);
    }
    MovesKeepRest(w, after);
  }

  /** What an event may do to one meter's columns: change its price, or put its cursor, perhaps
      with its origin and price, at its stamp. */
  predicate Rewritten(c: Columns, after: Columns, stamp: nat)
  {
    && (InU64(c.hourly) ==> InU64(after.hourly))
    && (|| after == c.(hourly := after.hourly)
        || (after.cursor == Some(stamp) && (after.startedAt == c.startedAt || after.startedAt == Some(stamp))))
  }

  lemma EventsRewrite(row: MachineRow, event: Event, stamp: nat, kind: Kind)
    requires Payable(event)
    ensures Rewritten(ColumnsOf(row, kind), ColumnsOf(Lived(row, event, stamp), kind), stamp)
    ensures Lived(row, event, stamp).budget == row.budget
  {
  }

  /** Every window on the ledger ended by now, so cutting a leg off here loses none of it. */
  lemma {:induction false} CutsNothing(ledger: seq<SpendRow>, machine: nat, kind: Kind, lo: nat, now: nat)
    requires forall row :: row in ledger && Bills(row, machine, kind) ==> row.key.value.start < now
    ensures BilledIn(ledger, machine, kind, lo, Some(now)) == BilledIn(ledger, machine, kind, lo, None)
    ensures BilledIn(ledger, machine, kind, now, None) == 0
  {
    if ledger != [] {
      CutsNothing(ledger[..|ledger| - 1], machine, kind, lo, now);
      assert ledger[|ledger| - 1] in ledger;
    }
  }

  lemma RowsEnded(ledger: seq<SpendRow>, machine: nat, kind: Kind, legs: seq<Leg>, stamp: nat)
    requires RowsInLegs(ledger, machine, kind, legs) && forall j: nat :: j < |legs| ==> legs[j].reached <= stamp
    ensures forall row :: row in ledger && Bills(row, machine, kind) ==> row.key.value.start < stamp
    ensures forall key :: key in Keys(ledger) && OfMeter(key, machine, kind) ==> key.start < stamp
  {
    forall key | key in Keys(ledger) && OfMeter(key, machine, kind) ensures key.start < stamp {
      assert InSomeLeg(key, legs);
      var j: nat :| InLeg(key, legs, j);
      assert legs[j].reached <= stamp;
    }
    forall row | row in ledger && Bills(row, machine, kind) ensures row.key.value in Keys(ledger) {}
  }

  lemma AllReachedBy(legs: seq<Leg>, now: nat, stamp: nat)
    requires LegsInOrder(legs) && forall j: nat :: j < |legs| ==> LegInv(legs, j, now)
    requires legs != [] ==> legs[|legs| - 1].reached <= stamp
    ensures forall j: nat :: j < |legs| ==> legs[j].reached <= stamp
  {
    forall j: nat | j < |legs| ensures legs[j].reached <= stamp {
      assert LegInv(legs, |legs| - 1, now);
    }
  }

  /** A new leg begins, no earlier than anything billed. */
  lemma NewLegKeeps(ledger: seq<SpendRow>, machine: nat, kind: Kind, c: Columns, legs: seq<Leg>, now: nat, leg: Leg)
    requires MeterInv(ledger, machine, kind, c, legs, now)
    requires leg.hourly <= U64_MAX && leg.origin <= leg.base == leg.reached <= now
    requires legs != [] ==> legs[|legs| - 1].reached <= leg.base
    ensures var after := legs + [leg];
      && (forall j: nat :: j < |after| ==> LegInv(after, j, now))
      && LegsInOrder(after) && RowsInLegs(ledger, machine, kind, after)
      && (forall j: nat :: j < |after| ==> LegCovered(ledger, machine, kind, after, j))
  {
    hide Keys, BilledIn, Covers, ColumnsInv, OnTheMinute, OfMeter;
    var after := legs + [leg];
    AllReachedBy(legs, now, leg.base);
    forall j: nat | j < |legs| ensures LegInv(legs, j, now) && LegInv(after, j, now) {
      assert LegInv(legs, j, now);
    }
    RowsEnded(ledger, machine, kind, legs, leg.base);
    forall key | key in Keys(ledger) && OfMeter(key, machine, kind) ensures InSomeLeg(key, after) {
      assert InSomeLeg(key, legs);
      var j: nat :| InLeg(key, legs, j);
      assert InLeg(key, after, j);
    }
    forall j: nat | j < |after| ensures LegCovered(ledger, machine, kind, after, j) {
      if j < |legs| {
        assert LegCovered(ledger, machine, kind, legs, j);
        CutLegCovered(ledger, machine, kind, legs, j, leg);
      } else {
        FreshLegCovers(ledger, machine, kind, leg, leg.base);
        assert CoveredTo(ledger, machine, kind, after, j, 0);
      }
    }
  }

  /** A leg stays covered when the next begins. */
  lemma CutLegCovered(ledger: seq<SpendRow>, machine: nat, kind: Kind, legs: seq<Leg>, j: nat, leg: Leg)
    requires j < |legs| && LegCovered(ledger, machine, kind, legs, j)
    requires forall row :: row in ledger && Bills(row, machine, kind) ==> row.key.value.start < leg.base
    ensures LegCovered(ledger, machine, kind, legs + [leg], j)
  {
    hide Covers, WindowsAmong, OnTheMinute, Bills;
    var after := legs + [leg];
    if OnTheMinute(legs[j]) {
      var k: nat :| CoveredTo(ledger, machine, kind, legs, j, k);
      if j + 1 == |legs| {
        CutLegAmong(ledger, machine, kind, legs[j], k, leg.base);
        if legs[j].steady { CutLegCovers(ledger, machine, kind, legs[j], k, leg.base); }
      }
      assert CoveredTo(ledger, machine, kind, after, j, k);
    }
    if legs[j].reached == legs[j].base && j + 1 == |legs| {
      CutLegCovers(ledger, machine, kind, legs[j], 0, leg.base);
    }
  }

  lemma CutLegAmong(ledger: seq<SpendRow>, machine: nat, kind: Kind, leg: Leg, k: nat, now: nat)
    requires WindowsAmong(ledger, machine, kind, leg, None, k)
    ensures WindowsAmong(ledger, machine, kind, leg, Some(now), k)
  {
    hide Keys, AmongFirst, OfMeter;
  }

  lemma CutLegCovers(ledger: seq<SpendRow>, machine: nat, kind: Kind, leg: Leg, k: nat, now: nat)
    requires Covers(ledger, machine, kind, leg, None, k)
    requires forall row :: row in ledger && Bills(row, machine, kind) ==> row.key.value.start < now
    ensures Covers(ledger, machine, kind, leg, Some(now), k)
  {
    hide Keys, BilledIn, CostThrough;
    CutsNothing(ledger, machine, kind, leg.base, now);
  }

  lemma FreshLegCovers(ledger: seq<SpendRow>, machine: nat, kind: Kind, leg: Leg, now: nat)
    requires leg.base == now
    requires forall row :: row in ledger && Bills(row, machine, kind) ==> row.key.value.start < now
    requires forall key :: key in Keys(ledger) && OfMeter(key, machine, kind) ==> key.start < now
    ensures Covers(ledger, machine, kind, leg, None, 0)
  {
    hide Keys, BilledIn;
    CutsNothing(ledger, machine, kind, leg.base, now);
  }

  lemma LiveKeepsMeter(ledger: seq<SpendRow>, machine: nat, kind: Kind, c: Columns, legs: seq<Leg>, now: nat, stamp: nat, after: Columns)
    requires MeterInv(ledger, machine, kind, c, legs, now) && Rewritten(c, after, stamp) && stamp <= now
    requires Retimed(c, after) && c.cursor.Some? ==> c.cursor.value <= stamp
    ensures MeterInv(ledger, machine, kind, after, Continued(legs, c, after), now)
  {
    hide Keys, OfMeter, LegCovered, InSomeLeg, LegsInOrder, RowsInLegs, OnTheMinute;
    var later := Continued(legs, c, after);
    if legs != [] { assert LegInv(legs, |legs| - 1, now); }
    hide LegInv;
    if |later| > |legs| {
      NewLegKeeps(ledger, machine, kind, c, legs, now, later[|legs|]);
    } else if later != legs {
      RepricedKeeps(ledger, machine, kind, legs, now, Price(after));
    }
  }

  /** What was read of a leg stays good when an event lands, if its stamp is no earlier than
      any sweep may still bill. */
  lemma LiveKeepsFrom(m: Meter, legs: seq<Leg>, c: Columns, after: Columns, j: nat, target: nat, stamp: nat, now: nat)
    requires FromLeg(m, legs, j, target, now) && Rewritten(c, after, stamp) && stamp <= now
    requires Retimed(c, after) && m.cursor < target ==> target <= stamp
    ensures |legs| <= |Continued(legs, c, after)|
    ensures FromLeg(m, Continued(legs, c, after), j, target, now)
    ensures OnTheMinute(Continued(legs, c, after)[j]) == OnTheMinute(legs[j])
  {
  }

  /** A new price for the leg that goes on. */
  lemma RepricedKeeps(ledger: seq<SpendRow>, machine: nat, kind: Kind, legs: seq<Leg>, now: nat, hourly: nat)
    requires legs != [] && hourly <= U64_MAX && LegsInOrder(legs) && RowsInLegs(ledger, machine, kind, legs)
    requires forall j: nat :: j < |legs| ==> LegInv(legs, j, now) && LegCovered(ledger, machine, kind, legs, j)
    ensures var after := Repriced(legs, hourly);
      && LegsInOrder(after) && RowsInLegs(ledger, machine, kind, after)
      && (forall j: nat :: j < |after| ==> LegInv(after, j, now) && LegCovered(ledger, machine, kind, after, j))
  {
    hide Keys, Covers, WindowsAmong, OfMeter;
    var after := Repriced(legs, hourly);
    forall j: nat | j < |legs|
      ensures LegInv(after, j, now) && LegCovered(ledger, machine, kind, after, j)
    {
      assert LegInv(legs, j, now);
      RepricedCovered(ledger, machine, kind, legs, hourly, j);
    }
    forall key | key in Keys(ledger) && OfMeter(key, machine, kind) ensures InSomeLeg(key, after) {
      assert InSomeLeg(key, legs);
      var j: nat :| InLeg(key, legs, j);
      assert InLeg(key, after, j);
    }
  }

  lemma RepricedCovered(ledger: seq<SpendRow>, machine: nat, kind: Kind, legs: seq<Leg>, hourly: nat, j: nat)
    requires j < |legs| && LegCovered(ledger, machine, kind, legs, j)
    ensures LegCovered(ledger, machine, kind, Repriced(legs, hourly), j)
  {
    hide Covers, WindowsAmong;
    var after := Repriced(legs, hourly);
    if OnTheMinute(legs[j]) {
      var k: nat :| CoveredTo(ledger, machine, kind, legs, j, k);
      AmongWhateverPrice(ledger, machine, kind, legs[j], after[j], Until(legs, j), k);
      assert CoveredTo(ledger, machine, kind, after, j, k);
    }
    if legs[j].reached == legs[j].base {
      NothingWhateverPrice(ledger, machine, kind, legs[j], after[j], Until(legs, j));
    }
  }

  lemma AmongWhateverPrice(ledger: seq<SpendRow>, machine: nat, kind: Kind, leg: Leg, after: Leg, hi: Option<nat>, k: nat)
    requires WindowsAmong(ledger, machine, kind, leg, hi, k) && after.base == leg.base
    ensures WindowsAmong(ledger, machine, kind, after, hi, k)
  {
    hide Keys;
    forall key | key in Keys(ledger) && OfMeter(key, machine, kind) && Within(key, leg.base, hi)
      ensures AmongFirst(key, machine, kind, after, k)
    {
      assert AmongFirst(key, machine, kind, leg, k);
      var j: nat :| j < k && key == NthKey(machine, kind, leg, j);
      assert key == NthKey(machine, kind, after, j);
    }
  }

  lemma NothingWhateverPrice(ledger: seq<SpendRow>, machine: nat, kind: Kind, leg: Leg, after: Leg, hi: Option<nat>)
    requires Covers(ledger, machine, kind, leg, hi, 0) && after.base == leg.base
    ensures Covers(ledger, machine, kind, after, hi, 0)
  {
    hide BilledIn, WindowsAmong;
    AmongWhateverPrice(ledger, machine, kind, leg, after, hi, 0);
  }

  /** The meter an event is for, unless the event comes late. */
  lemma EventKeepsMeter(w: World, i: nat, event: Event, stamp: nat, kind: Kind)
    requires WorldInv(w) && i < |w.machines| && Payable(event) && stamp <= w.now
    ensures var after := Act(w, Live(i, event, stamp));
      (i, kind) !in after.late ==>
        MeterInv(w.books.tables.ledger, i, kind, ColumnsOf(after.machines[i], kind), LegsOf(after.legs[i], kind), w.now)
  {
    hide MeterInv, ReadingInv, BatchInv, Inv, Lived, Rewritten, Continued, RowsBelong, MeterOf;
    EventsRewrite(w.machines[i], event, stamp, kind);
    var after := Act(w, Live(i, event, stamp));
    if (i, kind) !in after.late {
      assert Lagging(w, i, after.machines[i], stamp, kind) == {};
      LiveKeepsMeter(w.books.tables.ledger, i, kind, ColumnsOf(w.machines[i], kind), LegsOf(w.legs[i], kind), w.now, stamp,
        ColumnsOf(after.machines[i], kind));
      assert LegsOf(after.legs[i], kind) == Continued(LegsOf(w.legs[i], kind), ColumnsOf(w.machines[i], kind), ColumnsOf(after.machines[i], kind));
    }
  }

  lemma EventKeepsReading(w: World, i: nat, event: Event, stamp: nat, r: Reading)
    requires WorldInv(w) && i < |w.machines| && Payable(event) && stamp <= w.now && r in w.readings && ReadingInv(r, w)
    ensures ReadingInv(r, Act(w, Live(i, event, stamp)))
  {
    hide MeterInv, BatchInv, Inv, Lived, Rewritten, Continued, RowsBelong, MeterOf, FromLeg;
    var after := Act(w, Live(i, event, stamp));
    EventsRewrite(w.machines[i], event, stamp, Compute);
    forall m, kind | 0 <= m < |r.machines| ensures ReadMeterInv(r, m, kind, after) {
      assert ReadMeterInv(r, m, kind, w);
      if m == i && MeterOf(r.machines[i], kind).Some? && (i, kind) !in after.late {
        EventsRewrite(w.machines[i], event, stamp, kind);
        assert Lagging(w, i, after.machines[i], stamp, kind) == {};
        LiveKeepsFrom(MeterOf(r.machines[i], kind).value, LegsOf(w.legs[i], kind), ColumnsOf(w.machines[i], kind),
          ColumnsOf(after.machines[i], kind), |LegsOf(r.legs[i], kind)| - 1, r.at, stamp, w.now);
      }
    }
  }

  lemma EventKeepsBatch(w: World, i: nat, event: Event, stamp: nat, b: MeterBatch)
    requires WorldInv(w) && i < |w.machines| && Payable(event) && stamp <= w.now && b in w.batches && BatchInv(b, w)
    ensures BatchInv(b, Act(w, Live(i, event, stamp)))
  {
    hide MeterInv, ReadingInv, Inv, Lived, Rewritten, Continued, RowsBelong, MeterOf, FromLeg, WindowRows, OnTheMinute;
    var after := Act(w, Live(i, event, stamp));
    EventsRewrite(w.machines[i], event, stamp, b.kind);
    if b.machine == i && (i, b.kind) !in after.late {
      assert Lagging(w, i, after.machines[i], stamp, b.kind) == {};
      LiveKeepsFrom(b.meter, LegsOf(w.legs[i], b.kind), ColumnsOf(w.machines[i], b.kind),
        ColumnsOf(after.machines[i], b.kind), b.leg, b.target, stamp, w.now);
    }
  }

  lemma LiveKeepsInv(w: World, i: nat, event: Event, stamp: nat)
    requires WorldInv(w)
    ensures WorldInv(Act(w, Live(i, event, stamp)))
  {
    hide MeterInv, ReadingInv, BatchInv, Inv, Lived, Rewritten, Continued, Timely;
    var after := Act(w, Live(i, event, stamp));
    if after != w {
      EventsRewrite(w.machines[i], event, stamp, Compute);
      forall m, kind | 0 <= m < |w.machines| && (m, kind) !in after.late
        ensures MeterInv(w.books.tables.ledger, m, kind, ColumnsOf(after.machines[m], kind), LegsOf(after.legs[m], kind), w.now)
      {
        if m == i { EventKeepsMeter(w, i, event, stamp, kind); }
      }
      forall r | 0 <= r < |w.readings| ensures ReadingInv(w.readings[r], after) {
        EventKeepsReading(w, i, event, stamp, w.readings[r]);
      }
      forall b | 0 <= b < |w.batches| ensures BatchInv(w.batches[b], after) {
        EventKeepsBatch(w, i, event, stamp, w.batches[b]);
      }
    }
  }

  // ── Sweeps ──

  lemma SelectKeepsInv(w: World, at: nat)
    requires WorldInv(w)
    ensures WorldInv(Act(w, Select(at)))
  {
    hide ReadingInv, BatchInv, Inv, RowsBelong, LegsMove;
    var after := Act(w, Select(at));
    if after != w {
      forall i, kind | 0 <= i < |w.machines| ensures LegsMove(LegsOf(w.legs[i], kind), LegsOf(after.legs[i], kind), w.now, after.now) {
        StillLegs(LegsOf(w.legs[i], kind), w.now, w.now);
      }
      var fresh' := Reading(at, w.machines, w.legs);
      assert ReadingInv(fresh', after) by { FreshReading(w, at); OnlyReadings(w, after, fresh'); }
      forall r | 0 <= r < |after.readings| ensures ReadingInv(after.readings[r], after) {
        if r < |w.readings| { MovesKeepReading(w, after, w.readings[r]); }
      }
      forall b | 0 <= b < |after.batches| ensures BatchInv(after.batches[b], after) {
        MovesKeepBatch(w, after, w.batches[b]);
      }
    }
  }

  lemma OnlyReadings(w: World, after: World, r: Reading)
    requires ReadingInv(r, w) && after == w.(readings := after.readings, batches := after.batches)
    ensures ReadingInv(r, after)
  {
    forall i, kind | 0 <= i < |r.machines| ensures ReadMeterInv(r, i, kind, after) {
      assert ReadMeterInv(r, i, kind, w);
    }
  }

  lemma FreshReading(w: World, at: nat)
    requires WorldInv(w) && at <= w.now
    ensures ReadingInv(Reading(at, w.machines, w.legs), w)
  {
    hide ReadingInv, BatchInv, Inv, RowsBelong, RowsInLegs, LegsInOrder;
    var r := Reading(at, w.machines, w.legs);
    forall i, kind | 0 <= i < |w.machines| ensures ReadMeterInv(r, i, kind, w) {
      var c, legs := ColumnsOf(w.machines[i], kind), LegsOf(w.legs[i], kind);
      if MeterOf(w.machines[i], kind).Some? && (i, kind) !in w.late {
        assert MeterInv(w.books.tables.ledger, i, kind, c, legs, w.now);
        CurrentLeg(w.books.tables.ledger, i, kind, c, legs, w.now);
      }
    }
    assert ReadingInv(r, w) by { ReadingFrom(r, w); }
  }

  lemma ReadingFrom(r: Reading, w: World)
    requires r.at <= w.now && |r.machines| == |r.legs| <= |w.machines| == |w.legs|
    requires forall i, kind :: 0 <= i < |r.machines| ==> ReadMeterInv(r, i, kind, w)
    ensures ReadingInv(r, w)
  {
  }

  /** A priced meter stands in its last leg, on one of its minutes if the leg is on them. */
  lemma CurrentLeg(ledger: seq<SpendRow>, machine: nat, kind: Kind, c: Columns, legs: seq<Leg>, now: nat)
    requires MeterInv(ledger, machine, kind, c, legs, now) && Priced(c)
    ensures legs != []
    ensures var leg := legs[|legs| - 1];
      && c.hourly.value == leg.hourly && c.startedAt.value == leg.origin && leg.base <= c.cursor.value == leg.reached
      && (OnTheMinute(leg) ==> (c.cursor.value - leg.base) % WINDOW_SECONDS == 0)
  {
    hide Covers, OnTheMinute;
    var j := |legs| - 1;
    assert LegInv(legs, j, now);
    assert LegCovered(ledger, machine, kind, legs, j);
    if OnTheMinute(legs[j]) {
      var k: nat :| CoveredTo(ledger, machine, kind, legs, j, k);
      WholeMinutes(k);
    }
  }

  lemma WholeMinutes(k: nat)
    ensures WINDOW_SECONDS * k % WINDOW_SECONDS == 0
  {
  }

  /** Windows of a leg on the minute are whole ones up to the target. */
  lemma WholeWindows(m: Meter, leg: Leg, at: nat, n: nat)
    requires OnTheMinute(leg) && m.startedAt == leg.origin && leg.base <= m.cursor && (m.cursor - leg.base) % WINDOW_SECONDS == 0
    requires n <= Owed(m, at) && at <= U64_MAX && m.startedAt <= U64_MAX
    ensures n > 0 ==> m.cursor + WINDOW_SECONDS * n <= Target(m, at)
  {
    var whole := SaturatingSub(at, m.startedAt) / WINDOW_SECONDS;
    assert Target(m, at) == m.startedAt + WINDOW_SECONDS * whole;
    var a, b := (leg.base - leg.origin) / WINDOW_SECONDS, (m.cursor - leg.base) / WINDOW_SECONDS;
    assert m.cursor == m.startedAt + WINDOW_SECONDS * (a + b);
  }

  /** What a sweep composes from any earlier read is a batch of some leg's windows. */
  lemma ComposeKeepsInv(w: World, reading: nat, machine: nat, kind: Kind, left: nat)
    requires WorldInv(w)
    ensures WorldInv(Act(w, Compose(reading, machine, kind, left)))
  {
    hide ReadingInv, BatchInv, Inv, RowsBelong, MeterInv, Composed;
    var after := Act(w, Compose(reading, machine, kind, left));
    if after != w {
      ComposedBatch(w, reading, machine, kind, left);
      var b := after.batches[|w.batches|];
      forall r | 0 <= r < |after.readings| ensures ReadingInv(after.readings[r], after) {
        OnlyReadings(w, after, w.readings[r]) by { assert ReadingInv(w.readings[r], w); }
      }
      forall d | 0 <= d < |after.batches| ensures BatchInv(after.batches[d], after) {
        OnlyBatches(w, after, after.batches[d]) by { assert d < |w.batches| ==> BatchInv(w.batches[d], w); }
      }
      MetersStand(w, after);
    }
  }

  lemma OnlyBatches(w: World, after: World, b: MeterBatch)
    requires BatchInv(b, w) && after == w.(batches := after.batches)
    ensures BatchInv(b, after)
  {
    hide WindowRows, FromLeg;
  }

  lemma MetersStand(w: World, after: World)
    requires |w.legs| == |w.machines| && MetersInv(w) && after == w.(readings := after.readings, batches := after.batches)
    ensures MetersInv(after)
  {
    hide MeterInv;
  }

  lemma ComposedBatch(w: World, reading: nat, machine: nat, kind: Kind, left: nat)
    requires WorldInv(w) && Act(w, Compose(reading, machine, kind, left)) != w
    ensures var after := Act(w, Compose(reading, machine, kind, left));
      && after == w.(batches := after.batches) && |after.batches| == |w.batches| + 1
      && after.batches[..|w.batches|] == w.batches
      && BatchInv(after.batches[|w.batches|], w)
  {
    hide BatchInv, Inv, RowsBelong, MeterInv, WindowRows, Target, Drain, Owed, FromLeg, OnTheMinute;
    var r := w.readings[reading];
    assert ReadingInv(r, w);
    assert ReadMeterInv(r, machine, kind, w);
    var row := r.machines[machine];
    var m := MeterOf(row, kind).value;
    DrainTakesAll(row.budget, machine, kind, m, r.at, left);
    var after := Act(w, Compose(reading, machine, kind, left));
    var b := after.batches[|w.batches|];
    ReadBatch(w, b, r.at, left);
  }

  lemma DrainTakesAll(budget: nat, machine: nat, kind: Kind, m: Meter, at: nat, left: nat)
    ensures var target, taken := Target(m, at), Min(left, Owed(m, at));
      Drain(budget, machine, kind, m, target, m.cursor, left, [])
        == (WindowRows(budget, machine, kind, m, target, taken), Reach(m, target, taken), left - taken)
  {
    DrainTakesWindows(budget, machine, kind, m, at, left, 0);
  }

  lemma ReadBatch(w: World, b: MeterBatch, at: nat, left: nat)
    requires w.now <= U64_MAX && at <= w.now && b.machine < |w.machines| == |w.legs|
    requires MetersInv(w)
    requires (b.machine, b.kind) !in w.late ==> FromLeg(b.meter, LegsOf(w.legs[b.machine], b.kind), b.leg, at, w.now)
    requires b.target == Target(b.meter, at) && b.taken == Min(left, Owed(b.meter, at))
    requires b.end == Reach(b.meter, b.target, b.taken) != b.meter.cursor
    requires b.rows == WindowRows(w.machines[b.machine].budget, b.machine, b.kind, b.meter, b.target, b.taken)
    ensures BatchInv(b, w)
  {
    hide WindowRows, Target, Owed, OnTheMinute, LegsInOrder, ColumnsInv, RowsInLegs, LegCovered;
    var legs := LegsOf(w.legs[b.machine], b.kind);
    TargetInRange(b.meter, at);
    if (b.machine, b.kind) !in w.late {
      assert MeterInv(w.books.tables.ledger, b.machine, b.kind, ColumnsOf(w.machines[b.machine], b.kind), legs, w.now);
      assert LegInv(legs, b.leg, w.now);
      if OnTheMinute(legs[b.leg]) {
        WholeWindows(b.meter, legs[b.leg], at, b.taken);
      }
    }
  }

  // ── An executed batch ──

  lemma ReachedMoves(legs: seq<Leg>, j: nat, end: nat, now: nat)
    ensures LegsMove(legs, ReachedLegs(legs, j, end), now, now)
  {
    var after := ReachedLegs(legs, j, end);
    forall i: nat | i < |legs| ensures SameLeg(legs, after, i) {}
  }

  /** How far a batch reaches into its leg. */
  lemma BatchEnds(m: Meter, legs: seq<Leg>, j: nat, target: nat, taken: nat, now: nat)
    requires FromLeg(m, legs, j, target, now) && m.cursor < Reach(m, target, taken)
    ensures j < |legs| && Reach(m, target, taken) <= target <= Limit(legs, j, now)
  {
  }

  lemma ReachedKeepsLegs(legs: seq<Leg>, j: nat, end: nat, now: nat)
    requires j < |legs| && end <= Limit(legs, j, now)
    requires LegsInOrder(legs) && forall i: nat :: i < |legs| ==> LegInv(legs, i, now)
    ensures var after := ReachedLegs(legs, j, end);
      LegsInOrder(after) && forall i: nat :: i < |legs| ==> LegInv(after, i, now)
  {
    var after := ReachedLegs(legs, j, end);
    assert LegInv(legs, j, now);
    forall i: nat | i < |legs| ensures LegInv(after, i, now) {
      assert LegInv(legs, i, now);
    }
    if j + 1 < |legs| {
      assert LegInv(legs, j + 1, now);
    }
  }

  /** Only a batch of the last leg moves the cursor. */
  lemma ReachedKeepsColumns(c: Columns, legs: seq<Leg>, j: nat, end: nat, now: nat)
    requires j < |legs| && end <= Limit(legs, j, now) && ColumnsInv(c, legs, now)
    requires LegsInOrder(legs) && forall i: nat :: i < |legs| ==> LegInv(legs, i, now)
    ensures ColumnsInv(Advanced(c, end), ReachedLegs(legs, j, end), now)
  {
    assert LegInv(legs, j, now);
    if j + 1 < |legs| {
      assert LegInv(legs, j + 1, now) && LegInv(legs, |legs| - 1, now);
      assert end <= legs[|legs| - 1].base;
    }
  }

  /** A window from somewhere in leg `j` that ends by `end`. */
  predicate Lies(key: SpendKey, legs: seq<Leg>, j: nat, end: nat)
  {
    key.Window? && j < |legs| && legs[j].base <= key.start < key.end <= end
  }

  /** Rows of one leg's batch, by where they lie. */
  ghost predicate RowsOf(rows: seq<SpendRow>, machine: nat, kind: Kind, legs: seq<Leg>, j: nat, end: nat)
  {
    forall row :: row in rows ==> Bills(row, machine, kind) && Lies(row.key.value, legs, j, end)
  }

  lemma BatchRowsLie(b: MeterBatch, budget: nat, legs: seq<Leg>, now: nat)
    requires FromLeg(b.meter, legs, b.leg, b.target, now)
    requires b.end == Reach(b.meter, b.target, b.taken)
    requires b.rows == WindowRows(budget, b.machine, b.kind, b.meter, b.target, b.taken)
    ensures RowsOf(b.rows, b.machine, b.kind, legs, b.leg, b.end)
  {
    hide WindowRows, OnTheMinute;
    RowsWithin(budget, b.machine, b.kind, b.meter, b.target, b.taken);
  }

  lemma {:induction false} KeysAfterInserts(ledger: seq<SpendRow>, rows: seq<SpendRow>, key: SpendKey)
    requires key in Keys(InsertRows(ledger, rows)) && key !in Keys(ledger)
    ensures exists row :: row in rows && row.key == Some(key)
  {
    hide Keys, InsertRow;
    if rows != [] {
      var init, last := rows[..|rows| - 1], rows[|rows| - 1];
      var l := InsertRows(ledger, init);
      if key in Keys(l) {
        KeysAfterInserts(ledger, init, key);
        var row :| row in init && row.key == Some(key);
        assert row in rows;
      } else {
        InsertedKey(l, last, key);
        assert last in rows;
      }
    }
  }

  lemma InsertedKey(ledger: seq<SpendRow>, row: SpendRow, key: SpendKey)
    requires key in Keys(InsertRow(ledger, row)) && key !in Keys(ledger)
    ensures row.key == Some(key)
  {
    hide Keys;
    if row.key.Some? {
      KeysAfterInsert(ledger, row);
    } else {
      UnkeyedInsert(ledger, row);
    }
  }

  lemma InsertKeepsRowsInLegs(ledger: seq<SpendRow>, rows: seq<SpendRow>, machine: nat, kind: Kind, legs: seq<Leg>, j: nat, end: nat)
    requires RowsInLegs(ledger, machine, kind, legs) && RowsOf(rows, machine, kind, legs, j, end)
    ensures RowsInLegs(InsertRows(ledger, rows), machine, kind, ReachedLegs(legs, j, end))
  {
    hide Keys, InsertRows, OfMeter;
    var after, l := ReachedLegs(legs, j, end), InsertRows(ledger, rows);
    forall key | key in Keys(l) && OfMeter(key, machine, kind) ensures InSomeLeg(key, after) {
      if key in Keys(ledger) {
        assert InSomeLeg(key, legs);
        var i: nat :| InLeg(key, legs, i);
        assert InLeg(key, after, i);
      } else {
        KeysAfterInserts(ledger, rows, key);
        var row :| row in rows && row.key == Some(key);
        assert Lies(key, legs, j, end);
        assert InLeg(key, after, j);
      }
    }
  }

  /** How far a leg has been billed is no part of what its windows cost. */
  lemma CoversWhateverReached(ledger: seq<SpendRow>, machine: nat, kind: Kind, leg: Leg, after: Leg, hi: Option<nat>, k: nat)
    requires Covers(ledger, machine, kind, leg, hi, k) && after == leg.(reached := after.reached)
    ensures Covers(ledger, machine, kind, after, hi, k)
  {
    hide BilledIn, Keys, IntervalCost, WindowsAmong;
    forall j: nat | j < k ensures Accounted(ledger, machine, kind, after, j) {
      assert Accounted(ledger, machine, kind, leg, j);
    }
    AmongWhateverPrice(ledger, machine, kind, leg, after, hi, k);
  }

  /** The leg a batch is for. */
  lemma BatchCoversItsLeg(ledger: seq<SpendRow>, b: MeterBatch, budget: nat, legs: seq<Leg>, now: nat)
    requires FromLeg(b.meter, legs, b.leg, b.target, now) && OnTheMinute(legs[b.leg])
    requires b.meter.cursor < b.end == Reach(b.meter, b.target, b.taken)
    requires b.rows == WindowRows(budget, b.machine, b.kind, b.meter, b.target, b.taken)
    requires b.meter.cursor + WINDOW_SECONDS * b.taken <= b.target
    requires LegCovered(ledger, b.machine, b.kind, legs, b.leg)
    ensures LegCovered(InsertRows(ledger, b.rows), b.machine, b.kind, ReachedLegs(legs, b.leg, b.end), b.leg)
  {
    hide WindowRows, InsertRows, Covers, OnTheMinute, WindowsAmong;
    var j := b.leg;
    var leg, after := legs[j], ReachedLegs(legs, j, b.end);
    var k: nat :| CoveredTo(ledger, b.machine, b.kind, legs, j, k);
    var q := (b.meter.cursor - leg.base) / WINDOW_SECONDS;
    assert b.meter.cursor == Boundary(leg.base, q) && q <= k;
    var l, hi, n := InsertRows(ledger, b.rows), Until(legs, j), Max(k, q + b.taken);
    BatchStaysAmong(ledger, budget, b.machine, b.kind, leg, hi, k, b.meter, q, b.target, b.taken);
    AmongWhateverPrice(l, b.machine, b.kind, leg, after[j], hi, n);
    if leg.steady {
      BatchCovers(ledger, budget, b.machine, b.kind, leg, hi, k, b.meter, q, b.target, b.taken);
      CoversWhateverReached(l, b.machine, b.kind, leg, after[j], hi, n);
    }
    assert CoveredTo(l, b.machine, b.kind, after, j, n);
  }

  /** Any other leg of the same meter. */
  lemma BatchSparesOtherLegs(ledger: seq<SpendRow>, rows: seq<SpendRow>, machine: nat, kind: Kind, legs: seq<Leg>, j: nat, end: nat, now: nat, i: nat)
    requires RowsOf(rows, machine, kind, legs, j, end) && end <= Limit(legs, j, now) && i < |legs| && i != j
    requires LegsInOrder(legs) && forall i: nat :: i < |legs| ==> LegInv(legs, i, now)
    requires LegCovered(ledger, machine, kind, legs, i)
    ensures LegCovered(InsertRows(ledger, rows), machine, kind, ReachedLegs(legs, j, end), i)
  {
    hide InsertRows, Keys, BilledIn, OnTheMinute, Covers;
    var after, l := ReachedLegs(legs, j, end), InsertRows(ledger, rows);
    assert LegInv(legs, i, now);
    forall row | row in rows ensures !BillsIn(row, machine, kind, legs[i].base, Until(legs, i)) {
      assert Lies(row.key.value, legs, j, end);
      LegsApart(row.key.value, legs, i, j, end, now);
    }
    InsertsSpare(ledger, rows, machine, kind, legs[i].base, Until(legs, i));
    KeysGrow(ledger, l);
    if OnTheMinute(legs[i]) {
      var k: nat :| CoveredTo(ledger, machine, kind, legs, i, k);
      SameKeepsCovered(ledger, l, machine, kind, legs, i, k);
      assert CoveredTo(l, machine, kind, after, i, k);
    }
    if legs[i].reached == legs[i].base {
      SameCovers(ledger, l, machine, kind, legs[i], Until(legs, i), 0);
    }
  }

  lemma LegsApart(key: SpendKey, legs: seq<Leg>, i: nat, j: nat, end: nat, now: nat)
    requires Lies(key, legs, j, end) && end <= Limit(legs, j, now) && i < |legs| && i != j
    requires LegsInOrder(legs) && forall i: nat :: i < |legs| ==> LegInv(legs, i, now)
    ensures !Within(key, legs[i].base, Until(legs, i))
  {
    if i < j {
      assert LegInv(legs, i + 1, now);
    } else {
      assert LegInv(legs, j + 1, now);
    }
  }

  /** The meter a batch is for. */
  lemma ExecutedMeter(ledger: seq<SpendRow>, b: MeterBatch, budget: nat, c: Columns, legs: seq<Leg>, now: nat)
    requires MeterInv(ledger, b.machine, b.kind, c, legs, now) && FromLeg(b.meter, legs, b.leg, b.target, now)
    requires b.meter.cursor < b.end == Reach(b.meter, b.target, b.taken)
    requires b.rows == WindowRows(budget, b.machine, b.kind, b.meter, b.target, b.taken)
    requires OnTheMinute(legs[b.leg]) ==> b.meter.cursor + WINDOW_SECONDS * b.taken <= b.target
    ensures MeterInv(InsertRows(ledger, b.rows), b.machine, b.kind, Advanced(c, b.end), ReachedLegs(legs, b.leg, b.end), now)
  {
    hide WindowRows, InsertRows, LegInv, LegsInOrder, ColumnsInv, RowsInLegs, RowsOf, FromLeg, Advanced;
    hide OnTheMinute;
    var j := b.leg;
    var after, l := ReachedLegs(legs, j, b.end), InsertRows(ledger, b.rows);
    BatchEnds(b.meter, legs, j, b.target, b.taken, now);
    BatchRowsLie(b, budget, legs, now);
    ReachedKeepsLegs(legs, j, b.end, now);
    ReachedKeepsColumns(c, legs, j, b.end, now);
    InsertKeepsRowsInLegs(ledger, b.rows, b.machine, b.kind, legs, j, b.end);
    forall i: nat | i < |after| ensures LegCovered(l, b.machine, b.kind, after, i) {
      LegOfExecuted(ledger, b, budget, legs, now, i);
    }
  }

  lemma LegOfExecuted(ledger: seq<SpendRow>, b: MeterBatch, budget: nat, legs: seq<Leg>, now: nat, i: nat)
    requires i < |legs| && FromLeg(b.meter, legs, b.leg, b.target, now) && LegCovered(ledger, b.machine, b.kind, legs, i)
    requires b.meter.cursor < b.end == Reach(b.meter, b.target, b.taken)
    requires b.rows == WindowRows(budget, b.machine, b.kind, b.meter, b.target, b.taken)
    requires OnTheMinute(legs[b.leg]) ==> b.meter.cursor + WINDOW_SECONDS * b.taken <= b.target
    requires LegsInOrder(legs) && forall i: nat :: i < |legs| ==> LegInv(legs, i, now)
    ensures LegCovered(InsertRows(ledger, b.rows), b.machine, b.kind, ReachedLegs(legs, b.leg, b.end), i)
  {
    hide WindowRows, InsertRows, LegsInOrder, CoveredTo, RowsOf, Reach;
    assert LegInv(legs, i, now);
    if i != b.leg {
      BatchEnds(b.meter, legs, b.leg, b.target, b.taken, now);
      BatchRowsLie(b, budget, legs, now);
      BatchSparesOtherLegs(ledger, b.rows, b.machine, b.kind, legs, b.leg, b.end, now, i);
    } else if OnTheMinute(legs[i]) {
      BatchCoversItsLeg(ledger, b, budget, legs, now);
    }
  }

  lemma {:induction false} InsertedRowsBelong(ledger: seq<SpendRow>, rows: seq<SpendRow>, machines: seq<MachineRow>, machine: nat, kind: Kind)
    requires RowsBelong(ledger, machines) && machine < |machines|
    requires forall row :: row in rows ==> Bills(row, machine, kind) && row.budget == machines[machine].budget
    ensures RowsBelong(InsertRows(ledger, rows), machines)
  {
    if rows != [] {
      InsertedRowsBelong(ledger, rows[..|rows| - 1], machines, machine, kind);
      assert rows[|rows| - 1] in rows;
    }
  }

  /** One meter, across an executed batch. */
  lemma ExecutedMeters(w: World, b: MeterBatch, m: nat, kind: Kind)
    requires WorldInv(w) && BatchInv(b, w) && m < |w.machines| && (m, kind) !in w.late
    ensures var machine := AdvancedRow(w.machines[m], b.kind, b.end);
      var legs := BilledThrough(w.legs[m], b.kind, b.leg, b.end);
      var l := InsertRows(w.books.tables.ledger, b.rows);
      if m == b.machine
      then MeterInv(l, m, kind, ColumnsOf(machine, kind), LegsOf(legs, kind), w.now)
      else MeterInv(l, m, kind, ColumnsOf(w.machines[m], kind), LegsOf(w.legs[m], kind), w.now)
  {
    hide WindowRows, InsertRows, MeterInv, FromLeg, Advanced, ReachedLegs, Inv, RowsBelong, ReadingInv, OnTheMinute;
    var l := w.books.tables.ledger;
    var legs := LegsOf(w.legs[b.machine], b.kind);
    if m == b.machine && kind == b.kind {
      assert MeterInv(l, m, kind, ColumnsOf(w.machines[m], kind), LegsOf(w.legs[m], kind), w.now);
      ExecutedMeter(l, b, w.machines[m].budget, ColumnsOf(w.machines[m], kind), legs, w.now);
    } else {
      BatchRowsBill(b, w.machines[b.machine].budget);
      OthersRowsSpare(l, b.rows, m, kind);
      SameKeepsMeter(l, InsertRows(l, b.rows), m, kind, ColumnsOf(w.machines[m], kind), LegsOf(w.legs[m], kind), w.now);
    }
  }

  lemma BatchRowsBill(b: MeterBatch, budget: nat)
    requires b.rows == WindowRows(budget, b.machine, b.kind, b.meter, b.target, b.taken)
    ensures forall row :: row in b.rows ==> row.budget == budget && Bills(row, b.machine, b.kind)
  {
    hide WindowRows;
    RowsWithin(budget, b.machine, b.kind, b.meter, b.target, b.taken);
  }

  lemma ExecuteKeepsInv(w: World, i: nat)
    requires WorldInv(w)
    ensures WorldInv(Act(w, Execute(i)))
  {
    hide MeterInv, ReadingInv, Inv, RowsBelong, LegsMove, InsertRows, AdvancedRow, BilledThrough, FromLeg, WindowRows, OnTheMinute, RowsOf, Do;
    var after := Act(w, Execute(i));
    if after != w {
      var b, l := w.batches[i], w.books.tables.ledger;
      assert BatchInv(b, w);
      StepKeepsInv(w.books, Insert(b.rows));
      InsertIs(w.books, b.rows);
      BatchRowsBill(b, w.machines[b.machine].budget);
      InsertedRowsBelong(l, b.rows, w.machines, b.machine, b.kind);
      ExecutedRowsBelong(w, after, b);
      forall m, kind | 0 <= m < |after.machines| && (m, kind) !in after.late
        ensures MeterInv(after.books.tables.ledger, m, kind, ColumnsOf(after.machines[m], kind), LegsOf(after.legs[m], kind), w.now)
      {
        ExecutedMeters(w, b, m, kind);
      }
      forall m, kind | 0 <= m < |w.machines|
        ensures LegsMove(LegsOf(w.legs[m], kind), LegsOf(after.legs[m], kind), w.now, after.now)
      {
        ExecuteMoves(w, b, m, kind);
      }
      forall m | 0 <= m < |w.machines| ensures after.machines[m].budget == w.machines[m].budget {
        ExecuteMoves(w, b, m, Compute);
      }
      MovesKeepRest(w, after);
    }
  }

  lemma ExecutedRowsBelong(w: World, after: World, b: MeterBatch)
    requires b.machine < |w.machines| && after.machines == w.machines[b.machine := AdvancedRow(w.machines[b.machine], b.kind, b.end)]
    requires RowsBelong(after.books.tables.ledger, w.machines)
    ensures RowsBelong(after.books.tables.ledger, after.machines)
  {
    assert forall m :: 0 <= m < |w.machines| ==> after.machines[m].budget == w.machines[m].budget;
  }

  lemma ExecuteMoves(w: World, b: MeterBatch, m: nat, kind: Kind)
    requires b.machine < |w.machines| == |w.legs| && m < |w.machines|
    ensures AdvancedRow(w.machines[m], b.kind, b.end).budget == w.machines[m].budget
    ensures var legs := w.legs[b.machine := BilledThrough(w.legs[b.machine], b.kind, b.leg, b.end)];
      LegsMove(LegsOf(w.legs[m], kind), LegsOf(legs[m], kind), w.now, w.now)
  {
    hide LegsMove, ReachedLegs;
    ReachedMoves(LegsOf(w.legs[m], kind), b.leg, b.end, w.now);
    StillLegs(LegsOf(w.legs[m], kind), w.now, w.now);
  }

  lemma ActKeepsInv(w: World, step: WorldStep)
    requires WorldInv(w)
    ensures WorldInv(Act(w, step))
  {
    hide Act, WorldInv;
    match step
    case Tick(now) => TickKeepsInv(w, now);
    case Budget(s) => BudgetKeepsInv(w, s);
    case AddMachine(budget) => AddKeepsInv(w, budget);
    case Live(i, event, stamp) => LiveKeepsInv(w, i, event, stamp);
    case Select(at) => SelectKeepsInv(w, at);
    case Compose(reading, machine, kind, left) => ComposeKeepsInv(w, reading, machine, kind, left);
    case Execute(i) => ExecuteKeepsInv(w, i);
  }

  lemma {:induction false} PlayKeepsInv(steps: seq<WorldStep>)
    ensures WorldInv(Play(steps))
  {
    hide Act;
    if steps != [] {
      PlayKeepsInv(steps[..|steps| - 1]);
      ActKeepsInv(Play(steps[..|steps| - 1]), steps[|steps| - 1]);
    }
  }
}
