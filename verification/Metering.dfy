/** The window arithmetic of crates/api/src/metering.rs and the ledger rows it produces. */
module Metering {
  import opened Prelude
  import opened BudgetTables

  const SECONDS_PER_HOUR: nat := 3_600
  const WINDOW_SECONDS: nat := 60
  const MAX_WINDOWS_PER_SWEEP: nat := 600

  /** A metered price from a fixed origin, accounted through `cursor`. */
  datatype Meter = Meter(hourly: nat, startedAt: nat, cursor: nat)

  function SaturatingAdd(a: nat, b: nat): nat { Min(a + b, U64_MAX) }

  /** `cumulative`: what a meter has cost by an instant, rounded down. */
  function Cumulative(hourly: nat, origin: nat, instant: nat): nat
  {
    hourly * SaturatingSub(instant, origin) / SECONDS_PER_HOUR
  }

  /** `interval_cost`. */
  function IntervalCost(hourly: nat, origin: nat, start: nat, end: nat): nat
  {
    SaturatingSub(Cumulative(hourly, origin, end), Cumulative(hourly, origin, start))
  }

  /** The last window boundary a sweep at `at` may reach. */
  function Target(m: Meter, at: nat): nat
  {
    SaturatingAdd(m.startedAt, SaturatingSub(at, m.startedAt) / WINDOW_SECONDS * WINDOW_SECONDS)
  }

  lemma CumulativeMonotone(hourly: nat, origin: nat, a: nat, b: nat)
    requires a <= b
    ensures Cumulative(hourly, origin, a) <= Cumulative(hourly, origin, b)
  {
    var x, y := SaturatingSub(a, origin), SaturatingSub(b, origin);
    MulMonotone(x, y, hourly);
    DivMonotone(hourly * x, hourly * y, SECONDS_PER_HOUR);
  }

  /** Adjacent windows lose nothing to rounding: their costs telescope. */
  lemma CostsTelescope(hourly: nat, origin: nat, start: nat, mid: nat, end: nat)
    requires start <= mid <= end
    ensures IntervalCost(hourly, origin, start, mid) + IntervalCost(hourly, origin, mid, end)
         == IntervalCost(hourly, origin, start, end)
  {
    CumulativeMonotone(hourly, origin, start, mid);
    CumulativeMonotone(hourly, origin, mid, end);
  }

  /** One window costs a sixtieth of the hourly price, give or take the microdollar that
      rounding moves between windows; so the conversion to `u64` never fails. */
  lemma WindowCostIsASixtieth(hourly: nat, origin: nat, start: nat)
    requires origin <= start
    ensures hourly / 60 <= IntervalCost(hourly, origin, start, start + WINDOW_SECONDS) <= hourly / 60 + 1
    ensures hourly <= U64_MAX ==> IntervalCost(hourly, origin, start, start + WINDOW_SECONDS) <= U64_MAX
  {
    var past := hourly * (start - origin);
    assert hourly * (start + 60 - origin) == past + 60 * hourly;
    assert 60 * hourly == 3_600 * (hourly / 60) + 60 * (hourly % 60);
    assert past == 3_600 * (past / 3_600) + past % 3_600;
  }

  /** How many windows a sweep at `at` owes a meter; the target may cut the last one short. */
  function Owed(m: Meter, at: nat): nat
  {
    (SaturatingSub(Target(m, at), m.cursor) + WINDOW_SECONDS - 1) / WINDOW_SECONDS
  }

  /** Where the cursor stands after `n` windows. */
  function Reach(m: Meter, target: nat, n: nat): nat
  {
    Min(m.cursor + WINDOW_SECONDS * n, Max(target, m.cursor))
  }

  /** The rows a batch inserts for `n` windows: none for a window that rounds to nothing. */
  function WindowRows(budget: nat, machine: nat, kind: Kind, m: Meter, target: nat, n: nat): seq<SpendRow>
  {
    if n == 0 then []
    else
      var from, end := Reach(m, target, n - 1), Reach(m, target, n);
      var amount := IntervalCost(m.hourly, m.startedAt, from, end);
      WindowRows(budget, machine, kind, m, target, n - 1)
        + if amount == 0 then [] else [SpendRow(budget, amount, end, Some(Window(machine, kind, from, end)))]
  }

  /** Whatever its windows, a batch bills exactly the price of the time it covers. */
  lemma {:induction false} RowsCostTheInterval(budget: nat, machine: nat, kind: Kind, m: Meter, target: nat, n: nat)
    ensures Sum(Amounts(WindowRows(budget, machine, kind, m, target, n)))
         == IntervalCost(m.hourly, m.startedAt, m.cursor, Reach(m, target, n))
  {
    hide IntervalCost;
    if n == 0 {
      assert IntervalCost(m.hourly, m.startedAt, m.cursor, m.cursor) == 0 by { NothingCostsNothing(m); }
    } else {
      var earlier := WindowRows(budget, machine, kind, m, target, n - 1);
      RowsCostTheInterval(budget, machine, kind, m, target, n - 1);
      CostsTelescope(m.hourly, m.startedAt, m.cursor, Reach(m, target, n - 1), Reach(m, target, n));
      var rows := WindowRows(budget, machine, kind, m, target, n);
      if rows != earlier {
        assert rows[..|rows| - 1] == earlier;
      }
    }
  }

  lemma NothingCostsNothing(m: Meter)
    ensures IntervalCost(m.hourly, m.startedAt, m.cursor, m.cursor) == 0
  {
  }

  /** What the ledger holds against one meter. */
  function Billed(ledger: seq<SpendRow>, machine: nat, kind: Kind): nat
  {
    if ledger == [] then 0
    else
      var n := |ledger| - 1;
      Billed(ledger[..n], machine, kind) + if Bills(ledger[n], machine, kind) then ledger[n].amount else 0
  }

  predicate OfMeter(key: SpendKey, machine: nat, kind: Kind)
  {
    key.Window? && key.machine == machine && key.kind == kind
  }

  predicate Bills(row: SpendRow, machine: nat, kind: Kind)
  {
    row.key.Some? && OfMeter(row.key.value, machine, kind)
  }

  // ── Legs ──

  /** A stretch of a meter's life from one origin: it begins wherever the machine's cursor or
      origin is rewritten, has been billed through `reached`, and is `steady` while its price
      stays what it was. */
  datatype Leg = Leg(hourly: nat, origin: nat, base: nat, reached: nat, steady: bool)

  /** The windows of a leg that begins on a whole minute from its origin are whole. */
  predicate OnTheMinute(leg: Leg)
  {
    leg.origin <= leg.base && (leg.base - leg.origin) % WINDOW_SECONDS == 0
  }

  predicate Within(key: SpendKey, lo: nat, hi: Option<nat>)
    requires key.Window?
  {
    lo <= key.start && (hi.Some? ==> key.start < hi.value)
  }

  predicate BillsIn(row: SpendRow, machine: nat, kind: Kind, lo: nat, hi: Option<nat>)
  {
    Bills(row, machine, kind) && Within(row.key.value, lo, hi)
  }

  /** What the ledger holds against one meter for windows from `lo` up to `hi`. */
  function BilledIn(ledger: seq<SpendRow>, machine: nat, kind: Kind, lo: nat, hi: Option<nat>): nat
  {
    if ledger == [] then 0
    else
      var n := |ledger| - 1;
      BilledIn(ledger[..n], machine, kind, lo, hi) + if BillsIn(ledger[n], machine, kind, lo, hi) then ledger[n].amount else 0
  }

  function Boundary(base: nat, k: nat): nat
  {
    base + WINDOW_SECONDS * k
  }

  /** What window number `j` of a leg costs, and the key it goes under. */
  function WindowCost(leg: Leg, j: nat): nat
  {
    IntervalCost(leg.hourly, leg.origin, Boundary(leg.base, j), Boundary(leg.base, j + 1))
  }

  function NthKey(machine: nat, kind: Kind, leg: Leg, j: nat): SpendKey
  {
    Window(machine, kind, Boundary(leg.base, j), Boundary(leg.base, j + 1))
  }

  predicate Accounted(ledger: seq<SpendRow>, machine: nat, kind: Kind, leg: Leg, j: nat)
  {
    WindowCost(leg, j) != 0 ==> NthKey(machine, kind, leg, j) in Keys(ledger)
  }

  ghost predicate AmongFirst(key: SpendKey, machine: nat, kind: Kind, leg: Leg, k: nat)
  {
    exists j: nat :: j < k && key == NthKey(machine, kind, leg, j)
  }

  /** What a leg has cost through its first `k` windows. */
  function CostThrough(leg: Leg, k: nat): nat
  {
    IntervalCost(leg.hourly, leg.origin, leg.base, Boundary(leg.base, k))
  }

  /** The ledger bills exactly a leg's first `k` windows: what they cost in all, every one
      that costs something, and no other. */
  ghost predicate Covers(ledger: seq<SpendRow>, machine: nat, kind: Kind, leg: Leg, hi: Option<nat>, k: nat)
  {
    && BilledIn(ledger, machine, kind, leg.base, hi) == CostThrough(leg, k)
    && (forall j: nat :: j < k ==> Accounted(ledger, machine, kind, leg, j))
    && WindowsAmong(ledger, machine, kind, leg, hi, k)
  }

  /** Every window the ledger bills in a leg is one of its first `k`. */
  ghost predicate WindowsAmong(ledger: seq<SpendRow>, machine: nat, kind: Kind, leg: Leg, hi: Option<nat>, k: nat)
  {
    forall key :: key in Keys(ledger) && OfMeter(key, machine, kind) && Within(key, leg.base, hi)
      ==> AmongFirst(key, machine, kind, leg, k)
  }

  lemma KeysAfterInsert(ledger: seq<SpendRow>, row: SpendRow)
    requires row.key.Some?
    ensures Keys(InsertRow(ledger, row)) == Keys(ledger) + {row.key.value}
  {
    var after := ledger + [row];
    forall key ensures key in Keys(after) <==> key in Keys(ledger) || key == row.key.value {
      if key in Keys(ledger) {
        var i :| 0 <= i < |ledger| && ledger[i].key.Some? && ledger[i].key.value == key;
        assert after[i] == ledger[i];
      }
      assert after[|ledger|] == row;
    }
  }

  lemma BilledAfterAppend(ledger: seq<SpendRow>, row: SpendRow, machine: nat, kind: Kind, lo: nat, hi: Option<nat>)
    ensures Billed(ledger + [row], machine, kind)
         == Billed(ledger, machine, kind) + if Bills(row, machine, kind) then row.amount else 0
    ensures BilledIn(ledger + [row], machine, kind, lo, hi)
         == BilledIn(ledger, machine, kind, lo, hi) + if BillsIn(row, machine, kind, lo, hi) then row.amount else 0
  {
    assert (ledger + [row])[..|ledger|] == ledger;
  }

  lemma NextWindowCosts(leg: Leg, k: nat)
    ensures CostThrough(leg, k + 1) == CostThrough(leg, k) + WindowCost(leg, k)
  {
    hide IntervalCost;
    CostsTelescope(leg.hourly, leg.origin, leg.base, Boundary(leg.base, k), Boundary(leg.base, k + 1));
  }

  /** Inserting a window at or before the first uncovered one leaves the ledger covering
      the leg's windows once each. */
  lemma InsertWindowCovers(ledger: seq<SpendRow>, row: SpendRow, machine: nat, kind: Kind, leg: Leg, hi: Option<nat>, k: nat, j: nat)
    requires Covers(ledger, machine, kind, leg, hi, k) && j <= k
    requires row.key == Some(NthKey(machine, kind, leg, j)) && row.amount == WindowCost(leg, j) != 0
    requires Within(row.key.value, leg.base, hi)
    ensures Covers(InsertRow(ledger, row), machine, kind, leg, hi, Max(k, j + 1))
  {
    hide WindowCost, BilledIn, Keys, CostThrough;
    if j < k {
      assert Accounted(ledger, machine, kind, leg, j);
    } else {
      if row.key.value in Keys(ledger) {
        assert AmongFirst(row.key.value, machine, kind, leg, k);
      }
      KeysAfterInsert(ledger, row);
      BilledAfterAppend(ledger, row, machine, kind, leg.base, hi);
      NextWindowCovers(ledger, ledger + [row], machine, kind, leg, hi, k);
    }
  }

  /** From `k` windows covered to `k + 1`: the next one is billed, or costs nothing. */
  lemma NextWindowCovers(ledger: seq<SpendRow>, after: seq<SpendRow>, machine: nat, kind: Kind, leg: Leg, hi: Option<nat>, k: nat)
    requires Covers(ledger, machine, kind, leg, hi, k)
    requires BilledIn(after, machine, kind, leg.base, hi) == BilledIn(ledger, machine, kind, leg.base, hi) + WindowCost(leg, k)
    requires Keys(ledger) <= Keys(after) <= Keys(ledger) + {NthKey(machine, kind, leg, k)}
    requires Accounted(after, machine, kind, leg, k)
    ensures Covers(after, machine, kind, leg, hi, k + 1)
  {
    hide BilledIn, Keys, CostThrough, WindowCost;
    NextWindowCosts(leg, k);
    forall j: nat | j < k + 1 ensures Accounted(after, machine, kind, leg, j) {
      assert j < k ==> Accounted(ledger, machine, kind, leg, j);
    }
    forall key | key in Keys(after) && OfMeter(key, machine, kind) && Within(key, leg.base, hi)
      ensures AmongFirst(key, machine, kind, leg, k + 1)
    {
      if key in Keys(ledger) {
        assert AmongFirst(key, machine, kind, leg, k);
        var j: nat :| j < k && key == NthKey(machine, kind, leg, j);
        assert j < k + 1;
      } else {
        assert key == NthKey(machine, kind, leg, k);
      }
    }
  }

  /** A meter read from a leg: its price and origin, at a cursor `j` whole windows in. */
  predicate ReadFrom(m: Meter, leg: Leg, j: nat)
  {
    m.hourly == leg.hourly && m.startedAt == leg.origin && m.cursor == Boundary(leg.base, j)
  }

  /** At any price, a batch of whole windows bills only windows of the leg. */
  lemma {:induction false} BatchStaysAmong(ledger: seq<SpendRow>, budget: nat, machine: nat, kind: Kind,
    leg: Leg, hi: Option<nat>, k: nat, m: Meter, j: nat, target: nat, n: nat)
    requires WindowsAmong(ledger, machine, kind, leg, hi, k) && j <= k
    requires m.cursor == Boundary(leg.base, j) && (n > 0 ==> Boundary(leg.base, j + n) <= target)
    ensures WindowsAmong(InsertRows(ledger, WindowRows(budget, machine, kind, m, target, n)), machine, kind, leg, hi, Max(k, j + n))
  {
    hide IntervalCost, Keys, InsertRow, WindowsAmong;
    if n == 0 {
      assert Max(k, j + n) == k;
    } else {
      BatchStaysAmong(ledger, budget, machine, kind, leg, hi, k, m, j, target, n - 1);
      var earlier, rows := WindowRows(budget, machine, kind, m, target, n - 1), WindowRows(budget, machine, kind, m, target, n);
      var l, i := InsertRows(ledger, earlier), j + n - 1;
      assert Reach(m, target, n - 1) == Boundary(leg.base, i) && Reach(m, target, n) == Boundary(leg.base, i + 1);
      AmongMore(l, machine, kind, leg, hi, Max(k, i), Max(k, i + 1));
      if rows != earlier {
        assert rows[..|rows| - 1] == earlier;
        InsertStaysAmong(l, rows[|rows| - 1], machine, kind, leg, hi, Max(k, i + 1), i);
      }
    }
  }

  lemma AmongMore(ledger: seq<SpendRow>, machine: nat, kind: Kind, leg: Leg, hi: Option<nat>, k: nat, more: nat)
    requires WindowsAmong(ledger, machine, kind, leg, hi, k) && k <= more
    ensures WindowsAmong(ledger, machine, kind, leg, hi, more)
  {
    hide Keys;
    forall key | key in Keys(ledger) && OfMeter(key, machine, kind) && Within(key, leg.base, hi)
      ensures AmongFirst(key, machine, kind, leg, more)
    {
      assert AmongFirst(key, machine, kind, leg, k);
      var j: nat :| j < k && key == NthKey(machine, kind, leg, j);
      assert j < more;
    }
  }

  lemma InsertStaysAmong(ledger: seq<SpendRow>, row: SpendRow, machine: nat, kind: Kind, leg: Leg, hi: Option<nat>, k: nat, j: nat)
    requires WindowsAmong(ledger, machine, kind, leg, hi, k) && j < k
    requires row.key == Some(NthKey(machine, kind, leg, j))
    ensures WindowsAmong(InsertRow(ledger, row), machine, kind, leg, hi, k)
  {
    hide Keys, Within;
    KeysAfterInsert(ledger, row);
    assert AmongFirst(row.key.value, machine, kind, leg, k);
  }

  function WindowRow(budget: nat, machine: nat, kind: Kind, leg: Leg, i: nat): SpendRow
  {
    SpendRow(budget, WindowCost(leg, i), Boundary(leg.base, i + 1), Some(NthKey(machine, kind, leg, i)))
  }

  /** The last row of a batch of whole windows, if that window costs anything. */
  lemma NextRows(budget: nat, machine: nat, kind: Kind, leg: Leg, m: Meter, target: nat, j: nat, n: nat)
    requires n > 0 && ReadFrom(m, leg, j) && Boundary(leg.base, j + n) <= target
    ensures var i, earlier := j + n - 1, WindowRows(budget, machine, kind, m, target, n - 1);
      WindowRows(budget, machine, kind, m, target, n) ==
        earlier + if WindowCost(leg, i) == 0 then []
                  else [WindowRow(budget, machine, kind, leg, i)]
  {
    hide IntervalCost;
    var i := j + n - 1;
    assert Reach(m, target, n - 1) == Boundary(leg.base, i) && Reach(m, target, n) == Boundary(leg.base, i + 1);
  }

  /** A batch composed from any earlier cursor bills nothing twice and leaves no gap. */
  lemma {:induction false} BatchCovers(ledger: seq<SpendRow>, budget: nat, machine: nat, kind: Kind,
    leg: Leg, hi: Option<nat>, k: nat, m: Meter, j: nat, target: nat, n: nat)
    requires Covers(ledger, machine, kind, leg, hi, k) && j <= k
    requires ReadFrom(m, leg, j) && (n > 0 ==> Boundary(leg.base, j + n) <= target)
    requires hi.Some? && n > 0 ==> target <= hi.value
    ensures Covers(InsertRows(ledger, WindowRows(budget, machine, kind, m, target, n)), machine, kind, leg, hi, Max(k, j + n))
  {
    hide Covers, WindowCost, Keys, BilledIn, InsertRow, InsertRows, WindowRows;
    if n == 0 {
      NothingInserted(ledger, budget, machine, kind, m, target);
    } else {
      BatchCovers(ledger, budget, machine, kind, leg, hi, k, m, j, target, n - 1);
      NextRows(budget, machine, kind, leg, m, target, j, n);
      var earlier := WindowRows(budget, machine, kind, m, target, n - 1);
      var l, i := InsertRows(ledger, earlier), j + n - 1;
      WindowCovers(l, budget, machine, kind, leg, hi, Max(k, i), i);
      assert Max(Max(k, i), i + 1) == Max(k, j + n);
      if WindowCost(leg, i) == 0 {
        assert earlier + [] == earlier;
      } else {
        InsertLast(ledger, earlier, WindowRow(budget, machine, kind, leg, i));
      }
    }
  }

  lemma NothingInserted(ledger: seq<SpendRow>, budget: nat, machine: nat, kind: Kind, m: Meter, target: nat)
    ensures InsertRows(ledger, WindowRows(budget, machine, kind, m, target, 0)) == ledger
  {
  }

  /** The window after those covered, or one before, is billed or free. */
  lemma WindowCovers(ledger: seq<SpendRow>, budget: nat, machine: nat, kind: Kind, leg: Leg, hi: Option<nat>, k: nat, i: nat)
    requires Covers(ledger, machine, kind, leg, hi, k) && i <= k
    requires hi.Some? ==> Boundary(leg.base, i + 1) <= hi.value
    ensures Covers(if WindowCost(leg, i) == 0 then ledger else InsertRow(ledger, WindowRow(budget, machine, kind, leg, i)),
      machine, kind, leg, hi, Max(k, i + 1))
  {
    hide Covers, WindowCost, Keys, BilledIn, InsertRow;
    if WindowCost(leg, i) != 0 {
      InsertWindowCovers(ledger, WindowRow(budget, machine, kind, leg, i), machine, kind, leg, hi, k, i);
    } else if i == k {
      FreeWindowCovers(ledger, machine, kind, leg, hi, i);
    }
  }

  lemma InsertLast(ledger: seq<SpendRow>, rows: seq<SpendRow>, row: SpendRow)
    ensures InsertRows(ledger, rows + [row]) == InsertRow(InsertRows(ledger, rows), row)
  {
    assert (rows + [row])[..|rows|] == rows;
  }

  lemma FreeWindowCovers(ledger: seq<SpendRow>, machine: nat, kind: Kind, leg: Leg, hi: Option<nat>, k: nat)
    requires Covers(ledger, machine, kind, leg, hi, k) && WindowCost(leg, k) == 0
    ensures Covers(ledger, machine, kind, leg, hi, k + 1)
  {
    hide BilledIn, Keys, CostThrough, WindowCost;
    NextWindowCovers(ledger, ledger, machine, kind, leg, hi, k);
  }

  // ── What a batch leaves alone ──

  /** The ledger says the same of one stretch of one meter. */
  ghost predicate SameIn(before: seq<SpendRow>, after: seq<SpendRow>, machine: nat, kind: Kind, lo: nat, hi: Option<nat>)
  {
    && BilledIn(after, machine, kind, lo, hi) == BilledIn(before, machine, kind, lo, hi)
    && forall key :: key in Keys(before) + Keys(after) && OfMeter(key, machine, kind) && Within(key, lo, hi)
         ==> key in Keys(before) && key in Keys(after)
  }

  lemma InsertSpares(ledger: seq<SpendRow>, row: SpendRow, machine: nat, kind: Kind, lo: nat, hi: Option<nat>)
    requires !BillsIn(row, machine, kind, lo, hi)
    ensures SameIn(ledger, InsertRow(ledger, row), machine, kind, lo, hi)
  {
    if InsertRow(ledger, row) != ledger {
      BilledAfterAppend(ledger, row, machine, kind, lo, hi);
      if row.key.Some? {
        KeysAfterInsert(ledger, row);
      } else {
        UnkeyedInsert(ledger, row);
      }
    }
  }

  lemma UnkeyedInsert(ledger: seq<SpendRow>, row: SpendRow)
    requires row.key.None?
    ensures Keys(ledger + [row]) == Keys(ledger)
  {
    var after := ledger + [row];
    forall key | key in Keys(ledger) ensures key in Keys(after) {
      var i :| 0 <= i < |ledger| && ledger[i].key.Some? && ledger[i].key.value == key;
      assert after[i] == ledger[i];
    }
  }

  lemma {:induction false} InsertsSpare(ledger: seq<SpendRow>, rows: seq<SpendRow>, machine: nat, kind: Kind, lo: nat, hi: Option<nat>)
    requires forall row :: row in rows ==> !BillsIn(row, machine, kind, lo, hi)
    ensures SameIn(ledger, InsertRows(ledger, rows), machine, kind, lo, hi)
  {
    hide BilledIn, Keys, InsertRow, Within, OfMeter;
    if rows != [] {
      var init, last := rows[..|rows| - 1], rows[|rows| - 1];
      InsertsSpare(ledger, init, machine, kind, lo, hi);
      InsertSpares(InsertRows(ledger, init), last, machine, kind, lo, hi);
    }
  }

  lemma SameAmong(before: seq<SpendRow>, after: seq<SpendRow>, machine: nat, kind: Kind, leg: Leg, hi: Option<nat>, k: nat)
    requires SameIn(before, after, machine, kind, leg.base, hi) && WindowsAmong(before, machine, kind, leg, hi, k)
    ensures WindowsAmong(after, machine, kind, leg, hi, k)
  {
    hide BilledIn, Keys, AmongFirst;
  }

  lemma SameCovers(before: seq<SpendRow>, after: seq<SpendRow>, machine: nat, kind: Kind, leg: Leg, hi: Option<nat>, k: nat)
    requires SameIn(before, after, machine, kind, leg.base, hi) && Keys(before) <= Keys(after)
    requires Covers(before, machine, kind, leg, hi, k)
    ensures Covers(after, machine, kind, leg, hi, k)
  {
    hide BilledIn, Keys, CostThrough, WindowCost;
    forall j: nat | j < k ensures Accounted(after, machine, kind, leg, j) {
      assert Accounted(before, machine, kind, leg, j);
    }
  }

  /** Rows of a batch lie between its cursor and its target, each longer than nothing. */
  lemma {:induction false} RowsWithin(budget: nat, machine: nat, kind: Kind, m: Meter, target: nat, n: nat)
    ensures forall row :: row in WindowRows(budget, machine, kind, m, target, n) ==>
      && row.budget == budget && Bills(row, machine, kind)
      && m.cursor <= row.key.value.start < row.key.value.end <= Reach(m, target, n) && m.hourly > 0
  {
    if n != 0 {
      RowsWithin(budget, machine, kind, m, target, n - 1);
      var from, end := Reach(m, target, n - 1), Reach(m, target, n);
      if IntervalCost(m.hourly, m.startedAt, from, end) != 0 {
        assert from != end && m.hourly != 0;
      }
    }
  }
}
