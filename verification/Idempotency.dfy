/** `Idempotency-Key` claims (crates/api/src/idempotency.rs): every statement on
    `idempotency_keys` is one step, and any number of requests interleave between steps. */
module Idempotency {
  import opened Prelude

  const TTL_SECONDS: nat := 24 * 60 * 60
  const MAX_KEY_CHARS: nat := 255

  datatype Slot = Slot(user: nat, key: string)

  datatype KeyRow = KeyRow(session: Option<nat>, created: nat)

  datatype Answer = Committed(session: nat) | InFlight | InvalidKey

  /** Where a request stands: in `claim`'s loop, holding a fresh claim since the time it
      stamped on the row, told an answer, or done recording or releasing. */
  datatype Phase =
    | Inserting(cutoff: nat)
    | Reading(cutoff: nat)
    | Deleting(cutoff: nat)
    | Holding(since: nat)
    | Told(answer: Answer)
    | Finished

  datatype Caller = Caller(slot: Slot, phase: Phase)

  datatype Binding = Binding(slot: Slot, session: nat)

  /** `bindings` lists the sessions `record` has written, in order. */
  datatype Board = Board(now: nat, table: map<Slot, KeyRow>, callers: map<nat, Caller>, bindings: seq<Binding>)

  datatype Step =
    | Tick(now: nat)
    | Claim(caller: nat, slot: Slot)
    | Insert(caller: nat, stamp: nat)
    | Read(caller: nat)
    | Delete(caller: nat)
    | Record(caller: nat, session: nat)
    | Release(caller: nat)

  // ── Statements ──

  predicate ValidKey(key: string)
  {
    0 < |key| <= MAX_KEY_CHARS
  }

  /** `INSERT OR IGNORE`. */
  function Inserted(table: map<Slot, KeyRow>, slot: Slot, stamp: nat): map<Slot, KeyRow>
  {
    if slot in table then table else table[slot := KeyRow(None, stamp)]
  }

  /** `DELETE … AND created_at_unix < …`. */
  function Expired(table: map<Slot, KeyRow>, slot: Slot, cutoff: nat): map<Slot, KeyRow>
  {
    if slot in table && table[slot].created < cutoff then table - {slot} else table
  }

  /** `UPDATE … SET session_id`, whatever the row holds. */
  function Recorded(table: map<Slot, KeyRow>, slot: Slot, session: nat): map<Slot, KeyRow>
  {
    if slot in table then table[slot := table[slot].(session := Some(session))] else table
  }

  /** `DELETE … AND session_id IS NULL`. */
  function Released(table: map<Slot, KeyRow>, slot: Slot): map<Slot, KeyRow>
  {
    if slot in table && table[slot].session.None? then table - {slot} else table
  }

  /** What the loop makes of the row it read. */
  function Judged(row: Option<KeyRow>, cutoff: nat): Phase
  {
    match row
    case None => Inserting(cutoff)
    case Some(held) =>
      if held.session.Some? then Told(Committed(held.session.value))
      else if held.created < cutoff then Deleting(cutoff)
      else Told(InFlight)
  }

  function RowOf(table: map<Slot, KeyRow>, slot: Slot): Option<KeyRow>
  {
    if slot in table then Some(table[slot]) else None
  }

  // ── Runs ──

  function Opened(now: nat, slot: Slot): Phase
  {
    if ValidKey(slot.key) then Inserting(SaturatingSub(now, TTL_SECONDS)) else Told(InvalidKey)
  }

  function Moved(b: Board, caller: nat, phase: Phase): map<nat, Caller>
    requires caller in b.callers
  {
    b.callers[caller := b.callers[caller].(phase := phase)]
  }

  function Do(b: Board, step: Step): Board
  {
    match step
    case Tick(now) => b.(now := Max(b.now, now))
    case Claim(p, slot) =>
      if p in b.callers then b else b.(callers := b.callers[p := Caller(slot, Opened(b.now, slot))])
    case Insert(p, stamp) =>
      if p !in b.callers || !b.callers[p].phase.Inserting? then b
      else
        var slot, cutoff := b.callers[p].slot, b.callers[p].phase.cutoff;
        b.(table := Inserted(b.table, slot, stamp),
           callers := Moved(b, p, if slot in b.table then Reading(cutoff) else Holding(stamp)))
    case Read(p) =>
      if p !in b.callers || !b.callers[p].phase.Reading? then b
      else b.(callers := Moved(b, p, Judged(RowOf(b.table, b.callers[p].slot), b.callers[p].phase.cutoff)))
    case Delete(p) =>
      if p !in b.callers || !b.callers[p].phase.Deleting? then b
      else
        var slot, cutoff := b.callers[p].slot, b.callers[p].phase.cutoff;
        b.(table := Expired(b.table, slot, cutoff), callers := Moved(b, p, Inserting(cutoff)))
    case Record(p, session) =>
      if p !in b.callers || !b.callers[p].phase.Holding? then b
      else
        var slot := b.callers[p].slot;
        b.(table := Recorded(b.table, slot, session), callers := Moved(b, p, Finished),
           bindings := b.bindings + if slot in b.table then [Binding(slot, session)] else [])
    case Release(p) =>
      if p !in b.callers || !b.callers[p].phase.Holding? then b
      else b.(table := Released(b.table, b.callers[p].slot), callers := Moved(b, p, Finished))
  }

  function Run(steps: seq<Step>): Board
  {
    if steps == [] then Board(0, map[], map[], []) else Do(Run(steps[..|steps| - 1]), steps[|steps| - 1])
  }

  /** The time a holder has: the claim window from the stamp on its row. */
  predicate Live(b: Board, p: nat)
  {
    p in b.callers && b.callers[p].phase.Holding? && b.now <= b.callers[p].phase.since + TTL_SECONDS
  }

  /** An insert lands within the window of the time stamped on it, and a holder that records
      or releases at all does so while it is live. */
  predicate InTime(b: Board, step: Step)
  {
    match step
    case Insert(_, stamp) => stamp <= b.now <= stamp + TTL_SECONDS
    case Record(p, _) => p in b.callers && b.callers[p].phase.Holding? ==> Live(b, p)
    case Release(p) => p in b.callers && b.callers[p].phase.Holding? ==> Live(b, p)
    case _ => true
  }

  predicate Timely(steps: seq<Step>)
  {
    forall i :: 0 <= i < |steps| ==> InTime(Run(steps[..i]), steps[i])
  }

  // ── The invariant of timely runs ──

  predicate CallerInv(b: Board, p: nat)
    requires p in b.callers
  {
    var slot := b.callers[p].slot;
    (b.callers[p].phase.Told? || ValidKey(slot.key)) &&
    match b.callers[p].phase
    case Inserting(cutoff) => cutoff <= SaturatingSub(b.now, TTL_SECONDS)
    case Reading(cutoff) => cutoff <= SaturatingSub(b.now, TTL_SECONDS)
    case Deleting(cutoff) =>
      && cutoff <= SaturatingSub(b.now, TTL_SECONDS)
      && (slot in b.table && b.table[slot].created < cutoff ==> b.table[slot].session.None?)
    case Holding(since) => Live(b, p) ==> slot in b.table && b.table[slot] == KeyRow(None, since)
    case Told(Committed(session)) => Binding(slot, session) in b.bindings
    case _ => true
  }

  ghost predicate Exclusive(b: Board)
  {
    forall p, q :: Live(b, p) && Live(b, q) && b.callers[p].slot == b.callers[q].slot ==> p == q
  }

  ghost predicate BindingsStand(b: Board)
  {
    && (forall slot :: slot in b.table && b.table[slot].session.Some? ==> Binding(slot, b.table[slot].session.value) in b.bindings)
    && (forall binding :: binding in b.bindings ==>
         binding.slot in b.table && b.table[binding.slot].session == Some(binding.session))
  }

  predicate OneEach(bindings: seq<Binding>)
  {
    forall i, j :: 0 <= i < j < |bindings| ==> bindings[i].slot != bindings[j].slot
  }

  ghost predicate Inv(b: Board)
  {
    && (forall p :: p in b.callers ==> CallerInv(b, p))
    && Exclusive(b)
    && BindingsStand(b)
    && OneEach(b.bindings)
  }

  lemma StepKeepsCallers(b: Board, step: Step, p: nat)
    requires Inv(b) && InTime(b, step) && p in Do(b, step).callers
    ensures CallerInv(Do(b, step), p)
  {
    hide OneEach;
  }

  lemma StepKeepsExclusive(b: Board, step: Step)
    requires Inv(b) && InTime(b, step)
    ensures Exclusive(Do(b, step))
  {
    hide OneEach, BindingsStand;
    var after := Do(b, step);
    forall p, q | Live(after, p) && Live(after, q) && after.callers[p].slot == after.callers[q].slot ensures p == q {
      assert Live(b, p) || (step.Insert? && step.caller == p);
      assert Live(b, q) || (step.Insert? && step.caller == q);
    }
  }

  lemma StepKeepsBindings(b: Board, step: Step)
    requires Inv(b) && InTime(b, step)
    ensures BindingsStand(Do(b, step)) && OneEach(Do(b, step).bindings)
  {
    hide Exclusive;
  }

  lemma {:induction false} RunKeeps(steps: seq<Step>)
    requires Timely(steps)
    ensures Inv(Run(steps))
  {
    hide Do, CallerInv, InTime, Exclusive, BindingsStand, OneEach;
    if steps == [] {
      Quiet(Run(steps));
    } else {
      var n := |steps| - 1;
      assert Timely(steps[..n]) by {
        forall i | 0 <= i < n ensures InTime(Run(steps[..n][..i]), steps[..n][i]) {
          assert steps[..n][..i] == steps[..i];
        }
      }
      RunKeeps(steps[..n]);
      assert InTime(Run(steps[..n]), steps[n]);
      StepKeepsExclusive(Run(steps[..n]), steps[n]);
      StepKeepsBindings(Run(steps[..n]), steps[n]);
      forall p | p in Run(steps).callers ensures CallerInv(Run(steps), p) {
        StepKeepsCallers(Run(steps[..n]), steps[n], p);
      }
    }
  }

  lemma Quiet(b: Board)
    requires b.table == map[] && b.callers == map[] && b.bindings == []
    ensures Exclusive(b) && BindingsStand(b) && OneEach(b.bindings)
  {
  }

  // ── What timely runs promise ──

  /** At most one session is ever bound to a user's key, and at most one live request holds
      the right to bind one. */
  lemma AtMostOneSession(steps: seq<Step>, slot: Slot, a: nat, b: nat, p: nat, q: nat)
    requires Timely(steps)
    ensures Binding(slot, a) in Run(steps).bindings && Binding(slot, b) in Run(steps).bindings ==> a == b
    ensures var s := Run(steps);
      Live(s, p) && Live(s, q) && s.callers[p].slot == s.callers[q].slot == slot ==>
        p == q && Binding(slot, a) !in s.bindings
  {
    hide Run, Timely;
    RunKeeps(steps);
    var s := Run(steps);
    if Live(s, p) {
      LiveHolds(s, p);
    }
  }

  lemma LiveHolds(b: Board, p: nat)
    requires Inv(b) && Live(b, p)
    ensures b.callers[p].slot in b.table && b.table[b.callers[p].slot].session.None?
  {
    assert CallerInv(b, p);
  }

  lemma {:induction false} BindingsStay(steps: seq<Step>, more: seq<Step>)
    ensures forall binding :: binding in Run(steps).bindings ==> binding in Run(steps + more).bindings
  {
    if more == [] {
      assert steps + more == steps;
    } else {
      BindingsStay(steps, more[..|more| - 1]);
      assert (steps + more)[..|steps + more| - 1] == steps + more[..|more| - 1];
      hide Run;
    }
  }

  /** Once a session is recorded under a key, every later claim of it, however late, collides
      and is told that session: the row never stops counting. */
  lemma RecordedAnswersForever(steps: seq<Step>, more: seq<Step>, slot: Slot, session: nat, p: nat, stamp: nat)
    requires Timely(steps + more) && Binding(slot, session) in Run(steps).bindings
    requires p in Run(steps + more).callers && Run(steps + more).callers[p].slot == slot
    ensures var s := Run(steps + more);
      match s.callers[p].phase
      case Inserting(cutoff) => Do(s, Insert(p, stamp)) == s.(callers := Moved(s, p, Reading(cutoff)))
      case Reading(_) => Do(s, Read(p)).callers[p].phase == Told(Committed(session))
      case Deleting(_) => Do(s, Delete(p)).table == s.table
      case Holding(_) => !Live(s, p)
      case Told(Committed(told)) => told == session
      case _ => true
  {
    hide Run, Timely;
    BindingsStay(steps, more);
    RunKeeps(steps + more);
    var s := Run(steps + more);
    assert CallerInv(s, p);
  }

  // ── Who is told to wait ──

  /** The time a request began to claim its key. */
  function Began(steps: seq<Step>, p: nat): nat
  {
    if steps == [] then 0
    else
      var before, step := Run(steps[..|steps| - 1]), steps[|steps| - 1];
      if step.Claim? && step.caller == p && p !in before.callers then before.now else Began(steps[..|steps| - 1], p)
  }

  predicate CutsADayBefore(phase: Phase, began: nat)
  {
    phase.Inserting? || phase.Reading? || phase.Deleting? ==>
      phase.cutoff == if began < 86_400 then 0 else began - 86_400
  }

  lemma {:induction false} CutoffIsADayBefore(steps: seq<Step>, p: nat)
    requires p in Run(steps).callers
    ensures CutsADayBefore(Run(steps).callers[p].phase, Began(steps, p))
  {
    var before := Run(steps[..|steps| - 1]);
    if p in before.callers { CutoffIsADayBefore(steps[..|steps| - 1], p); }
    hide Run;
  }

  /** What reading its key's row leads a request to, by the row and the time it began: told the
      session, or to wait if the claim was a day old or less then, or to reclaim it. */
  lemma ClaimsAreJudgedByTheirAge(steps: seq<Step>, p: nat)
    requires p in Run(steps).callers && Run(steps).callers[p].phase.Reading?
    ensures var s := Run(steps); var slot, phase := s.callers[p].slot, Do(s, Read(p)).callers[p].phase;
      && (phase.Inserting? <==> slot !in s.table)
      && (forall session: nat :: phase == Told(Committed(session)) <==> slot in s.table && s.table[slot].session == Some(session))
      && (phase == Told(InFlight) <==>
            slot in s.table && s.table[slot].session.None? && s.table[slot].created + 86_400 >= Began(steps, p))
      && (phase.Deleting? <==>
            slot in s.table && s.table[slot].session.None? && s.table[slot].created + 86_400 < Began(steps, p))
  {
    hide Run, Began;
    CutoffIsADayBefore(steps, p);
  }

  /** The read that told a request to wait. */
  predicate ToldToWait(steps: seq<Step>, n: nat, p: nat)
  {
    && n < |steps| && steps[n] == Read(p) && p in Run(steps[..n]).callers
    && var s := Run(steps[..n]); var slot := s.callers[p].slot;
       slot in s.table && s.table[slot].session.None? && s.table[slot].created + 86_400 >= Began(steps, p)
  }

  /** In every run a request told that its key is in flight read a claim that named no session
      and was at most a day old when the request began. */
  lemma {:induction false} OnlyTheLivingKeepOthersWaiting(steps: seq<Step>, p: nat)
    requires p in Run(steps).callers && Run(steps).callers[p].phase == Told(InFlight)
    ensures exists n: nat :: ToldToWait(steps, n, p)
  {
    var n := |steps| - 1;
    var before, step := Run(steps[..n]), steps[n];
    assert p in before.callers;
    if before.callers[p].phase == Told(InFlight) {
      OnlyTheLivingKeepOthersWaiting(steps[..n], p);
      var m: nat :| ToldToWait(steps[..n], m, p);
      assert steps[..n][..m] == steps[..m];
      assert ToldToWait(steps, m, p);
    } else {
      ClaimsAreJudgedByTheirAge(steps[..n], p);
      assert ToldToWait(steps, n, p);
    }
  }

  /** A reclaim deletes only a claim that never named a session and whose holder's time is
      up; never one that a live request holds. */
  lemma ReclaimSparesTheLiving(steps: seq<Step>, p: nat, slot: Slot)
    requires Timely(steps)
    requires slot in Run(steps).table && slot !in Do(Run(steps), Delete(p)).table
    ensures Run(steps).table[slot].session.None?
    ensures Run(steps).table[slot].created + TTL_SECONDS < Run(steps).now
    ensures forall q :: Live(Run(steps), q) ==> Run(steps).callers[q].slot != slot
  {
    hide Run, Timely;
    RunKeeps(steps);
    var s := Run(steps);
    assert CallerInv(s, p);
    forall q | Live(s, q) ensures s.callers[q].slot != slot {
      assert CallerInv(s, q);
    }
  }

  lemma Extend(steps: seq<Step>, step: Step) returns (longer: seq<Step>)
    requires Timely(steps) && InTime(Run(steps), step)
    ensures longer == steps + [step]
    ensures Run(longer) == Do(Run(steps), step) && Timely(longer)
  {
    longer := steps + [step];
    assert longer[..|steps|] == steps;
    forall i | 0 <= i < |longer| ensures InTime(Run(longer[..i]), longer[i]) {
      assert i < |steps| ==> longer[..i] == steps[..i];
    }
  }

  lemma Start()
    ensures Timely([]) && Run([]) == Board(0, map[], map[], [])
  {
  }

  /** A request claims a key and stalls past its window. */
  lemma ClaimThenExpire(slot: Slot) returns (steps: seq<Step>)
    requires ValidKey(slot.key)
    ensures Timely(steps)
    ensures Run(steps) == Board(TTL_SECONDS + 1, map[slot := KeyRow(None, 0)], map[1 := Caller(slot, Holding(0))], [])
  {
    hide Run, Timely, ValidKey;
    Start();
    steps := Extend([], Claim(1, slot));
    steps := Extend(steps, Insert(1, 0));
    steps := Extend(steps, Tick(TTL_SECONDS + 1));
  }

  /** A request that reclaims a key from claims that never named a session. */
  lemma ReclaimedBy(steps: seq<Step>, slot: Slot, d: nat) returns (longer: seq<Step>)
    requires Timely(steps) && ValidKey(slot.key) && d !in Run(steps).callers
    requires slot in Run(steps).table ==> Run(steps).table[slot].session.None?
    ensures Timely(longer)
    ensures d in Run(longer).callers && Run(longer).callers[d] == Caller(slot, Holding(Run(longer).now))
    ensures slot in Run(longer).table && Run(longer).bindings == Run(steps).bindings && Run(steps).now <= Run(longer).now
    ensures forall p :: p in Run(steps).callers ==> p in Run(longer).callers && Run(longer).callers[p] == Run(steps).callers[p]
  {
    hide Run, Timely, ValidKey;
    longer := Extend(steps, Tick(if slot in Run(steps).table then Run(steps).table[slot].created + TTL_SECONDS + 1 else 0));
    longer := Extend(longer, Claim(d, slot));
    longer := Extend(longer, Insert(d, Run(longer).now));
    if slot in Run(steps).table {
      longer := Extend(longer, Read(d));
      longer := Extend(longer, Delete(d));
      longer := Extend(longer, Insert(d, Run(longer).now));
    }
  }

  /** The window is tight: whenever a holder is past it, the run can go on, in time, to where
      its recording binds a second session to the key. */
  lemma LateHolderCanBindTwice(steps: seq<Step>, p: nat) returns (longer: seq<Step>, a: nat, b: nat)
    requires Timely(steps) && p in Run(steps).callers && Run(steps).callers[p].phase.Holding? && !Live(Run(steps), p)
    ensures Timely(longer) && a != b
    ensures p in Run(longer).callers && Run(longer).callers[p] == Run(steps).callers[p] && !Live(Run(longer), p)
    ensures var slot, after := Run(steps).callers[p].slot, Do(Run(longer), Record(p, b));
      Binding(slot, a) in after.bindings && Binding(slot, b) in after.bindings
  {
    hide Run, Timely, ValidKey;
    var w := Run(steps);
    var slot := w.callers[p].slot;
    RunKeeps(steps);
    assert CallerInv(w, p);
    if slot in w.table && w.table[slot].session.Some? {
      longer, a, b := steps, w.table[slot].session.value, w.table[slot].session.value + 1;
      LastBinding(w.bindings, Binding(slot, b));
    } else {
      var d := UnusedNumber(w.callers.Keys);
      longer := ReclaimedBy(steps, slot, d);
      LastBinding(Run(longer).bindings, Binding(slot, 0));
      longer := Extend(longer, Record(d, 0));
      a, b := 0, 1;
      LastBinding(Run(longer).bindings, Binding(slot, 1));
    }
  }

  lemma LastBinding(bindings: seq<Binding>, last: Binding)
    ensures last in bindings + [last]
    ensures forall binding :: binding in bindings ==> binding in bindings + [last]
  {
  }

  /** And such runs exist. */
  lemma LateRecordBindsTwice(slot: Slot) returns (steps: seq<Step>, last: Step, a: nat, b: nat)
    requires ValidKey(slot.key)
    ensures Timely(steps) && !InTime(Run(steps), last) && last.Record? && a != b
    ensures Binding(slot, a) in Do(Run(steps), last).bindings && Binding(slot, b) in Do(Run(steps), last).bindings
  {
    hide Run, Timely, ValidKey;
    var claimed := ClaimThenExpire(slot);
    steps, a, b := LateHolderCanBindTwice(claimed, 1);
    last := Record(1, b);
  }
}
