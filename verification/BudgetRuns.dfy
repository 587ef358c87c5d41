/** Concurrent requests against the budget tables (crates/api/src/budgets.rs).

    A request interleaves with every other between its statements. A run is any sequence
    of steps, so a theorem about `Run` holds of every interleaving. */
module BudgetRuns {
  import opened Prelude
  import opened BudgetEngine
  import opened BudgetTables

  datatype View = View(limit: nat, spent: nat, remaining: nat, stage: Stage)

  function ViewOf(state: State): View
  {
    View(state.limit, state.spent, SaturatingSub(state.limit, state.spent), state.stage)
  }

  /** What a request remembers from its start: the ledger length and the number of limit
      changes it began at, and how often it has folded in vain. */
  datatype Begun = Begun(budget: nat, since: nat, changes: nat, tries: nat)

  /** Where a `view` or a `reconcile` stands. `Retrying` is about to load a row to fold;
      `Loaded` holds that row; `Ready` has read the ledger and holds its batch's inputs;
      `Failed` ended in an error, or died, and does nothing more.
      `seen` is the ledger length the read saw and `loadedAt` the number of limit changes
      when the row was loaded. */
  datatype Call =
    | Viewing(begun: Begun)
    | Retrying(begun: Begun)
    | Loaded(begun: Begun, row: BudgetRow, loadedAt: nat)
    | Ready(begun: Begun, row: BudgetRow, loadedAt: nat, events: seq<nat>, seen: nat)
    | Served(begun: Begun, view: View, seen: nat)
    | Failed(begun: Begun)

  datatype System = System(tables: Tables, calls: map<nat, Call>, changes: map<nat, nat>)

  datatype Step =
    | Create(budget: nat, session: nat, limit: nat)
    | Insert(rows: seq<SpendRow>)
    | SetLimit(budget: nat, limit: nat)
    | MarkDelivered(id: nat)
    | BeginView(call: nat, budget: nat)
    | BeginReconcile(call: nat, budget: nat)
    | Load(call: nat)
    | Read(call: nat)
    | Commit(call: nat)
    | Abandon(call: nat)

  function Changes(s: System, budget: nat): nat
  {
    if budget in s.changes then s.changes[budget] else 0
  }

  function Created(t: Tables, budget: nat, session: nat, limit: nat): Tables
  {
    t.(budgets := t.budgets[budget := BudgetRow(session, limit, 0, Stage.Ok, 0)])
  }

  /** `set_limit`'s own statement: the watermark is reset with the limit. */
  function Relimited(t: Tables, budget: nat, limit: nat): Tables
  {
    if budget !in t.budgets then t
    else t.(budgets := t.budgets[budget := t.budgets[budget].(limit := limit, folded := UNFOLDED)])
  }

  function Delivered(outbox: seq<SignalRow>, id: nat): (r: seq<SignalRow>)
    ensures |r| == |outbox|
    ensures forall i :: 0 <= i < |r| ==>
      r[i] == if outbox[i].id == id then outbox[i].(delivered := true) else outbox[i]
  {
    seq(|outbox|, i requires 0 <= i < |outbox| =>
      if outbox[i].id == id then outbox[i].(delivered := true) else outbox[i])
  }

  /** What `load` leads to: a row of a budget that exists, served from the cache by a
      view whose ledger has not moved. */
  function Looked(s: System, call: Call): Call
    requires call.Viewing? || call.Retrying?
  {
    var b := call.begun.budget;
    if b !in s.tables.budgets then Failed(call.begun)
    else
      var row := s.tables.budgets[b];
      if row.limit == 0 then Failed(call.begun)
      else if call.Viewing? && row.folded == Count(s.tables.ledger, b) then
        Served(call.begun, ViewOf(State(row.limit, row.spent, row.stage)), |s.tables.ledger|)
      else Loaded(call.begun, row, Changes(s, b))
  }

  /** What reading the ledger leads to: a replay that panics ends the request. */
  function Replaying(s: System, call: Call): Call
    requires call.Loaded?
  {
    var events := ReadLedger(s.tables.ledger, call.begun.budget);
    if call.row.limit > 0 && Replayed(call.row.limit, events).Some? then
      Ready(call.begun, call.row, call.loadedAt, events, |s.tables.ledger|)
    else Failed(call.begun)
  }

  function Do(s: System, step: Step): System
  {
    match step
    case Create(b, session, limit) =>
      if b in s.tables.budgets || limit == 0 then s
      else s.(tables := Created(s.tables, b, session, limit))
    case Insert(rows) =>
      s.(tables := s.tables.(ledger := InsertRows(s.tables.ledger, rows)))
    case SetLimit(b, limit) =>
      if limit == 0 then s
      else s.(tables := Relimited(s.tables, b, limit), changes := s.changes[b := Changes(s, b) + 1])
    case MarkDelivered(id) =>
      s.(tables := s.tables.(outbox := Delivered(s.tables.outbox, id)))
    case BeginView(c, b) =>
      if c in s.calls then s
      else s.(calls := s.calls[c := Viewing(Begun(b, |s.tables.ledger|, Changes(s, b), 0))])
    case BeginReconcile(c, b) =>
      if c in s.calls then s
      else s.(calls := s.calls[c := Retrying(Begun(b, |s.tables.ledger|, Changes(s, b), 0))])
    case Load(c) =>
      if c !in s.calls || !(s.calls[c].Viewing? || s.calls[c].Retrying?) then s
      else s.(calls := s.calls[c := Looked(s, s.calls[c])])
    case Read(c) =>
      if c !in s.calls || !s.calls[c].Loaded? then s
      else s.(calls := s.calls[c := Replaying(s, s.calls[c])])
    case Commit(c) =>
      if c !in s.calls || !s.calls[c].Ready? then s
      else Committed(s, c, s.calls[c])
    case Abandon(c) =>
      if c !in s.calls || s.calls[c].Served? then s
      else s.(calls := s.calls[c := Failed(s.calls[c].begun)])
  }

  /** The batch, and what its last statement's returned row tells the fold. */
  function Committed(s: System, c: nat, call: Call): System
    requires call.Ready?
  {
    if call.row.limit == 0 || Replayed(call.row.limit, call.events).None? then s
    else
      var after := ExecBatch(s.tables, WriteBack(call.begun.budget, call.row, call.events));
      var next := if Matches(s.tables, call.begun.budget, call.row.limit)
        then Served(call.begun, ViewOf(Replayed(call.row.limit, call.events).value), call.seen)
        else Retrying(call.begun.(tries := call.begun.tries + 1));
      s.(tables := after, calls := s.calls[c := next])
  }

  function Initial(): System { System(Tables(map[], [], [], 0), map[], map[]) }

  function Run(steps: seq<Step>): System
  {
    if steps == [] then Initial() else Do(Run(steps[..|steps| - 1]), steps[|steps| - 1])
  }

  // ── The invariant ──

  /** The row holds the replay, under its own limit, of the first `n` rows of the ledger. */
  predicate CacheOf(row: BudgetRow, ledger: seq<SpendRow>, budget: nat, n: nat)
  {
    && n <= |ledger|
    && row.limit > 0
    && row.folded == Count(ledger[..n], budget)
    && Holds(row.limit, Spent(ledger[..n], budget))
    && State(row.limit, row.spent, row.stage) == StateOf(row.limit, Spent(ledger[..n], budget))
  }

  ghost predicate RowInv(row: BudgetRow, ledger: seq<SpendRow>, budget: nat)
  {
    && row.limit > 0
    && (row.folded == UNFOLDED || exists n: nat :: CacheOf(row, ledger, budget, n))
  }

  ghost predicate OutboxInv(t: Tables)
  {
    forall row :: row in t.outbox ==>
      && row.id < t.nextSignal
      && row.budget in t.budgets
      && SignalOrdinal(row.signal) <= StageOrdinal(t.budgets[row.budget].stage)
  }

  ghost predicate BegunInv(s: System, begun: Begun)
  {
    && begun.since <= |s.tables.ledger|
    && begun.changes + begun.tries <= Changes(s, begun.budget)
  }

  /** A loaded row's limit is still the budget's unless the limit has changed since. */
  ghost predicate LoadedInv(s: System, begun: Begun, row: BudgetRow, loadedAt: nat)
  {
    && row.limit > 0
    && begun.changes + begun.tries <= loadedAt <= Changes(s, begun.budget)
    && (loadedAt == Changes(s, begun.budget) ==> Matches(s.tables, begun.budget, row.limit))
  }

  ghost predicate CallInv(s: System, call: Call)
  {
    && BegunInv(s, call.begun)
    && match call
       case Loaded(begun, row, loadedAt) => LoadedInv(s, begun, row, loadedAt)
       case Ready(begun, row, loadedAt, events, seen) =>
         && LoadedInv(s, begun, row, loadedAt)
         && begun.since <= seen <= |s.tables.ledger|
         && |events| == Count(s.tables.ledger[..seen], begun.budget)
         && Sum(events) == Spent(s.tables.ledger[..seen], begun.budget)
         && Replayed(row.limit, events).Some?
       case Served(begun, view, seen) =>
         && begun.since <= seen <= |s.tables.ledger|
         && view.limit > 0
         && view == ViewOf(StateOf(view.limit, Spent(s.tables.ledger[..seen], begun.budget)))
       case _ => true
  }

  ghost predicate Inv(s: System)
  {
    && (forall b :: b in s.tables.budgets ==> RowInv(s.tables.budgets[b], s.tables.ledger, b))
    && OutboxInv(s.tables)
    && (forall c :: c in s.calls ==> CallInv(s, s.calls[c]))
  }

  /** Appending to the ledger disturbs nothing: caches and reads are of prefixes. */
  lemma GrowthKeepsRow(row: BudgetRow, before: seq<SpendRow>, after: seq<SpendRow>, budget: nat)
    requires RowInv(row, before, budget) && before <= after
    ensures RowInv(row, after, budget)
  {
    if row.folded != UNFOLDED {
      var n: nat :| CacheOf(row, before, budget, n);
      assert before[..n] == after[..n];
      assert CacheOf(row, after, budget, n);
    }
  }

  lemma InsertKeepsInv(s: System, rows: seq<SpendRow>)
    requires Inv(s)
    ensures Inv(Do(s, Insert(rows)))
  {
    var after := Do(s, Insert(rows));
    var l, l' := s.tables.ledger, after.tables.ledger;
    forall b | b in after.tables.budgets ensures RowInv(after.tables.budgets[b], l', b) {
      GrowthKeepsRow(s.tables.budgets[b], l, l', b);
    }
    forall c | c in after.calls ensures CallInv(after, after.calls[c]) {
      assert CallInv(s, s.calls[c]);
      if s.calls[c].Ready? || s.calls[c].Served? {
        assert l[..s.calls[c].seen] == l'[..s.calls[c].seen];
      }
    }
  }

  lemma SetLimitKeepsInv(s: System, budget: nat, limit: nat)
    requires Inv(s)
    ensures Inv(Do(s, SetLimit(budget, limit)))
  {
    hide ExecBatch, WriteBack, ReadLedger, Replayed, Count, Spent, Sum;
    var after := Do(s, SetLimit(budget, limit));
    forall b | b in after.tables.budgets ensures RowInv(after.tables.budgets[b], after.tables.ledger, b) {
      assert RowInv(s.tables.budgets[b], s.tables.ledger, b);
    }
    forall c | c in after.calls ensures CallInv(after, after.calls[c]) {
      assert CallInv(s, s.calls[c]);
    }
  }

  lemma LookKeepsInv(s: System, c: nat)
    requires Inv(s)
    ensures Inv(Do(s, Load(c)))
  {
    hide ExecBatch, WriteBack, ReadLedger, Replayed, Count, Spent, Sum;
    if c in s.calls && (s.calls[c].Viewing? || s.calls[c].Retrying?) {
      var call := s.calls[c];
      var b, l := call.begun.budget, s.tables.ledger;
      assert CallInv(s, call);
      if Looked(s, call).Served? {
        var row := s.tables.budgets[b];
        assert RowInv(row, l, b);
        var n: nat :| CacheOf(row, l, b, n);
        UnmovedCountUnmovedTotal(l, n, b);
        assert l[..|l|] == l;
      }
    }
  }

  lemma ReadKeepsInv(s: System, c: nat)
    requires Inv(s)
    ensures Inv(Do(s, Read(c)))
  {
    hide ExecBatch, WriteBack, ReadLedger, Replayed, Count, Spent, Sum;
    if c in s.calls && s.calls[c].Loaded? {
      assert CallInv(s, s.calls[c]);
      ReadLedgerIsComplete(s.tables.ledger, s.calls[c].begun.budget);
      assert s.tables.ledger[..|s.tables.ledger|] == s.tables.ledger;
    }
  }

  /** A fold that wins its race. */
  lemma WonCommit(s: System, call: Call)
    requires Inv(s) && call.Ready? && CallInv(s, call)
    requires Matches(s.tables, call.begun.budget, call.row.limit)
    ensures var after := ExecBatch(s.tables, WriteBack(call.begun.budget, call.row, call.events));
      && OutboxInv(after)
      && after.ledger == s.tables.ledger
      && after.budgets.Keys == s.tables.budgets.Keys
      && (forall b :: b in after.budgets ==>
        && RowInv(after.budgets[b], after.ledger, b)
        && after.budgets[b].limit == s.tables.budgets[b].limit)
  {
    var b, after := call.begun.budget, ExecBatch(s.tables, WriteBack(call.begun.budget, call.row, call.events));
    WonFold(s.tables, b, call.row, call.events);
    ReplayIsTheTotal(call.row.limit, call.events);
    assert CacheOf(after.budgets[b], after.ledger, b, call.seen);
    forall d | d in after.budgets
      ensures RowInv(after.budgets[d], after.ledger, d)
    {
      if d != b {
        assert RowInv(s.tables.budgets[d], s.tables.ledger, d);
      }
    }
  }

  lemma CommitKeepsInv(s: System, c: nat)
    requires Inv(s)
    ensures Inv(Do(s, Commit(c)))
  {
    hide ExecBatch, WriteBack, Crossings, Replayed, Count, Spent, Sum;
    if c in s.calls && s.calls[c].Ready? {
      var call := s.calls[c];
      var after := Do(s, Commit(c));
      assert CallInv(s, call);
      if Matches(s.tables, call.begun.budget, call.row.limit) {
        WonCommit(s, call);
        ReplayIsTheTotal(call.row.limit, call.events);
      } else {
        LostFold(s.tables, call.begun.budget, call.row, call.events);
      }
      forall d | d in after.calls ensures CallInv(after, after.calls[d]) {
        if d != c {
          assert CallInv(s, s.calls[d]);
        }
      }
    }
  }

  lemma StepKeepsInv(s: System, step: Step)
    requires Inv(s)
    ensures Inv(Do(s, step))
  {
    hide ExecBatch, WriteBack, Crossings, Replayed, Sum;
    match step
    case Insert(rows) => InsertKeepsInv(s, rows);
    case SetLimit(b, limit) => SetLimitKeepsInv(s, b, limit);
    case Load(c) => LookKeepsInv(s, c);
    case Read(c) => ReadKeepsInv(s, c);
    case Commit(c) => CommitKeepsInv(s, c);
    case Create(b, session, limit) =>
      var after := Do(s, step);
      if after != s {
        assert CacheOf(after.tables.budgets[b], after.tables.ledger, b, 0);
        forall c | c in after.calls ensures CallInv(after, after.calls[c]) {
          assert CallInv(s, s.calls[c]);
        }
      }
    case MarkDelivered(id) =>
      var after := Do(s, step);
      forall c | c in after.calls ensures CallInv(after, after.calls[c]) {
        assert CallInv(s, s.calls[c]);
      }
    case _ =>
      var after := Do(s, step);
      forall c | c in after.calls ensures CallInv(after, after.calls[c]) {
        if c in s.calls {
          assert CallInv(s, s.calls[c]);
        }
      }
  }

  lemma {:induction false} RunKeepsInv(steps: seq<Step>)
    ensures Inv(Run(steps))
  {
    if steps != [] {
      RunKeepsInv(steps[..|steps| - 1]);
      StepKeepsInv(Run(steps[..|steps| - 1]), steps[|steps| - 1]);
    }
  }

  // ── What every interleaving guarantees ──

  /** A watermark that covers the ledger certifies the cache: it is what a fresh replay of
      the whole ledger under the present limit would say. */
  lemma CertifiedCacheIsTheReplay(steps: seq<Step>, budget: nat)
    requires budget in Run(steps).tables.budgets
    requires Run(steps).tables.budgets[budget].folded == Count(Run(steps).tables.ledger, budget)
    ensures var t := Run(steps).tables;
      var row := t.budgets[budget];
      row.limit > 0 &&
      Replayed(row.limit, ReadLedger(t.ledger, budget)) == Some(State(row.limit, row.spent, row.stage))
  {
    RunKeepsInv(steps);
    var t := Run(steps).tables;
    var row := t.budgets[budget];
    assert RowInv(row, t.ledger, budget);
    var n: nat :| CacheOf(row, t.ledger, budget, n);
    UnmovedCountUnmovedTotal(t.ledger, n, budget);
    ReadLedgerIsComplete(t.ledger, budget);
    ReplayIsTheTotal(row.limit, ReadLedger(t.ledger, budget));
  }

  /** A view is the replay of the first `seen` ledger rows under its own limit, that limit
      is the budget's now, and those rows are all there were when the call began. */
  ghost predicate Answers(s: System, call: Call)
    requires call.Served?
  {
    var b := call.begun.budget;
    && b in s.tables.budgets && s.tables.budgets[b].limit == call.view.limit > 0
    && call.begun.since <= call.seen <= |s.tables.ledger|
    && var replay := Replayed(call.view.limit, ReadLedger(s.tables.ledger[..call.seen], b));
       replay.Some? && call.view == ViewOf(replay.value)
  }

  lemma CommittedViewAnswers(s: System, c: nat)
    requires Inv(s) && c in s.calls && s.calls[c].Ready?
    requires Do(s, Commit(c)).calls[c].Served?
    ensures Answers(s, Do(s, Commit(c)).calls[c])
  {
    hide ExecBatch, WriteBack, ReadLedger, Replayed, Count, Spent, Sum;
    var was := s.calls[c];
    var b, seen := was.begun.budget, s.tables.ledger[..was.seen];
    assert CallInv(s, was);
    ReadLedgerIsComplete(seen, b);
    ReplayIsTheTotal(was.row.limit, was.events);
    ReplayIsTheTotal(was.row.limit, ReadLedger(seen, b));
  }

  lemma CachedViewAnswers(s: System, c: nat)
    requires Inv(s) && c in s.calls && s.calls[c].Viewing?
    requires Looked(s, s.calls[c]).Served?
    ensures Answers(s, Looked(s, s.calls[c]))
  {
    hide ReadLedger, Replayed, Sum;
    var l, b := s.tables.ledger, s.calls[c].begun.budget;
    var row := s.tables.budgets[b];
    assert RowInv(row, l, b) && CallInv(s, s.calls[c]);
    var n: nat :| CacheOf(row, l, b, n);
    UnmovedCountUnmovedTotal(l, n, b);
    assert l[..|l|] == l;
    ReadLedgerIsComplete(l, b);
    ReplayIsTheTotal(row.limit, ReadLedger(l, b));
  }

  /** Every view served is the replay of a ledger holding every event there was when the
      call began, under the limit in force at the statement that answered it; and the call
      has folded in vain at most once per change of that limit since it began. */
  lemma ServedViewIsAReplay(steps: seq<Step>, step: Step, c: nat)
    requires c in Do(Run(steps), step).calls && Do(Run(steps), step).calls[c].Served?
    requires c in Run(steps).calls ==> !Run(steps).calls[c].Served?
    ensures Answers(Run(steps), Do(Run(steps), step).calls[c])
    ensures var begun := Do(Run(steps), step).calls[c].begun;
      begun.tries <= Changes(Run(steps), begun.budget) - begun.changes
  {
    hide ExecBatch, WriteBack, ReadLedger, Replayed, Count, Spent, Sum;
    var s := Run(steps);
    RunKeepsInv(steps);
    assert c in s.calls;
    assert CallInv(s, s.calls[c]);
    if step.Commit? {
      CommittedViewAnswers(s, c);
    } else {
      assert step == Load(c);
      CachedViewAnswers(s, c);
    }
  }

  /** No signal waits, or was sent, for a threshold above the stage on record. */
  lemma NoSignalAboveTheStage(steps: seq<Step>, row: SignalRow)
    requires row in Run(steps).tables.outbox
    ensures row.budget in Run(steps).tables.budgets
    ensures SignalOrdinal(row.signal) <= StageOrdinal(Run(steps).tables.budgets[row.budget].stage)
  {
    RunKeepsInv(steps);
  }
}
