/** Overlapping and failing deliveries of the outbox, interleaved with every budget request.

    A delivery reads the pending rows once and takes them in turn; between any two of its
    calls other deliveries run, folds prune and announce, and it may fail and be gone. */
module DeliveryRuns {
  import opened Prelude
  import opened BudgetEngine
  import opened BudgetTables
  import opened BudgetRuns
  import opened Delivery
  import opened PauseSignal

  /** A delivery: the rows still ahead of it and how far it is with the first: whether it has
      read the session as active and is to pause it, or knows it paused, and has sent the command. */
  datatype Pass = Pass(rows: seq<SignalRow>, active: bool, paused: bool, sent: bool)

  datatype Event = PausedFor(id: nat) | Accepted(id: nat, signal: Signal)

  datatype Desk = Desk(books: System, sessions: map<nat, SessionState>, passes: map<nat, Pass>, log: seq<Event>)

  datatype DeskStep =
    | Books(step: Step)
    | Start(pass: nat, rows: seq<SignalRow>)
    | MoveSession(session: nat, state: SessionState)
    | ReadSession(pass: nat)
    | PauseSession(pass: nat)
    | SendCommand(pass: nat)
    | Mark(pass: nat)
    | Fail(pass: nat)

  function Perform(d: Desk, step: DeskStep): Desk
  {
    match step
    case Books(s) => if s.MarkDelivered? then d else d.(books := Do(d.books, s))
    case Start(p, rows) =>
      if p in d.passes || !Lists(rows, d.books.tables.outbox) then d
      else d.(passes := d.passes[p := Pass(rows, false, false, false)])
    case MoveSession(session, state) => d.(sessions := d.sessions[session := state])
    case ReadSession(p) =>
      if p !in d.passes || d.passes[p].rows == [] || d.passes[p].rows[0].signal != Signal.Pause
        || d.passes[p].active || d.passes[p].paused then d
      else
        var pass := d.passes[p];
        var row := pass.rows[0];
        if row.session !in d.sessions || d.sessions[row.session] !in {Active, Paused} then d.(passes := d.passes - {p})
        else if d.sessions[row.session] == Active then d.(passes := d.passes[p := pass.(active := true)])
        else d.(passes := d.passes[p := pass.(paused := true)], log := d.log + [PausedFor(row.id)])
    case PauseSession(p) =>
      if p !in d.passes || d.passes[p].rows == [] || !d.passes[p].active then d
      else
        var pass := d.passes[p];
        var row := pass.rows[0];
        d.(sessions := if row.session in d.sessions then d.sessions[row.session := Paused] else d.sessions,
           passes := d.passes[p := pass.(active := false, paused := true)],
           log := d.log + [PausedFor(row.id)])
    case SendCommand(p) =>
      if p !in d.passes || d.passes[p].rows == [] then d
      else
        var pass := d.passes[p];
        var row := pass.rows[0];
        if pass.sent || (row.signal == Signal.Pause && !pass.paused) then d
        else d.(passes := d.passes[p := pass.(sent := true)], log := d.log + [Accepted(row.id, row.signal)])
    case Mark(p) =>
      if p !in d.passes || d.passes[p].rows == [] || !d.passes[p].sent then d
      else
        var pass := d.passes[p];
        d.(books := Do(d.books, MarkDelivered(pass.rows[0].id)),
           passes := d.passes[p := Pass(pass.rows[1..], false, false, false)])
    case Fail(p) => d.(passes := d.passes - {p})
  }

  function Serve(steps: seq<DeskStep>): Desk
  {
    if steps == [] then Desk(Initial(), map[], map[], []) else Perform(Serve(steps[..|steps| - 1]), steps[|steps| - 1])
  }

  /** The room accepted this signal's command, and if it is a pause the session had been
      paused before that. */
  ghost predicate ProperlySent(log: seq<Event>, id: nat, signal: Signal)
  {
    exists k ::
      && 0 <= k < |log| && log[k] == Accepted(id, signal)
      && (signal == Signal.Pause ==> PausedBefore(log, id, k))
  }

  ghost predicate PausedBefore(log: seq<Event>, id: nat, k: nat)
  {
    exists j :: 0 <= j < k && j < |log| && log[j] == PausedFor(id)
  }

  predicate SameSignal(a: SignalRow, b: SignalRow)
  {
    a.id == b.id ==> a.signal == b.signal && a.budget == b.budget && a.session == b.session
  }

  ghost predicate PassInv(d: Desk, pass: Pass)
  {
    && (forall row :: row in pass.rows ==> row.id < d.books.tables.nextSignal)
    && (forall row, held :: row in pass.rows && held in d.books.tables.outbox ==> SameSignal(row, held))
    && (pass.rows != [] && pass.active ==> pass.rows[0].session in d.sessions)
    && (pass.rows != [] && pass.paused ==> PausedBefore(d.log, pass.rows[0].id, |d.log|))
    && (pass.rows != [] && pass.sent ==> ProperlySent(d.log, pass.rows[0].id, pass.rows[0].signal))
  }

  ghost predicate DeskInv(d: Desk)
  {
    && Inv(d.books)
    && (forall a, b :: a in d.books.tables.outbox && b in d.books.tables.outbox ==> SameSignal(a, b))
    && (forall row :: row in d.books.tables.outbox && row.delivered ==> ProperlySent(d.log, row.id, row.signal))
    && (forall p :: p in d.passes ==> PassInv(d, d.passes[p]))
  }

  lemma LogGrows(before: seq<Event>, after: seq<Event>)
    requires before <= after
    ensures forall id, k: nat :: k <= |before| && PausedBefore(before, id, k) ==> PausedBefore(after, id, k)
    ensures forall id :: PausedBefore(before, id, |before|) ==> PausedBefore(after, id, |after|)
    ensures forall id, signal :: ProperlySent(before, id, signal) ==> ProperlySent(after, id, signal)
  {
    forall id, signal | ProperlySent(before, id, signal) ensures ProperlySent(after, id, signal) {
      var k :| 0 <= k < |before| && before[k] == Accepted(id, signal)
        && (signal == Signal.Pause ==> PausedBefore(before, id, k));
      assert after[k] == before[k];
    }
  }

  /** A budget step leaves each outbox row as it was, or drops it, or adds rows nobody has
      seen and nobody has delivered. */
  ghost predicate OutboxMoves(before: Tables, after: Tables)
  {
    && before.nextSignal <= after.nextSignal
    && (forall row :: row in after.outbox && row !in before.outbox ==>
         && !row.delivered && before.nextSignal <= row.id < after.nextSignal)
    && (forall a, b :: a in after.outbox && b in after.outbox && a !in before.outbox && b !in before.outbox
         ==> SameSignal(a, b))
  }

  lemma {:induction false} AnnouncedDiffer(t: Tables, budget: nat, session: nat, signals: seq<Signal>)
    ensures var after := Announced(t, budget, session, signals);
      forall i, j :: |t.outbox| <= i < j < |after.outbox| ==> after.outbox[i].id < after.outbox[j].id < after.nextSignal
    ensures t.outbox <= Announced(t, budget, session, signals).outbox
  {
    if signals != [] {
      AnnouncedDiffer(t, budget, session, signals[..|signals| - 1]);
      AnnouncedAdds(t, budget, session, signals[..|signals| - 1]);
      AnnouncedIds(t, budget, session, signals[..|signals| - 1]);
    }
  }

  lemma {:induction false} AnnouncedIds(t: Tables, budget: nat, session: nat, signals: seq<Signal>)
    ensures var after := Announced(t, budget, session, signals);
      t.outbox <= after.outbox
      && forall i :: |t.outbox| <= i < |after.outbox| ==> after.outbox[i].id < after.nextSignal
  {
    if signals != [] {
      AnnouncedIds(t, budget, session, signals[..|signals| - 1]);
    }
  }

  lemma NewRowsDiffer(t: Tables, budget: nat, session: nat, signals: seq<Signal>)
    ensures var after := Announced(t, budget, session, signals);
      forall a, b :: a in after.outbox && b in after.outbox && a !in t.outbox && b !in t.outbox ==> SameSignal(a, b)
  {
    var after := Announced(t, budget, session, signals);
    AnnouncedDiffer(t, budget, session, signals);
    forall a, b | a in after.outbox && b in after.outbox && a !in t.outbox && b !in t.outbox
      ensures SameSignal(a, b)
    {
      var i :| 0 <= i < |after.outbox| && after.outbox[i] == a;
      var j :| 0 <= j < |after.outbox| && after.outbox[j] == b;
      assert forall k :: 0 <= k < |t.outbox| ==> after.outbox[k] == t.outbox[k];
      assert i >= |t.outbox| && j >= |t.outbox|;
    }
  }

  lemma CommitMovesOutbox(s: System, c: nat)
    ensures OutboxMoves(s.tables, Do(s, Commit(c)).tables)
  {
    hide Crossings, Replayed, Sum;
    if c in s.calls && s.calls[c].Ready? {
      var call := s.calls[c];
      if call.row.limit > 0 && Replayed(call.row.limit, call.events).Some? {
        CommitMoves(s.tables, call.begun.budget, call.row, call.events);
      }
    }
  }

  lemma CommitMoves(t: Tables, budget: nat, row: BudgetRow, events: seq<nat>)
    requires row.limit > 0 && Replayed(row.limit, events).Some?
    ensures OutboxMoves(t, ExecBatch(t, WriteBack(budget, row, events)))
  {
    hide ExecBatch, WriteBack, Crossings, Replayed, Announced;
    var signals := Crossings(row.limit, events, row.stage);
    WriteBackIsAllOrNothing(t, budget, row, events);
    AnnouncedAdds(t, budget, row.session, signals);
    NewRowsDiffer(t, budget, row.session, signals);
  }

  lemma BooksMove(s: System, step: Step)
    requires !step.MarkDelivered?
    ensures OutboxMoves(s.tables, Do(s, step).tables)
  {
    hide ExecBatch, WriteBack;
    if step.Commit? {
      CommitMovesOutbox(s, step.call);
    }
  }

  lemma BooksKeepInv(d: Desk, step: Step)
    requires DeskInv(d)
    ensures DeskInv(Perform(d, Books(step)))
  {
    hide Inv, ProperlySent, PausedBefore, Do;
    if !step.MarkDelivered? {
      var after := Perform(d, Books(step));
      StepKeepsInv(d.books, step);
      BooksMove(d.books, step);
      IdsBelow(d.books);
      forall p | p in after.passes ensures PassInv(after, after.passes[p]) {
        assert PassInv(d, d.passes[p]);
      }
    }
  }

  lemma IdsBelow(s: System)
    requires Inv(s)
    ensures forall row :: row in s.tables.outbox ==> row.id < s.tables.nextSignal
  {
  }

  lemma MarkKeepsInv(d: Desk, p: nat)
    requires DeskInv(d)
    ensures DeskInv(Perform(d, Mark(p)))
  {
    hide ProperlySent, PausedBefore, Inv, Delivered;
    if p in d.passes && d.passes[p].rows != [] && d.passes[p].sent {
      var after := Perform(d, Mark(p));
      var head := d.passes[p].rows[0];
      assert PassInv(d, d.passes[p]);
      StepKeepsInv(d.books, MarkDelivered(head.id));
      MarkedFrom(d.books.tables.outbox, head.id);
      MarkKeepsRows(d, head);
      forall q | q in after.passes ensures PassInv(after, after.passes[q]) {
        assert PassInv(d, d.passes[q]);
        assert forall row :: row in after.passes[q].rows ==> row in d.passes[q].rows;
      }
    }
  }

  /** Marking the row at the head of a pass, once sent, leaves only delivered rows that were
      properly sent. */
  lemma MarkKeepsRows(d: Desk, head: SignalRow)
    requires forall held :: held in d.books.tables.outbox ==> SameSignal(head, held)
    requires forall row :: row in d.books.tables.outbox && row.delivered ==> ProperlySent(d.log, row.id, row.signal)
    requires ProperlySent(d.log, head.id, head.signal)
    ensures forall row ::
      row in Delivered(d.books.tables.outbox, head.id) && row.delivered
      ==> ProperlySent(d.log, row.id, row.signal)
  {
    hide ProperlySent, Delivered;
    MarkedFrom(d.books.tables.outbox, head.id);
    forall row | row in Delivered(d.books.tables.outbox, head.id) && row.delivered
      ensures ProperlySent(d.log, row.id, row.signal)
    {
      var held :| held in d.books.tables.outbox
        && row == if held.id == head.id then held.(delivered := true) else held;
      assert SameSignal(head, held);
    }
  }

  lemma MarkedFrom(outbox: seq<SignalRow>, id: nat)
    ensures forall row :: row in Delivered(outbox, id) ==>
      exists held :: held in outbox && row == if held.id == id then held.(delivered := true) else held
  {
    forall row | row in Delivered(outbox, id)
      ensures exists held :: held in outbox && row == if held.id == id then held.(delivered := true) else held
    {
      var i :| 0 <= i < |outbox| && Delivered(outbox, id)[i] == row;
      assert outbox[i] in outbox;
    }
  }

  lemma StartKeepsInv(d: Desk, p: nat, rows: seq<SignalRow>)
    requires DeskInv(d)
    ensures DeskInv(Perform(d, Start(p, rows)))
  {
    IdsBelow(d.books);
    hide Inv, ProperlySent, PausedBefore, Pending;
    var after := Perform(d, Start(p, rows));
    if after != d {
      ListedRows(d.books.tables.outbox, rows);
    }
    forall q | q in after.passes ensures PassInv(after, after.passes[q]) {
      if q in d.passes {
        assert PassInv(d, d.passes[q]);
      }
    }
  }

  lemma ListedRows(outbox: seq<SignalRow>, rows: seq<SignalRow>)
    requires Lists(rows, outbox)
    ensures forall row :: row in rows ==> row in outbox && !row.delivered
  {
    hide Pending;
    PendingRows(outbox);
    forall row | row in rows ensures row in Pending(outbox) {
      assert row in multiset(rows);
    }
  }

  lemma MoveKeepsInv(d: Desk, session: nat, state: SessionState)
    requires DeskInv(d)
    ensures DeskInv(Perform(d, MoveSession(session, state)))
  {
    hide Inv, ProperlySent, PausedBefore;
    var after := Perform(d, MoveSession(session, state));
    forall q | q in after.passes ensures PassInv(after, after.passes[q]) {
      assert PassInv(d, d.passes[q]);
    }
  }

  lemma ReadKeepsInv(d: Desk, p: nat)
    requires DeskInv(d)
    ensures DeskInv(Perform(d, ReadSession(p)))
  {
    var after := Perform(d, ReadSession(p));
    LogGrows(d.log, after.log);
    hide Inv, ProperlySent;
    if |after.log| > |d.log| {
      var head := d.passes[p].rows[0];
      assert after.log[|d.log|] == PausedFor(head.id);
      assert PausedBefore(after.log, head.id, |after.log|);
    }
    forall q | q in after.passes ensures PassInv(after, after.passes[q]) {
      assert PassInv(d, d.passes[q]);
    }
  }

  lemma PauseKeepsInv(d: Desk, p: nat)
    requires DeskInv(d)
    ensures DeskInv(Perform(d, PauseSession(p)))
  {
    var after := Perform(d, PauseSession(p));
    if after != d && p in d.passes && d.passes[p].rows != [] && d.passes[p].active {
      LogGrows(d.log, after.log);
      hide Inv, ProperlySent;
      var head := d.passes[p].rows[0];
      assert after.log[|d.log|] == PausedFor(head.id);
      assert PausedBefore(after.log, head.id, |after.log|);
      forall q | q in after.passes ensures PassInv(after, after.passes[q]) {
        assert PassInv(d, d.passes[q]);
      }
    }
  }

  lemma SendKeepsInv(d: Desk, p: nat)
    requires DeskInv(d)
    ensures DeskInv(Perform(d, SendCommand(p)))
  {
    var after := Perform(d, SendCommand(p));
    if |after.log| > |d.log| {
      LogGrows(d.log, after.log);
      hide Inv;
      var head := d.passes[p].rows[0];
      assert PassInv(d, d.passes[p]);
      assert after.log[|d.log|] == Accepted(head.id, head.signal);
      assert ProperlySent(after.log, head.id, head.signal);
      hide ProperlySent, PausedBefore;
      forall q | q in after.passes ensures PassInv(after, after.passes[q]) {
        assert PassInv(d, d.passes[q]);
      }
    }
  }

  lemma {:induction false} ServeKeepsInv(steps: seq<DeskStep>)
    ensures DeskInv(Serve(steps))
  {
    if steps != [] {
      var d, step := Serve(steps[..|steps| - 1]), steps[|steps| - 1];
      ServeKeepsInv(steps[..|steps| - 1]);
      match step
      case Books(s) => BooksKeepInv(d, s);
      case Start(p, rows) => StartKeepsInv(d, p, rows);
      case MoveSession(session, state) => MoveKeepsInv(d, session, state);
      case ReadSession(p) => ReadKeepsInv(d, p);
      case PauseSession(p) => PauseKeepsInv(d, p);
      case SendCommand(p) => SendKeepsInv(d, p);
      case Mark(p) => MarkKeepsInv(d, p);
      case Fail(p) =>
        assert forall q :: q in d.passes ==> PassInv(d, d.passes[q]);
    }
  }

  // ── What every interleaving guarantees ──

  /** A signal on record as delivered was accepted by its room, and if it is a pause, its
      session had been paused first. */
  lemma DeliveredWasSent(steps: seq<DeskStep>, row: SignalRow)
    requires row in Serve(steps).books.tables.outbox && row.delivered
    ensures ProperlySent(Serve(steps).log, row.id, row.signal)
  {
    ServeKeepsInv(steps);
  }

  /** Whenever a pause is noted as landed, its session is paused. */
  lemma PausesLand(steps: seq<DeskStep>, step: DeskStep, p: nat)
    requires step == ReadSession(p) || step == PauseSession(p)
    requires |Perform(Serve(steps), step).log| > |Serve(steps).log|
    ensures var d, after := Serve(steps), Perform(Serve(steps), step);
      && p in d.passes && d.passes[p].rows != []
      && var row := d.passes[p].rows[0];
         && after.log == d.log + [PausedFor(row.id)]
         && row.session in after.sessions && after.sessions[row.session] == Paused
         && (step.PauseSession? || after.sessions == d.sessions)
  {
    hide ProperlySent, PausedBefore, Serve;
    ServeKeepsInv(steps);
    var d := Serve(steps);
    assert PassInv(d, d.passes[p]);
  }

  // ── Sessions that have gone elsewhere ──

  /** A delivery that has read the session as active and has its pause still to write. */
  predicate AboutToPause(d: Desk, p: nat, session: nat)
  {
    p in d.passes && d.passes[p].active && d.passes[p].rows != [] && d.passes[p].rows[0].session == session
  }

  /** The session is in a state no pause is accepted from, and no delivery is about to write one. */
  ghost predicate OutOfReach(d: Desk, session: nat, state: SessionState)
  {
    && session in d.sessions && d.sessions[session] == state && state !in {Active, Paused}
    && forall p :: !AboutToPause(d, p, session)
  }

  predicate NotMoved(more: seq<DeskStep>, session: nat)
  {
    forall step :: step in more ==> !(step.MoveSession? && step.session == session)
  }

  lemma StepKeepsOutOfReach(d: Desk, step: DeskStep, session: nat, state: SessionState)
    requires OutOfReach(d, session, state) && !(step.MoveSession? && step.session == session)
    ensures OutOfReach(Perform(d, step), session, state)
  {
    hide Do, Lists;
    var after := Perform(d, step);
    forall p ensures !AboutToPause(after, p, session) {
      assert !AboutToPause(d, p, session);
    }
    if step.PauseSession? { assert !AboutToPause(d, step.pass, session); }
  }

  lemma {:induction false} StaysOutOfReach(steps: seq<DeskStep>, more: seq<DeskStep>, session: nat, state: SessionState)
    requires OutOfReach(Serve(steps), session, state) && NotMoved(more, session)
    ensures OutOfReach(Serve(steps + more), session, state)
  {
    hide Perform, OutOfReach;
    if more == [] {
      assert steps + more == steps;
    } else {
      StaysOutOfReach(steps, more[..|more| - 1], session, state);
      assert (steps + more)[..|steps + more| - 1] == steps + more[..|more| - 1];
      assert more[|more| - 1] in more;
      StepKeepsOutOfReach(Serve(steps + more[..|more| - 1]), more[|more| - 1], session, state);
    }
  }

  /** A session that is neither active nor paused stays where it is under every continuation in
      which nothing but deliveries and budget requests happens to it, exactly if no delivery has
      read it as active and has yet to write its pause. */
  lemma SessionStaysExactlyWhenNoPauseIsDue(steps: seq<DeskStep>, session: nat)
    requires session in Serve(steps).sessions && Serve(steps).sessions[session] !in {Active, Paused}
    ensures (forall more :: NotMoved(more, session) ==> StandsAs(steps + more, session, Serve(steps).sessions[session]))
       <==> forall p :: !AboutToPause(Serve(steps), p, session)
  {
    hide Serve, AboutToPause, OutOfReach, StandsAs;
    var d := Serve(steps);
    var state := d.sessions[session];
    if p :| AboutToPause(d, p, session) {
      PauseTakesBack(d, p, session);
      ThenPerform(steps, PauseSession(p));
      assert NotMoved([PauseSession(p)], session);
      assert !StandsAs(steps + [PauseSession(p)], session, state) by { TakenBack(steps + [PauseSession(p)], session, state); }
    } else {
      assert OutOfReach(d, session, state) by { NobodyReaches(d, session); }
      forall more | NotMoved(more, session) ensures StandsAs(steps + more, session, state) {
        StaysOutOfReach(steps, more, session, state);
        OutOfReachStands(steps + more, session, state);
      }
    }
  }

  predicate StandsAs(steps: seq<DeskStep>, session: nat, state: SessionState)
  {
    session in Serve(steps).sessions && Serve(steps).sessions[session] == state
  }

  lemma PauseTakesBack(d: Desk, p: nat, session: nat)
    requires AboutToPause(d, p, session) && session in d.sessions
    ensures Perform(d, PauseSession(p)).sessions == d.sessions[session := Paused]
  {
  }

  lemma TakenBack(steps: seq<DeskStep>, session: nat, state: SessionState)
    requires session in Serve(steps).sessions && Serve(steps).sessions[session] == Paused != state
    ensures !StandsAs(steps, session, state)
  {
  }

  lemma NobodyReaches(d: Desk, session: nat)
    requires session in d.sessions && d.sessions[session] !in {Active, Paused} && forall p :: !AboutToPause(d, p, session)
    ensures OutOfReach(d, session, d.sessions[session])
  {
    hide AboutToPause;
  }

  lemma OutOfReachStands(steps: seq<DeskStep>, session: nat, state: SessionState)
    requires OutOfReach(Serve(steps), session, state)
    ensures StandsAs(steps, session, state)
  {
  }

  function Bookings(steps: seq<Step>): seq<DeskStep>
  {
    if steps == [] then [] else Bookings(steps[..|steps| - 1]) + [Books(steps[|steps| - 1])]
  }

  lemma {:induction false} BookingsRun(steps: seq<Step>)
    requires forall step :: step in steps ==> !step.MarkDelivered?
    ensures Serve(Bookings(steps)) == Desk(Run(steps), map[], map[], [])
  {
    hide Do;
    if steps != [] {
      BookingsRun(steps[..|steps| - 1]);
      assert Bookings(steps)[..|Bookings(steps)| - 1] == Bookings(steps[..|steps| - 1]);
      assert steps[|steps| - 1] in steps;
    }
  }

  lemma ThenPerform(steps: seq<DeskStep>, step: DeskStep)
    ensures Serve(steps + [step]) == Perform(Serve(steps), step)
  {
    assert (steps + [step])[..|steps|] == steps;
  }

  /** A pause read as due can land after its session has gone elsewhere, and takes it back: a
      session archived between a delivery's read and its write ends up paused. */
  lemma LatePauseRevivesASession() returns (steps: seq<DeskStep>, n: nat)
    ensures n < |steps| && Serve(steps[..n]).sessions == map[0 := Archived]
    ensures Serve(steps).sessions == map[0 := Paused]
  {
    hide Run, Serve;
    var books := FirstFoldAnnounces();
    BookingsRun(books);
    var start := Bookings(books);
    AnnouncedIsPending();
    ThenPerform(start, MoveSession(0, Active));
    var s1 := start + [MoveSession(0, Active)];
    ThenPerform(s1, Start(0, [PAUSE]));
    var s2 := s1 + [Start(0, [PAUSE])];
    ThenPerform(s2, ReadSession(0));
    var s3 := s2 + [ReadSession(0)];
    ThenPerform(s3, MoveSession(0, Archived));
    var s4 := s3 + [MoveSession(0, Archived)];
    ThenPerform(s4, PauseSession(0));
    steps, n := s4 + [PauseSession(0)], |s4|;
    assert steps[..n] == s4;
  }

  lemma AnnouncedIsPending()
    ensures Lists([PAUSE], [PAUSE])
  {
    assert [PAUSE][..0] == [];
    assert Pending([PAUSE]) == [] + [PAUSE];
  }

  /** The row is there still, delivered or not. */
  predicate Kept(outbox: seq<SignalRow>, row: SignalRow)
  {
    row in outbox || row.(delivered := true) in outbox
  }

  /** Step `n` of what came after was a fold's batch that took the row: it left the budget
      below the row's threshold. */
  ghost predicate PrunedAt(steps: seq<DeskStep>, more: seq<DeskStep>, row: SignalRow, n: nat)
  {
    && n < |more| && more[n].Books? && more[n].step.Commit?
    && Kept(Serve(steps + more[..n]).books.tables.outbox, row)
    && var after := Serve(steps + more[..n + 1]).books.tables;
       && !Kept(after.outbox, row)
       && row.budget in after.budgets && StageOrdinal(after.budgets[row.budget].stage) < SignalOrdinal(row.signal)
  }

  /** No signal is lost: after anything that deliveries, failures and budget requests go on to
      do, a pending row is still there, pending or delivered after its room accepted it, unless
      a fold found its threshold un-crossed. */
  lemma NoSignalIsLost(steps: seq<DeskStep>, more: seq<DeskStep>, row: SignalRow)
    requires row in Serve(steps).books.tables.outbox && !row.delivered
    ensures var d := Serve(steps + more);
      || row in d.books.tables.outbox
      || (row.(delivered := true) in d.books.tables.outbox && ProperlySent(d.log, row.id, row.signal))
      || exists n: nat :: PrunedAt(steps, more, row, n)
  {
    hide ProperlySent, PrunedAt, Serve;
    KeptUnlessPruned(steps, more, row);
    var d := Serve(steps + more);
    if row.(delivered := true) in d.books.tables.outbox {
      DeliveredWasSent(steps + more, row.(delivered := true));
    }
  }

  lemma {:induction false} KeptUnlessPruned(steps: seq<DeskStep>, more: seq<DeskStep>, row: SignalRow)
    requires Kept(Serve(steps).books.tables.outbox, row)
    ensures Kept(Serve(steps + more).books.tables.outbox, row) || exists n: nat :: PrunedAt(steps, more, row, n)
  {
    hide Kept, Perform;
    if more == [] {
      assert steps + more == steps;
    } else {
      var n := |more| - 1;
      var init, step := more[..n], more[n];
      KeptUnlessPruned(steps, init, row);
      assert (steps + more)[..|steps + more| - 1] == steps + init;
      assert steps + more[..n + 1] == steps + more;
      if Kept(Serve(steps + init).books.tables.outbox, row) {
        PerformKeeps(Serve(steps + init), step, row);
        assert Kept(Serve(steps + more).books.tables.outbox, row) || PrunedAt(steps, more, row, n);
      } else {
        var m: nat :| PrunedAt(steps, init, row, m);
        assert init[..m] == more[..m] && init[..m + 1] == more[..m + 1];
        assert PrunedAt(steps, more, row, m);
      }
    }
  }

  lemma PerformKeeps(d: Desk, step: DeskStep, row: SignalRow)
    requires Kept(d.books.tables.outbox, row)
    ensures var after := Perform(d, step).books.tables;
      || Kept(after.outbox, row)
      || (step.Books? && step.step.Commit? && row.budget in after.budgets
          && StageOrdinal(after.budgets[row.budget].stage) < SignalOrdinal(row.signal))
  {
    hide ExecBatch, WriteBack, Replayed, Delivered, InsertRows, Pending, Lists;
    if step.Books? && step.step.Commit? {
      CommitKeeps(d.books, step.step.call, row);
    } else if step.Mark? && step.pass in d.passes && d.passes[step.pass].rows != [] {
      DeliveredKeeps(d.books.tables.outbox, d.passes[step.pass].rows[0].id, row);
    }
  }

  lemma DeliveredKeeps(outbox: seq<SignalRow>, id: nat, row: SignalRow)
    requires Kept(outbox, row)
    ensures Kept(Delivered(outbox, id), row)
  {
    var held := if row in outbox then row else row.(delivered := true);
    var i: nat :| i < |outbox| && outbox[i] == held;
    assert Delivered(outbox, id)[i] in Delivered(outbox, id);
  }

  lemma CommitKeeps(s: System, c: nat, row: SignalRow)
    requires Kept(s.tables.outbox, row)
    ensures var after := Do(s, Commit(c)).tables;
      || Kept(after.outbox, row)
      || (row.budget in after.budgets && StageOrdinal(after.budgets[row.budget].stage) < SignalOrdinal(row.signal))
  {
    hide ExecBatch, WriteBack, Replayed, Crossings;
    if c in s.calls && s.calls[c].Ready? {
      var call := s.calls[c];
      if call.row.limit > 0 && Replayed(call.row.limit, call.events).Some? {
        if Matches(s.tables, call.begun.budget, call.row.limit) {
          WonFold(s.tables, call.begun.budget, call.row, call.events);
        } else {
          LostFold(s.tables, call.begun.budget, call.row, call.events);
        }
      }
    }
  }

  /** A pause announced anew after an earlier one was pruned stays pending whatever a
      delivery still holding the earlier row goes on to mark. */
  lemma StaleMarkSparesTheNewRow(steps: seq<DeskStep>, step: Step, p: nat, row: SignalRow)
    requires !step.MarkDelivered?
    requires var d := Serve(steps); p in d.passes && d.passes[p].rows != []
    requires var d := Serve(steps);
      row in Perform(d, Books(step)).books.tables.outbox && row !in d.books.tables.outbox
    ensures row in Perform(Perform(Serve(steps), Books(step)), Mark(p)).books.tables.outbox && !row.delivered
  {
    hide Do, ProperlySent, PausedBefore;
    var d := Serve(steps);
    ServeKeepsInv(steps);
    BooksMove(d.books, step);
    assert PassInv(d, d.passes[p]);
    var head := d.passes[p].rows[0];
    assert head in d.passes[p].rows;
    MarkSpares(Perform(d, Books(step)), p, row);
  }

  lemma MarkSpares(d: Desk, p: nat, row: SignalRow)
    requires p in d.passes && d.passes[p].rows != [] && row in d.books.tables.outbox
    requires d.passes[p].rows[0].id != row.id
    ensures row in Perform(d, Mark(p)).books.tables.outbox
  {
    var outbox := d.books.tables.outbox;
    var i :| 0 <= i < |outbox| && outbox[i] == row;
    assert Delivered(outbox, d.passes[p].rows[0].id)[i] == row;
  }

  /** A session read as paused already is noted so, and never written to for that row. */
  lemma PausedSessionsAreLeftAlone(d: Desk, p: nat)
    requires p in d.passes && d.passes[p].rows != [] && d.passes[p].rows[0].signal == Signal.Pause
    requires !d.passes[p].active && !d.passes[p].paused
    requires var session := d.passes[p].rows[0].session; session in d.sessions && d.sessions[session] == Paused
    ensures var row, read := d.passes[p].rows[0], Perform(d, ReadSession(p));
      && read.sessions == d.sessions && read.log == d.log + [PausedFor(row.id)]
      && (forall session :: !AboutToPause(read, p, session))
      && Perform(read, PauseSession(p)) == read && Perform(read, ReadSession(p)) == read
  {
  }

  // ── One row, undisturbed ──

  function Turn(d: Desk, p: nat): Desk
  {
    Perform(Perform(Perform(Perform(d, ReadSession(p)), PauseSession(p)), SendCommand(p)), Mark(p))
  }

  /** Whether the row ahead is a pause its session will not take. */
  predicate Refused(d: Desk, row: SignalRow)
  {
    row.signal == Signal.Pause && (row.session !in d.sessions || d.sessions[row.session] !in {Active, Paused})
  }

  /** What a delivery's turn with the row ahead of it comes to when nobody is in between: a pause
      its session will not take ends the delivery and changes nothing else; any other row is
      commanded once, a pause with its session paused before, marked delivered if it is still in
      the outbox, and no other row or session is touched. */
  lemma TurnComesTo(d: Desk, p: nat)
    requires p in d.passes && d.passes[p].rows != [] && d.passes[p] == Pass(d.passes[p].rows, false, false, false)
    ensures var row, after := d.passes[p].rows[0], Turn(d, p);
      if Refused(d, row) then after == d.(passes := d.passes - {p})
      else
        && after.sessions == (if row.signal == Signal.Pause then d.sessions[row.session := Paused] else d.sessions)
        && after.log == d.log + (if row.signal == Signal.Pause then [PausedFor(row.id)] else []) + [Accepted(row.id, row.signal)]
        && after.passes == d.passes[p := Pass(d.passes[p].rows[1..], false, false, false)]
        && after.books.calls == d.books.calls
        && after.books.tables == d.books.tables.(outbox := after.books.tables.outbox)
        && |after.books.tables.outbox| == |d.books.tables.outbox|
        && forall i :: 0 <= i < |after.books.tables.outbox| ==>
             after.books.tables.outbox[i] == (var held := d.books.tables.outbox[i]; held.(delivered := held.delivered || held.id == row.id))
  {
    var row := d.passes[p].rows[0];
    var read := Perform(d, ReadSession(p));
    var paused := Perform(read, PauseSession(p));
    var sent := Perform(paused, SendCommand(p));
    if row.signal == Signal.Pause && !Refused(d, row) && d.sessions[row.session] == Paused {
      assert d.sessions[row.session := Paused] == d.sessions;
    }
    if Refused(d, row) {
      assert p !in read.passes;
    } else {
      assert sent.log == d.log + (if row.signal == Signal.Pause then [PausedFor(row.id)] else []) + [Accepted(row.id, row.signal)];
    }
  }
}
