/** Racing uploads and completions (crates/api/src/handoffs.rs, app.rs): every statement, and
    every write to storage or the queue, is one step of some call. */
module HandoffRuns {
  import opened Prelude
  import opened Handoffs

  /** A session: whether it is still provisioning, came with a handoff, has its machine's
      row, and has finished being created. */
  datatype Session = Session(provisioning: bool, source: bool, machine: bool, created: bool)

  datatype Call =
    | Putting(session: nat, payload: Payload, body: Body)
    | Recording(session: nat, payload: Payload, body: Body)
    | Reading(session: nat, manifest: Manifest)
    | Marking(session: nat, manifest: Manifest)
    | Enqueuing(session: nat)
    | Over(outcome: Outcome)

  /** `winners` remembers which call's `complete` answered true. */
  datatype Tables = Tables(
    sessions: map<nat, Session>,
    rows: map<nat, Row>,
    storage: map<(nat, Payload), Body>,
    queue: seq<nat>,
    winners: map<nat, nat>)

  datatype World = World(t: Tables, calls: map<nat, Call>)

  datatype Step =
    | Create(session: nat, source: bool)
    | CreatePending(session: nat, baseCommit: string, now: nat)
    | Reserve(session: nat)
    | Open(session: nat)
    | Leave(session: nat)
    | StorePatch(session: nat, body: Body)
    | Upload(call: nat, session: nat, payload: Payload, body: Body)
    | Put(call: nat)
    | Record(call: nat)
    | Finish(call: nat, session: nat, manifest: Manifest)
    | Read(call: nat)
    | Mark(call: nat, now: nat)
    | Enqueue(call: nat, accepted: bool)

  function RowOf(t: Tables, session: nat): Option<Row>
  {
    if session in t.rows then Some(t.rows[session]) else None
  }

  function Answering(outcome: Option<Outcome>, otherwise: Call): (call: Call)
    ensures call == otherwise || (outcome.Some? && call == Over(outcome.value))
  {
    if outcome.Some? then Over(outcome.value) else otherwise
  }

  /** The steps of creating a session and of leaving provisioning. A session that is no
      handoff takes its job as its creation ends. `StorePatch` is the daemon's: the diff it
      leaves as it archives a session lies where the handoff's patch does. */
  function Opens(t: Tables, step: Step): Tables
  {
    match step
    case Create(s, source) =>
      if s in t.sessions then t else t.(sessions := t.sessions[s := Session(true, source, false, false)])
    case CreatePending(s, baseCommit, now) =>
      if s !in t.sessions || !t.sessions[s].source || s in t.rows then t
      else t.(rows := t.rows[s := Row(baseCommit, None, None, now, None)])
    case Reserve(s) =>
      if s !in t.sessions then t else t.(sessions := t.sessions[s := t.sessions[s].(machine := true)])
    case Open(s) =>
      if s !in t.sessions || t.sessions[s].created || !t.sessions[s].machine then t
      else t.(sessions := t.sessions[s := t.sessions[s].(created := true)],
              queue := t.queue + if t.sessions[s].source then [] else [s])
    case Leave(s) =>
      if s !in t.sessions then t else t.(sessions := t.sessions[s := t.sessions[s].(provisioning := false)])
    case StorePatch(s, body) =>
      if s !in t.sessions then t else t.(storage := t.storage[(s, Patch) := body])
    case _ => t
  }

  predicate ByCall(step: Step)
  {
    step.Upload? || step.Put? || step.Record? || step.Finish? || step.Read? || step.Mark? || step.Enqueue?
  }

  /** An upload's steps, from `at`; none once it is over. */
  function Uploads(t: Tables, at: Option<Call>, step: Step): Option<(Tables, Call)>
  {
    match (step, at)
    case (Upload(_, s, payload, body), None) =>
      Some((t, if s !in t.sessions then Over(SessionNotFound)
        else Answering(Admitted(RowOf(t, s), payload, body), Putting(s, payload, body))))
    case (Put(_), Some(Putting(s, payload, body))) =>
      Some((t.(storage := t.storage[(s, payload) := body]), Recording(s, payload, body)))
    case (Record(_), Some(Recording(s, payload, body))) =>
      if s !in t.rows || t.rows[s].completed.Some? then Some((t, Over(NotPending)))
      else Some((t.(rows := t.rows[s := Uploaded(t.rows[s], payload, body)]), Over(Stored)))
    case _ => None
  }

  /** A completion's steps. The queue may refuse a job, and nothing retries. */
  function Finishes(t: Tables, call: nat, at: Option<Call>, step: Step): Option<(Tables, Call)>
  {
    match (step, at)
    case (Finish(_, s, manifest), None) =>
      Some((t, if s !in t.sessions then Over(SessionNotFound)
        else if t.sessions[s].provisioning then Reading(s, manifest) else Over(InvalidTransition)))
    case (Read(_), Some(Reading(s, manifest))) =>
      Some((t, Answering(Judged(RowOf(t, s), manifest), Marking(s, manifest))))
    case (Mark(_, now), Some(Marking(s, _))) =>
      if s !in t.rows || t.rows[s].completed.Some? then Some((t, Over(Finished(false))))
      else Some((t.(rows := t.rows[s := Marked(t.rows[s], now)], winners := t.winners[s := call]), Enqueuing(s)))
    case (Enqueue(_, accepted), Some(Enqueuing(s))) =>
      if s !in t.sessions || !t.sessions[s].machine then Some((t, Over(CorruptRecord)))
      else if !accepted then Some((t, Over(QueueRefused)))
      else Some((t.(queue := t.queue + [s]), Over(Finished(true))))
    case _ => None
  }

  function Moves(t: Tables, call: nat, at: Option<Call>, step: Step): Option<(Tables, Call)>
  {
    if step.Upload? || step.Put? || step.Record? then Uploads(t, at, step) else Finishes(t, call, at, step)
  }

  function At(w: World, call: nat): Option<Call>
  {
    if call in w.calls then Some(w.calls[call]) else None
  }

  function Do(w: World, step: Step): World
  {
    if !ByCall(step) then w.(t := Opens(w.t, step))
    else
      var moved := Moves(w.t, step.call, At(w, step.call), step);
      if moved.None? then w else World(moved.value.0, w.calls[step.call := moved.value.1])
  }

  const NOTHING: World := World(Tables(map[], map[], map[], [], map[]), map[])

  function Run(steps: seq<Step>): World
  {
    if steps == [] then NOTHING else Do(Run(steps[..|steps| - 1]), steps[|steps| - 1])
  }

  // ── At most one job, and none before completion ──

  predicate Complete(w: World, s: nat)
  {
    s in w.t.rows && w.t.rows[s].completed.Some?
  }

  predicate RowInv(w: World, s: nat)
    requires s in w.t.rows
  {
    && s in w.t.sessions && w.t.sessions[s].source
    && (Complete(w, s) <==> s in w.t.winners)
    && (Complete(w, s) ==> w.t.rows[s].patch.Some? && w.t.rows[s].transcript.Some?)
  }

  predicate CallInv(w: World, c: nat)
    requires c in w.calls
  {
    match w.calls[c]
    case Marking(s, _) => s in w.t.rows && w.t.rows[s].patch.Some? && w.t.rows[s].transcript.Some?
    case Enqueuing(s) => s in w.t.winners && w.t.winners[s] == c && s in w.t.sessions && w.t.sessions[s].source && s !in w.t.queue
    case _ => true
  }

  predicate JobInv(w: World, s: nat)
  {
    && (s in w.t.winners ==> s in w.t.rows && w.t.winners[s] in w.calls)
    && multiset(w.t.queue)[s] <= 1
    && (s in w.t.queue ==> s in w.t.sessions && if w.t.sessions[s].source then s in w.t.winners else w.t.sessions[s].created)
  }

  ghost predicate Inv(w: World)
  {
    && (forall s :: s in w.t.rows ==> RowInv(w, s))
    && (forall c :: c in w.calls ==> CallInv(w, c))
    && (forall s :: JobInv(w, s))
  }

  lemma Facts(w: World, c: nat, s: nat)
    requires Inv(w)
    ensures c in w.calls ==> CallInv(w, c)
    ensures s in w.t.rows ==> RowInv(w, s)
    ensures JobInv(w, s)
  {
  }

  predicate QuietRow(w: World, after: World, s: nat)
  {
    && (s in w.t.rows ==> s in after.t.rows)
    && (s in after.t.rows ==>
         if s in w.t.rows then
           && after.t.rows[s].completed == w.t.rows[s].completed
           && (w.t.rows[s].patch.Some? ==> after.t.rows[s].patch.Some?)
           && (w.t.rows[s].transcript.Some? ==> after.t.rows[s].transcript.Some?)
         else after.t.rows[s].completed.None? && s in after.t.sessions && after.t.sessions[s].source)
    && (s in w.t.sessions ==>
         && s in after.t.sessions
         && after.t.sessions[s].source == w.t.sessions[s].source
         && after.t.sessions[s].created == w.t.sessions[s].created)
  }

  predicate QuietCall(w: World, after: World, c: nat)
  {
    && (c in w.calls ==> c in after.calls)
    && (c in after.calls ==>
         || (c in w.calls && after.calls[c] == w.calls[c])
         || (!after.calls[c].Enqueuing? && CallInv(after, c)))
  }

  /** A step that neither completes nor enqueues, whatever else it does. */
  ghost predicate Quiet(w: World, after: World)
  {
    && after.t.queue == w.t.queue && after.t.winners == w.t.winners
    && (forall s :: QuietRow(w, after, s))
    && (forall c :: QuietCall(w, after, c))
  }

  predicate Loud(step: Step)
  {
    step.Open? || step.Mark? || step.Enqueue?
  }

  lemma StepIsQuiet(w: World, step: Step)
    requires !Loud(step)
    ensures Quiet(w, Do(w, step))
  {
    hide QuietRow, QuietCall, Moves, Opens;
    forall s ensures QuietRow(w, Do(w, step), s) { StepQuietRow(w, step, s); }
    forall c ensures QuietCall(w, Do(w, step), c) { StepQuietCall(w, step, c); }
    QuietTables(w, step);
  }

  lemma QuietTables(w: World, step: Step)
    requires !Loud(step)
    ensures Do(w, step).t.queue == w.t.queue && Do(w, step).t.winners == w.t.winners
  {
    hide FactOf, Claimed, Limit, Judged, Admitted, Answering, Uploaded;
  }

  lemma StepQuietRow(w: World, step: Step, s: nat)
    requires !Loud(step)
    ensures QuietRow(w, Do(w, step), s)
  {
    hide FactOf, Claimed, Limit, Judged, Admitted, Answering;
  }

  lemma StepQuietCall(w: World, step: Step, c: nat)
    requires !Loud(step)
    ensures QuietCall(w, Do(w, step), c)
  {
    hide FactOf, Claimed, Limit, Admitted, Uploaded;
  }

  lemma QuietKeeps(w: World, after: World)
    requires Inv(w) && Quiet(w, after)
    ensures Inv(after)
  {
    forall s | s in after.t.rows ensures RowInv(after, s) {
      assert QuietRow(w, after, s) && JobInv(w, s);
    }
    forall c | c in after.calls ensures CallInv(after, c) {
      assert QuietCall(w, after, c);
      if c in w.calls && (w.calls[c].Marking? || w.calls[c].Enqueuing?) {
        assert QuietRow(w, after, w.calls[c].session);
      }
    }
    forall s ensures JobInv(after, s) {
      assert QuietRow(w, after, s) && JobInv(w, s);
      if s in w.t.winners { assert QuietCall(w, after, w.t.winners[s]); }
    }
  }

  lemma OpeningKeeps(w: World, s: nat)
    requires Inv(w)
    ensures Inv(Do(w, Open(s)))
  {
    var after := Do(w, Open(s));
    forall c | c in after.calls ensures CallInv(after, c) {
      assert CallInv(w, c);
    }
    forall t ensures JobInv(after, t) {
      assert JobInv(w, t);
    }
    forall t | t in after.t.rows ensures RowInv(after, t) {
      assert RowInv(w, t);
    }
  }

  lemma MarkKeeps(w: World, c: nat, now: nat)
    requires Inv(w)
    ensures Inv(Do(w, Mark(c, now)))
  {
    var after := Do(w, Mark(c, now));
    if c in w.calls && after != w {
      Facts(w, c, w.calls[c].session);
      forall d | d in after.calls ensures CallInv(after, d) {
        if d != c { assert CallInv(w, d); }
      }
      forall t ensures JobInv(after, t) {
        assert JobInv(w, t);
      }
      forall t | t in after.t.rows ensures RowInv(after, t) {
        assert RowInv(w, t);
      }
    }
  }

  lemma EnqueueKeeps(w: World, c: nat, accepted: bool)
    requires Inv(w)
    ensures Inv(Do(w, Enqueue(c, accepted)))
  {
    var after := Do(w, Enqueue(c, accepted));
    if c in w.calls && after != w {
      Facts(w, c, w.calls[c].session);
      forall d | d in after.calls ensures CallInv(after, d) {
        if d != c { assert CallInv(w, d); }
      }
      forall t ensures JobInv(after, t) {
        assert JobInv(w, t);
      }
      forall t | t in after.t.rows ensures RowInv(after, t) {
        assert RowInv(w, t);
      }
    }
  }

  lemma StepKeeps(w: World, step: Step)
    requires Inv(w)
    ensures Inv(Do(w, step))
  {
    hide Inv, Quiet, Do;
    match step
    case Open(s) => OpeningKeeps(w, s);
    case Mark(c, now) => MarkKeeps(w, c, now);
    case Enqueue(c, accepted) => EnqueueKeeps(w, c, accepted);
    case _ =>
      StepIsQuiet(w, step);
      QuietKeeps(w, Do(w, step));
  }

  lemma {:induction false} RunKeeps(steps: seq<Step>)
    ensures Inv(Run(steps))
  {
    hide Do;
    if steps != [] {
      RunKeeps(steps[..|steps| - 1]);
      StepKeeps(Run(steps[..|steps| - 1]), steps[|steps| - 1]);
    }
  }

  /** A handoff's session takes at most one job, and only once its handoff is complete; any
      other takes at most one, when its creation ends. */
  lemma AtMostOneJob(steps: seq<Step>, s: nat)
    ensures var w := Run(steps);
      && multiset(w.t.queue)[s] <= 1
      && (s in w.t.queue && s in w.t.rows ==> Complete(w, s))
      && (s in w.t.queue ==> s in w.t.sessions && (w.t.sessions[s].source ==> s in w.t.winners))
  {
    hide Run;
    RunKeeps(steps);
    Facts(Run(steps), 0, s);
  }

  // ── What was completed stays as it was ──

  predicate Settled(w: World, after: World, s: nat)
  {
    && s in w.t.rows && s in after.t.rows && after.t.rows[s] == w.t.rows[s]
    && s in w.t.winners && s in after.t.winners && after.t.winners[s] == w.t.winners[s]
    && w.t.rows[s].completed.Some? && w.t.rows[s].patch.Some? && w.t.rows[s].transcript.Some?
  }

  lemma RunMore(steps: seq<Step>, more: seq<Step>)
    ensures more == [] ==> Run(steps + more) == Run(steps)
    ensures more != [] ==> Run(steps + more) == Do(Run(steps + more[..|more| - 1]), more[|more| - 1])
  {
    hide Do;
    if more == [] {
      assert steps + more == steps;
    } else {
      assert (steps + more)[..|steps + more| - 1] == steps + more[..|more| - 1];
    }
  }

  /** Only one call's `complete` ever answers true: once a handoff is complete, no step
      changes its row or its winner. */
  lemma {:induction false} CompletionIsFinal(steps: seq<Step>, more: seq<Step>, s: nat)
    requires Complete(Run(steps), s)
    ensures Settled(Run(steps), Run(steps + more), s)
  {
    hide Run, Do;
    RunMore(steps, more);
    if more == [] {
      RunKeeps(steps);
      Facts(Run(steps), 0, s);
    } else {
      CompletionIsFinal(steps, more[..|more| - 1], s);
      CompleteStays(Run(steps + more[..|more| - 1]), more[|more| - 1], s);
    }
  }

  lemma CompleteStays(w: World, step: Step, s: nat)
    requires Complete(w, s)
    ensures s in Do(w, step).t.rows && Do(w, step).t.rows[s] == w.t.rows[s]
    ensures s in w.t.winners ==> s in Do(w, step).t.winners && Do(w, step).t.winners[s] == w.t.winners[s]
  {
    hide Judged, Admitted;
  }

  /** The daemon sees no handoff until it is complete, and then always one with both
      checksums: the corrupt record `view_for_daemon` guards against never arises. */
  lemma DaemonSeesOnlyTheComplete(steps: seq<Step>, s: nat)
    ensures var w := Run(steps);
      match ViewForDaemon(RowOf(w.t, s))
      case NoHandoff => !Complete(w, s)
      case Corrupt => false
      case Handoff(base, digest, transcript) =>
        && Complete(w, s) && transcript && base == w.t.rows[s].baseCommit
        && w.t.rows[s].patch.Some? && digest == w.t.rows[s].patch.value.digest
  {
    hide Run;
    RunKeeps(steps);
    Facts(Run(steps), 0, s);
  }
}
