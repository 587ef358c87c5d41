/** The upload and completion routes over mutable tables, storage and queue
    (crates/api/src/handoffs.rs, app.rs).

    Other calls' steps land at each await; `arriving` is what is to come, one group per
    await. `trace` is every step so far, theirs and this call's: each method below is proved
    to be a run of the protocol, so what holds of every run holds of it.

    The shape is that of IdempotencyKeys, with one difference: foreign are also the steps of no
    call, the daemon's writes among them. */
module HandoffStore {
  import opened Prelude
  import opened Handoffs
  import opened HandoffRuns

  predicate Mine(step: Step, call: nat)
  {
    ByCall(step) && step.call == call
  }

  function With(w: World, call: nat, at: Call): World
  {
    w.(calls := w.calls[call := at])
  }

  predicate Foreign(steps: seq<Step>, call: nat)
  {
    forall step :: step in steps ==> !Mine(step, call)
  }

  predicate AllForeign(groups: seq<seq<Step>>, call: nat)
  {
    forall group :: group in groups ==> Foreign(group, call)
  }

  function Playing(w: World, steps: seq<Step>): World
  {
    if steps == [] then w else Do(Playing(w, steps[..|steps| - 1]), steps[|steps| - 1])
  }

  lemma {:induction false} RunPlays(steps: seq<Step>, more: seq<Step>)
    ensures Run(steps + more) == Playing(Run(steps), more)
  {
    hide Do, Run;
    RunMore(steps, more);
    if more != [] {
      RunPlays(steps, more[..|more| - 1]);
    }
  }

  lemma ForeignStep(w: World, step: Step, call: nat, at: Call)
    requires !Mine(step, call)
    ensures Do(With(w, call, at), step) == With(Do(w, step), call, at)
    ensures call in Do(w, step).calls <==> call in w.calls
  {
    hide Moves, Opens;
    if ByCall(step) {
      assert At(With(w, call, at), step.call) == At(w, step.call);
      var moved := Moves(w.t, step.call, At(w, step.call), step);
      if moved.Some? {
        assert w.calls[call := at][step.call := moved.value.1] == w.calls[step.call := moved.value.1][call := at];
      }
    }
  }

  /** Nobody else moves this call, or is moved by it. */
  lemma {:induction false} ForeignPlay(w: World, steps: seq<Step>, call: nat, at: Call)
    requires Foreign(steps, call)
    ensures Playing(With(w, call, at), steps) == With(Playing(w, steps), call, at)
    ensures call in Playing(w, steps).calls <==> call in w.calls
  {
    hide Do;
    if steps != [] {
      ForeignPlay(w, steps[..|steps| - 1], call, at);
      ForeignStep(Playing(w, steps[..|steps| - 1]), steps[|steps| - 1], call, at);
    }
  }

  /** The steps of one call, in order. */
  function Own(steps: seq<Step>, call: nat): seq<Step>
  {
    if steps == [] then []
    else
      var last := steps[|steps| - 1];
      Own(steps[..|steps| - 1], call) + if Mine(last, call) then [last] else []
  }

  lemma {:induction false} ForeignIsNotOwn(trace: seq<Step>, steps: seq<Step>, call: nat)
    requires Foreign(steps, call)
    ensures Own(trace + steps, call) == Own(trace, call)
  {
    if steps == [] {
      assert trace + steps == trace;
    } else {
      ForeignIsNotOwn(trace, steps[..|steps| - 1], call);
      assert (trace + steps)[..|trace + steps| - 1] == trace + steps[..|steps| - 1];
      assert steps[|steps| - 1] in steps;
    }
  }

  ghost function Extended(trace: seq<Step>, step: Step): (longer: seq<Step>)
    ensures longer == trace + [step]
    ensures Run(longer) == Do(Run(trace), step)
    ensures forall call :: Own(longer, call) == Own(trace, call) + if Mine(step, call) then [step] else []
  {
    assert (trace + [step])[..|trace|] == trace;
    trace + [step]
  }

  class Store {
    var sessions: map<nat, Session>
    var rows: map<nat, Row>
    var storage: map<(nat, Payload), Body>
    var queue: seq<nat>
    var others: map<nat, Call>
    var winners: map<nat, nat>
    var arriving: seq<seq<Step>>
    ghost var trace: seq<Step>

    function Value(): World
      reads this
    {
      World(Tables(sessions, rows, storage, queue, winners), others)
    }

    /** `call` is new here. */
    ghost predicate Unknown(call: nat)
      reads this
    {
      Run(trace) == Value() && call !in others && AllForeign(arriving, call)
    }

    /** `call` is where `at` says. */
    ghost predicate Stands(call: nat, at: Call)
      reads this
    {
      Run(trace) == With(Value(), call, at) && call !in others && AllForeign(arriving, call)
    }

    constructor (concurrent: seq<seq<Step>>)
      ensures Value() == Run([]) && trace == [] && arriving == concurrent
    {
      sessions, rows, storage, queue, winners, others := map[], map[], map[], [], map[], map[];
      arriving, trace := concurrent, [];
    }

    /** A suspension point: the next group of steps lands. */
    method Await(ghost call: nat, ghost at: Call)
      requires Stands(call, at)
      modifies this
      ensures Stands(call, at) && trace == old(trace) + Landing(old(arriving)) && Own(trace, call) == Own(old(trace), call)
    {
      hide Run, Own, Do, Playing;
      if arriving != [] {
        ForeignPlay(Value(), arriving[0], call, at);
        ForeignIsNotOwn(trace, arriving[0], call);
        RunPlays(trace, arriving[0]);
        var after := Playing(Value(), arriving[0]);
        trace := trace + arriving[0];
        sessions, rows, storage, queue := after.t.sessions, after.t.rows, after.t.storage, after.t.queue;
        winners, others := after.t.winners, after.calls;
        arriving := arriving[1..];
      }
    }

    /** `put_patch` or `put_transcript` to storage. */
    method PutObject(ghost call: nat, s: nat, payload: Payload, body: Body)
      requires Stands(call, Putting(s, payload, body))
      modifies this
      ensures Stands(call, Recording(s, payload, body))
      ensures trace == Then(old(trace), Landing(old(arriving)), Step.Put(call))
      ensures Own(trace, call) == Own(old(trace), call) + [Step.Put(call)]
    {
      hide Run, Own, AllForeign;
      Await(call, Putting(s, payload, body));
      trace := Extended(trace, Step.Put(call));
      storage := storage[(s, payload) := body];
    }

    /** `record_upload`. */
    method RecordUpload(ghost call: nat, s: nat, payload: Payload, body: Body) returns (outcome: Outcome)
      requires Stands(call, Recording(s, payload, body))
      modifies this
      ensures Stands(call, Over(outcome))
      ensures trace == Then(old(trace), Landing(old(arriving)), Step.Record(call))
      ensures Own(trace, call) == Own(old(trace), call) + [Step.Record(call)]
    {
      hide Run, Own;
      Await(call, Recording(s, payload, body));
      trace := Extended(trace, Step.Record(call));
      if s !in rows || rows[s].completed.Some? { return NotPending; }
      var fact := Fact(Digest(body), Min(|body|, I64_MAX));
      match payload {
        case Patch => rows := rows[s := rows[s].(patch := Some(fact))];
        case Transcript => rows := rows[s := rows[s].(transcript := Some(fact))];
      }
      outcome := Stored;
    }

    /** `store_handoff_patch` and `store_handoff_transcript`. */
    method StoreUpload(ghost call: nat, s: nat, payload: Payload, body: Body) returns (outcome: Outcome)
      requires Unknown(call)
      modifies this
      ensures Stands(call, Over(outcome))
      ensures Own(trace, call) <= Own(old(trace), call) + [Step.Upload(call, s, payload, body), Step.Put(call), Step.Record(call)]
    {
      hide Run, Own, Then, Landing;
      trace := Extended(trace, Step.Upload(call, s, payload, body));
      if s !in sessions { return SessionNotFound; }
      if s !in rows || rows[s].completed.Some? { return NotPending; }
      if |body| > Limit(payload) { return TooLarge(payload); }
      assert Stands(call, Putting(s, payload, body));
      hide Stands;
      PutObject(call, s, payload, body);
      outcome := RecordUpload(call, s, payload, body);
    }

    /** The read of `complete`, and what it decides. */
    method ReadRow(ghost call: nat, s: nat, manifest: Manifest) returns (answer: Option<Outcome>)
      requires Stands(call, Reading(s, manifest))
      modifies this
      ensures Stands(call, Answering(answer, Marking(s, manifest)))
      ensures trace == Then(old(trace), Landing(old(arriving)), Step.Read(call))
      ensures Own(trace, call) == Own(old(trace), call) + [Step.Read(call)]
    {
      hide Run, Own, AllForeign;
      Await(call, Reading(s, manifest));
      trace := Extended(trace, Step.Read(call));
      if s !in rows { return Some(SessionNotFound); }
      var row := rows[s];
      var patch, transcript := Claimed(manifest, Patch), Claimed(manifest, Transcript);
      var same := row.patch == Some(patch) && row.transcript == Some(transcript);
      if row.completed.Some? { return Some(if same then Finished(false) else NotPending); }
      if row.patch.None? { return Some(ObjectMissing(Patch)); }
      if row.transcript.None? { return Some(ObjectMissing(Transcript)); }
      if row.patch != Some(patch) { return Some(ChecksumMismatch(Patch)); }
      if row.transcript != Some(transcript) { return Some(ChecksumMismatch(Transcript)); }
      answer := None;
    }

    /** The guarded update of `complete`. */
    method MarkRow(call: nat, s: nat, ghost manifest: Manifest, now: nat) returns (won: bool)
      requires Stands(call, Marking(s, manifest))
      modifies this
      ensures Stands(call, if won then Enqueuing(s) else Over(Finished(false)))
      ensures trace == Then(old(trace), Landing(old(arriving)), Step.Mark(call, now))
      ensures Own(trace, call) == Own(old(trace), call) + [Step.Mark(call, now)]
    {
      hide Run, Own, AllForeign;
      Await(call, Marking(s, manifest));
      trace := Extended(trace, Step.Mark(call, now));
      won := s in rows && rows[s].completed.None?;
      if won {
        rows := rows[s := rows[s].(completed := Some(now))];
        winners := winners[s := call];
      }
    }

    method EnqueueFirst(ghost call: nat, s: nat, accepted: bool) returns (outcome: Outcome)
      requires Stands(call, Enqueuing(s))
      modifies this
      ensures Stands(call, Over(outcome))
      ensures trace == Then(old(trace), Landing(old(arriving)), Step.Enqueue(call, accepted))
      ensures Own(trace, call) == Own(old(trace), call) + [Step.Enqueue(call, accepted)]
    {
      hide Run, Own;
      Await(call, Enqueuing(s));
      trace := Extended(trace, Step.Enqueue(call, accepted));
      if s !in sessions || !sessions[s].machine { return CorruptRecord; }
      if !accepted { return QueueRefused; }
      queue := queue + [s];
      outcome := Finished(true);
    }

    /** `finish_handoff`. */
    method FinishHandoff(call: nat, s: nat, manifest: Manifest, now: nat, accepted: bool) returns (outcome: Outcome)
      requires Unknown(call)
      modifies this
      ensures Stands(call, Over(outcome))
      ensures Own(trace, call) <= Own(old(trace), call)
        + [Step.Finish(call, s, manifest), Step.Read(call), Step.Mark(call, now), Step.Enqueue(call, accepted)]
    {
      hide Run, Own, Then, Landing;
      trace := Extended(trace, Step.Finish(call, s, manifest));
      if s !in sessions { return SessionNotFound; }
      if !sessions[s].provisioning { return InvalidTransition; }
      assert Stands(call, Reading(s, manifest));
      hide Stands;
      var answer := ReadRow(call, s, manifest);
      if answer.Some? { return answer.value; }
      var won := MarkRow(call, s, manifest, now);
      if !won { return Finished(false); }
      outcome := EnqueueFirst(call, s, accepted);
    }
  }
}
