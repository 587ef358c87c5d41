/** What an upload and a completion come to from start to end (crates/api/src/handoffs.rs,
    app.rs), told in the tables before and after, each with nobody's statements in between; and
    in every run, which handoffs get their job. */
module HandoffCalls {
  import opened Prelude
  import opened Handoffs
  import opened HandoffRuns

  predicate Answers(before: World, after: World, c: nat, outcome: Outcome)
  {
    after.calls == before.calls[c := Over(outcome)]
  }

  lemma StaysOver(w: World, step: Step)
    requires ByCall(step) && step.call in w.calls && w.calls[step.call].Over?
    ensures Do(w, step) == w
  {
  }

  // ── Uploading ──

  /** What the row says of a payload once a body was stored for it: its digest and its size. */
  function Holding(row: Row, payload: Payload, body: Body): Row
  {
    match payload
    case Patch => Row(row.baseCommit, Some(Fact(Digest(body), |body|)), row.transcript, row.created, row.completed)
    case Transcript => Row(row.baseCommit, row.patch, Some(Fact(Digest(body), |body|)), row.created, row.completed)
  }

  predicate Open(w: World, s: nat)
  {
    s in w.t.rows && w.t.rows[s].completed == None
  }

  /** An upload to a handoff not complete, of at most 256 MiB for a patch and 1 GiB for a
      transcript, leaves the object stored and recorded with its true size; any other is refused
      and changes nothing. */
  lemma UploadComesTo(w: World, c: nat, s: nat, payload: Payload, body: Body)
    requires c !in w.calls
    ensures var after := Do(Do(Do(w, Upload(c, s, payload, body)), Put(c)), Record(c));
      if s !in w.t.sessions then Answers(w, after, c, SessionNotFound) && after.t == w.t
      else if !Open(w, s) then Answers(w, after, c, NotPending) && after.t == w.t
      else if |body| > (if payload == Patch then 268_435_456 else 1_073_741_824) then
        Answers(w, after, c, TooLarge(payload)) && after.t == w.t
      else
        && Answers(w, after, c, Stored)
        && after.t == w.t.(rows := w.t.rows[s := Holding(w.t.rows[s], payload, body)],
                           storage := w.t.storage[(s, payload) := body])
  {
    hide Judged, Claimed;
    var begun := Do(w, Upload(c, s, payload, body));
    if begun.calls[c].Over? {
      StaysOver(begun, Put(c));
      StaysOver(begun, Record(c));
    }
  }

  // ── Completing ──

  /** The manifest names what the row says of a payload: the digest, and the size as a signed
      64-bit number. */
  predicate Names(manifest: Manifest, row: Row, payload: Payload)
  {
    match payload
    case Patch => row.patch == Some(Fact(manifest.patchDigest, Signed(manifest.patchBytes)))
    case Transcript => row.transcript == Some(Fact(manifest.transcriptDigest, Signed(manifest.transcriptBytes)))
  }

  function Signed(n: u64): int { if n < 0x8000_0000_0000_0000 then n else n - 0x1_0000_0000_0000_0000 }

  /** Why a completion goes no further than reading, or that it was done before. */
  function Refusal(row: Option<Row>, manifest: Manifest): Option<Outcome>
  {
    match row
    case None => Some(SessionNotFound)
    case Some(r) =>
      if r.completed.Some? then
        Some(if Names(manifest, r, Patch) && Names(manifest, r, Transcript) then Finished(false) else NotPending)
      else if r.patch == None then Some(ObjectMissing(Patch))
      else if r.transcript == None then Some(ObjectMissing(Transcript))
      else if !Names(manifest, r, Patch) then Some(ChecksumMismatch(Patch))
      else if !Names(manifest, r, Transcript) then Some(ChecksumMismatch(Transcript))
      else None
  }

  lemma ReadingComesTo(row: Option<Row>, manifest: Manifest)
    ensures Judged(row, manifest) == Refusal(row, manifest)
  {
  }

  /** A completion of a session still provisioning, whose objects are both recorded as its
      manifest names them, marks the handoff complete and queues the machine's one job. Of one
      complete already under the same manifest it answers so; all others are refused. */
  lemma FinishComesTo(w: World, c: nat, s: nat, manifest: Manifest, now: nat, accepted: bool)
    requires c !in w.calls
    ensures var after := Do(Do(Do(Do(w, Finish(c, s, manifest)), Read(c)), Mark(c, now)), Enqueue(c, accepted));
      if s !in w.t.sessions then Answers(w, after, c, SessionNotFound) && after.t == w.t
      else if !w.t.sessions[s].provisioning then Answers(w, after, c, InvalidTransition) && after.t == w.t
      else match Refusal(RowOf(w.t, s), manifest)
        case Some(outcome) => Answers(w, after, c, outcome) && after.t == w.t
        case None =>
          && Answers(w, after, c, if !w.t.sessions[s].machine then CorruptRecord else if !accepted then QueueRefused else Finished(true))
          && after.t == w.t.(rows := w.t.rows[s := w.t.rows[s].(completed := Some(now))], winners := w.t.winners[s := c],
                             queue := w.t.queue + if w.t.sessions[s].machine && accepted then [s] else [])
  {
    hide Judged, Do, Refusal;
    ReadingComesTo(RowOf(w.t, s), manifest);
    var begun := Do(w, Finish(c, s, manifest));
    AskingComesTo(w, c, s, manifest);
    if begun.calls[c].Over? {
      StaysOver(begun, Read(c));
      StaysOver(begun, Mark(c, now));
      StaysOver(begun, Enqueue(c, accepted));
    } else {
      ReadComesTo(begun, c, s, manifest);
      var read := Do(begun, Read(c));
      if read.calls[c].Over? {
        StaysOver(read, Mark(c, now));
        StaysOver(read, Enqueue(c, accepted));
      } else {
        RefusesOrMarks(RowOf(w.t, s), manifest);
        MarkComesTo(read, c, s, manifest, now, accepted);
      }
    }
  }

  lemma AskingComesTo(w: World, c: nat, s: nat, manifest: Manifest)
    requires c !in w.calls
    ensures Do(w, Finish(c, s, manifest)) == w.(calls := w.calls[c :=
      if s !in w.t.sessions then Over(SessionNotFound)
      else if !w.t.sessions[s].provisioning then Over(InvalidTransition) else Reading(s, manifest)])
  {
    hide Judged;
  }

  lemma RefusesOrMarks(row: Option<Row>, manifest: Manifest)
    requires Refusal(row, manifest).None?
    ensures row.Some? && row.value.completed.None?
  {
  }

  lemma MarkComesTo(w: World, c: nat, s: nat, manifest: Manifest, now: nat, accepted: bool)
    requires c in w.calls && w.calls[c] == Marking(s, manifest) && s in w.t.sessions && Open(w, s)
    ensures var after := Do(Do(w, Mark(c, now)), Enqueue(c, accepted));
      && Answers(w, after, c, if !w.t.sessions[s].machine then CorruptRecord else if !accepted then QueueRefused else Finished(true))
      && after.t == w.t.(rows := w.t.rows[s := w.t.rows[s].(completed := Some(now))], winners := w.t.winners[s := c],
                         queue := w.t.queue + if w.t.sessions[s].machine && accepted then [s] else [])
  {
    hide Judged;
  }

  lemma ReadComesTo(w: World, c: nat, s: nat, manifest: Manifest)
    requires c in w.calls && w.calls[c] == Reading(s, manifest)
    ensures var read := Do(w, Read(c));
      read == w.(calls := w.calls[c := Answering(Judged(RowOf(w.t, s), manifest), Marking(s, manifest))])
  {
    hide Judged;
  }

  // ── Which sessions get their job ──

  /** The call that completed a handoff is still to queue its job, or over. */
  predicate JobDone(w: World, s: nat)
  {
    && (s in w.t.winners && w.t.winners[s] in w.calls ==>
          w.calls[w.t.winners[s]] == Enqueuing(s) || w.calls[w.t.winners[s]].Over?)
    && (s in w.t.rows ==>
          (s in w.t.queue <==> s in w.t.winners && w.t.winners[s] in w.calls && w.calls[w.t.winners[s]] == Over(Finished(true))))
    && (s in w.t.sessions && !w.t.sessions[s].source ==> (s in w.t.queue <==> w.t.sessions[s].created))
  }

  lemma StepKeepsJobDone(w: World, step: Step, s: nat)
    requires Inv(w) && JobDone(w, s)
    ensures JobDone(Do(w, step), s)
  {
    hide Judged, Admitted, JobDone, Do;
    Facts(w, if ByCall(step) then step.call else 0, s);
    if s in w.t.winners { Facts(w, w.t.winners[s], s); }
    if !ByCall(step) {
      OpeningKeepsJob(w, step, s);
    } else if step.Upload? || step.Put? || step.Record? {
      UploadKeepsJob(w, step, s);
    } else if step.Mark? {
      MarkKeepsJob(w, step, s);
    } else {
      FinishKeepsJob(w, step, s);
    }
  }

  lemma OpeningKeepsJob(w: World, step: Step, s: nat)
    requires !ByCall(step) && JobDone(w, s) && JobInv(w, s) && (s in w.t.rows ==> RowInv(w, s))
    ensures JobDone(Do(w, step), s)
  {
  }

  lemma UploadKeepsJob(w: World, step: Step, s: nat)
    requires (step.Upload? || step.Put? || step.Record?) && JobDone(w, s) && JobInv(w, s)
    ensures JobDone(Do(w, step), s)
  {
    hide Finishes, Admitted, FactOf;
  }

  lemma MarkKeepsJob(w: World, step: Step, s: nat)
    requires step.Mark? && JobDone(w, s) && JobInv(w, s)
    requires s in w.t.rows ==> RowInv(w, s)
    ensures JobDone(Do(w, step), s)
  {
    hide Uploads, Judged;
  }

  lemma FinishKeepsJob(w: World, step: Step, s: nat)
    requires (step.Finish? || step.Read? || step.Enqueue?) && JobDone(w, s) && JobInv(w, s)
    requires s in w.t.rows ==> RowInv(w, s)
    requires step.call in w.calls ==> CallInv(w, step.call)
    ensures JobDone(Do(w, step), s)
  {
    hide Uploads, Judged;
  }

  /** In every run a handoff's machine has its job in the queue exactly if the call that completed
      it was answered so, and any other session's exactly once it is created. */
  lemma {:induction false} JobsFollowTheirCompletion(steps: seq<Step>, s: nat)
    ensures JobDone(Run(steps), s)
  {
    hide Do, JobDone;
    if steps == [] {
      NoJobs(s);
    } else {
      JobsFollowTheirCompletion(steps[..|steps| - 1], s);
      RunKeeps(steps[..|steps| - 1]);
      StepKeepsJobDone(Run(steps[..|steps| - 1]), steps[|steps| - 1], s);
    }
  }

  lemma NoJobs(s: nat)
    ensures JobDone(Run([]), s)
  {
  }
}
