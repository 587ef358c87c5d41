/** What a completed handoff says about its payloads (crates/api/src/handoffs.rs, app.rs):
    when its checksums are the manifest's, and when they are the stored objects'. Each is
    given its exact condition, and a run on which it fails. */
module HandoffObjects {
  import opened Prelude
  import opened Handoffs
  import opened HandoffRuns

  // ── The manifest ──

  predicate RecordsTo(w: World, step: Step, s: nat)
  {
    step.Record? && step.call in w.calls && w.calls[step.call].Recording? && w.calls[step.call].session == s
  }

  /** No step of `more`, played after `steps`, records an upload for the session. */
  predicate NoUploadLands(steps: seq<Step>, more: seq<Step>, s: nat)
  {
    forall i :: 0 <= i < |more| ==> !RecordsTo(Run(steps + more[..i]), more[i], s)
  }

  predicate SameFacts(w: World, after: World, s: nat)
  {
    && s in w.t.rows && s in after.t.rows
    && after.t.rows[s].patch == w.t.rows[s].patch && after.t.rows[s].transcript == w.t.rows[s].transcript
  }

  lemma StepKeepsFacts(w: World, step: Step, s: nat)
    requires s in w.t.rows && !RecordsTo(w, step, s)
    ensures SameFacts(w, Do(w, step), s)
  {
    hide Judged, Admitted, FactOf;
  }

  lemma {:induction false} FactsStay(steps: seq<Step>, more: seq<Step>, s: nat)
    requires s in Run(steps).t.rows && NoUploadLands(steps, more, s)
    ensures SameFacts(Run(steps), Run(steps + more), s)
  {
    hide Run, Do, RecordsTo;
    RunMore(steps, more);
    if more != [] {
      var n := |more| - 1;
      forall i | 0 <= i < n ensures !RecordsTo(Run(steps + more[..n][..i]), more[..n][i], s) {
        assert more[..n][..i] == more[..i];
      }
      FactsStay(steps, more[..n], s);
      StepKeepsFacts(Run(steps + more[..n]), more[n], s);
    }
  }

  /** When a call's `complete` answers true, the checksums it leaves, for good, are its
      manifest's, digest and size, exactly when those it read are still there at its update;
      so they are when no upload lands in between. A retry of its manifest then answers
      false. */
  lemma CompletedMatchesManifest(steps: seq<Step>, c: nat, s: nat, manifest: Manifest, between: seq<Step>, now: nat, later: seq<Step>)
    requires c in Run(steps).calls && Run(steps).calls[c] == Reading(s, manifest)
    requires Judged(RowOf(Run(steps).t, s), manifest).None?
    requires var w := Run(steps + [Read(c)] + between);
      c in w.calls && w.calls[c] == Marking(s, manifest) && s in w.t.rows && !Complete(w, s)
    ensures var after := Run(steps + [Read(c)] + between + [Mark(c, now)] + later);
      && Complete(after, s) && s in after.t.winners && after.t.winners[s] == c
      && (Same(after.t.rows[s], manifest) <==> SameFacts(Run(steps), Run(steps + [Read(c)] + between), s))
      && (NoUploadLands(steps + [Read(c)], between, s) ==> Same(after.t.rows[s], manifest))
      && (Same(after.t.rows[s], manifest) ==> Judged(RowOf(after.t, s), manifest) == Some(Finished(false)))
  {
    hide Run, Claimed;
    var read := steps + [Read(c)];
    assert [Read(c)][..0] == [] && steps + [] == steps;
    RunMore(steps, [Read(c)]);
    StepKeepsFacts(Run(steps), Read(c), s);
    var marked := read + between + [Mark(c, now)];
    assert [Mark(c, now)][..0] == [] && read + between + [] == read + between;
    RunMore(read + between, [Mark(c, now)]);
    CompletionIsFinal(marked, later, s);
    if NoUploadLands(read, between, s) {
      FactsStay(read, between, s);
    }
  }

  // ── The stored objects ──

  predicate Putter(w: World, c: nat, s: nat, payload: Payload)
  {
    c in w.calls && w.calls[c].Putting? && w.calls[c].session == s && w.calls[c].payload == payload
  }

  predicate Unrecorded(w: World, c: nat, s: nat, payload: Payload)
  {
    c in w.calls && w.calls[c].Recording? && w.calls[c].session == s && w.calls[c].payload == payload
  }

  /** What a step writes to an object, whoever takes it. */
  function Written(w: World, step: Step, s: nat, payload: Payload): Option<Body>
  {
    if step.Put? && Putter(w, step.call, s, payload) then Some(w.calls[step.call].body)
    else if step.StorePatch? && step.session == s && payload == Patch && s in w.t.sessions then Some(step.body)
    else None
  }

  /** What a step records of an object; a record that matches no pending row records nothing. */
  function RecordedBy(w: World, step: Step, s: nat, payload: Payload): Option<Body>
  {
    if step.Record? && Unrecorded(w, step.call, s, payload) && s in w.t.rows && w.t.rows[s].completed.None?
    then Some(w.calls[step.call].body) else None
  }

  /** The body last written to an object in a run, and the body last recorded of it. */
  function LastWritten(steps: seq<Step>, s: nat, payload: Payload): Option<Body>
  {
    if steps == [] then None
    else
      var n := |steps| - 1;
      var body := Written(Run(steps[..n]), steps[n], s, payload);
      if body.Some? then body else LastWritten(steps[..n], s, payload)
  }

  function LastRecorded(steps: seq<Step>, s: nat, payload: Payload): Option<Body>
  {
    if steps == [] then None
    else
      var n := |steps| - 1;
      var body := RecordedBy(Run(steps[..n]), steps[n], s, payload);
      if body.Some? then body else LastRecorded(steps[..n], s, payload)
  }

  function StoredBody(w: World, s: nat, payload: Payload): Option<Body>
  {
    if (s, payload) in w.t.storage then Some(w.t.storage[(s, payload)]) else None
  }

  function RecordedFact(w: World, s: nat, payload: Payload): Option<Fact>
  {
    if s in w.t.rows then Recorded(w.t.rows[s], payload) else None
  }

  lemma StepWrites(w: World, step: Step, s: nat, payload: Payload)
    ensures StoredBody(Do(w, step), s, payload)
         == if Written(w, step, s, payload).Some? then Written(w, step, s, payload) else StoredBody(w, s, payload)
  {
    hide FactOf, Judged, Admitted, Claimed, Answering;
  }

  lemma StepRecords(w: World, step: Step, s: nat, payload: Payload)
    ensures RecordedFact(Do(w, step), s, payload)
         == match RecordedBy(w, step, s, payload) case Some(body) => Some(FactOf(body)) case None => RecordedFact(w, s, payload)
  {
    hide FactOf, Judged, Admitted, Claimed, Answering;
  }

  /** An object holds what was last written to it, and its row what was last recorded. */
  lemma {:induction false} ObjectsAreHistory(steps: seq<Step>, s: nat, payload: Payload)
    ensures StoredBody(Run(steps), s, payload) == LastWritten(steps, s, payload)
    ensures RecordedFact(Run(steps), s, payload)
         == match LastRecorded(steps, s, payload) case Some(body) => Some(FactOf(body)) case None => None
  {
    hide Do, Written, RecordedBy, FactOf;
    if steps != [] {
      var n := |steps| - 1;
      ObjectsAreHistory(steps[..n], s, payload);
      StepWrites(Run(steps[..n]), steps[n], s, payload);
      StepRecords(Run(steps[..n]), steps[n], s, payload);
    }
  }

  /** A body is recorded only after some upload wrote the object. */
  ghost predicate WrittenFirst(w: World, s: nat, payload: Payload)
  {
    && (RecordedFact(w, s, payload).Some? ==> (s, payload) in w.t.storage)
    && forall c :: Unrecorded(w, c, s, payload) ==> (s, payload) in w.t.storage
  }

  lemma StepKeepsWritten(w: World, step: Step, s: nat, payload: Payload)
    requires WrittenFirst(w, s, payload)
    ensures WrittenFirst(Do(w, step), s, payload)
  {
    hide FactOf, Do, RecordedFact, Written, Unrecorded;
    StepWrites(w, step, s, payload);
    StepRecords(w, step, s, payload);
    RecordsTheUnrecorded(w, step, s, payload);
    forall c | Unrecorded(Do(w, step), c, s, payload) ensures (s, payload) in Do(w, step).t.storage {
      UnrecordedWasWritten(w, step, s, payload, c);
    }
  }

  lemma RecordsTheUnrecorded(w: World, step: Step, s: nat, payload: Payload)
    ensures RecordedBy(w, step, s, payload).Some? ==> step.Record? && Unrecorded(w, step.call, s, payload)
  {
  }

  lemma UnrecordedWasWritten(w: World, step: Step, s: nat, payload: Payload, c: nat)
    requires Unrecorded(Do(w, step), c, s, payload)
    ensures Unrecorded(w, c, s, payload) || Written(w, step, s, payload).Some?
  {
    hide FactOf, Admitted, Claimed;
  }

  lemma {:induction false} RunKeepsWritten(steps: seq<Step>, s: nat, payload: Payload)
    ensures WrittenFirst(Run(steps), s, payload)
  {
    hide Do;
    if steps != [] {
      RunKeepsWritten(steps[..|steps| - 1], s, payload);
      StepKeepsWritten(Run(steps[..|steps| - 1]), steps[|steps| - 1], s, payload);
    }
  }

  lemma FactsTellBodies(a: Body, b: Body)
    ensures FactOf(a) == FactOf(b) <==> a == b
  {
  }

  /** Both objects of a completed handoff are stored, and one has the checksum its row keeps
      exactly if the body last written to it, by whomever, is the body last recorded. */
  lemma CompletedMatchesStorage(steps: seq<Step>, s: nat, payload: Payload)
    requires Complete(Run(steps), s)
    ensures var w := Run(steps);
      && (s, payload) in w.t.storage
      && (Recorded(w.t.rows[s], payload) == Some(FactOf(w.t.storage[(s, payload)]))
          <==> LastWritten(steps, s, payload) == LastRecorded(steps, s, payload))
  {
    hide Run, FactOf, LastWritten, LastRecorded;
    RunKeeps(steps);
    Facts(Run(steps), 0, s);
    ObjectsAreHistory(steps, s, payload);
    RunKeepsWritten(steps, s, payload);
    FactsTellBodies(Run(steps).t.storage[(s, payload)], LastRecorded(steps, s, payload).value);
  }

  /** The daemon writes to where the patch lies at any time: from any completed handoff, one
      write of anything but the recorded patch leaves the checksum of another body. */
  lemma DaemonReplacesThePatch(steps: seq<Step>, s: nat, body: Body)
    requires Complete(Run(steps), s)
    ensures var w := Run(steps + [StorePatch(s, body)]);
      && Complete(w, s) && (s, Patch) in w.t.storage && w.t.storage[(s, Patch)] == body
      && (Recorded(w.t.rows[s], Patch) == Some(FactOf(body)) <==> LastRecorded(steps, s, Patch) == Some(body))
    ensures AllApart(steps) ==> AllApart(steps + [StorePatch(s, body)])
  {
    hide Run, FactOf, Written, RecordedBy;
    var more := steps + [StorePatch(s, body)];
    assert more[..|steps|] == steps;
    RunMore(steps, [StorePatch(s, body)]);
    assert steps + [] == steps && [StorePatch(s, body)][..0] == [];
    CompletionIsFinal(steps, [StorePatch(s, body)], s);
    RunKeeps(steps);
    Facts(Run(steps), 0, s);
    ObjectsAreHistory(steps, s, Patch);
    FactsTellBodies(body, LastRecorded(steps, s, Patch).value);
    forall i | 0 <= i < |more| && AllApart(steps) ensures Apart(Run(more[..i]), more[i]) {
      assert i < |steps| ==> more[..i] == steps[..i] && more[i] == steps[i];
    }
  }

  // ── Uploads that keep apart ──

  /** Each upload records what it put before another puts the same object or the handoff is
      completed, and none puts after. */
  ghost predicate Apart(w: World, step: Step)
  {
    match step
    case Put(c) =>
      c in w.calls && w.calls[c].Putting? ==>
        && !Complete(w, w.calls[c].session)
        && forall d :: !Unrecorded(w, d, w.calls[c].session, w.calls[c].payload)
    case Mark(c, _) =>
      c in w.calls && w.calls[c].Marking? ==>
        forall d, payload :: !Unrecorded(w, d, w.calls[c].session, payload)
    case _ => true
  }

  ghost predicate AllApart(steps: seq<Step>)
  {
    forall i :: 0 <= i < |steps| ==> Apart(Run(steps[..i]), steps[i])
  }

  predicate NoDaemonPatch(steps: seq<Step>, s: nat)
  {
    forall step :: step in steps && step.StorePatch? ==> step.session != s
  }

  ghost predicate ObjectInv(w: World, s: nat, payload: Payload)
  {
    && (forall c, d :: Unrecorded(w, c, s, payload) && Unrecorded(w, d, s, payload) ==> c == d)
    && (forall c :: Unrecorded(w, c, s, payload) ==>
         !Complete(w, s) && (s, payload) in w.t.storage && w.t.storage[(s, payload)] == w.calls[c].body)
    && (s in w.t.rows && Recorded(w.t.rows[s], payload).Some? && (forall c :: !Unrecorded(w, c, s, payload)) ==>
         (s, payload) in w.t.storage && Recorded(w.t.rows[s], payload) == Some(FactOf(w.t.storage[(s, payload)])))
  }

  /** A step that does not touch the object: neither puts nor records it, nor completes. */
  predicate Untouched(w: World, after: World, s: nat, payload: Payload)
  {
    && (s in after.t.rows ==> if s in w.t.rows then Recorded(after.t.rows[s], payload) == Recorded(w.t.rows[s], payload)
         else Recorded(after.t.rows[s], payload).None?)
    && Complete(after, s) == Complete(w, s)
    && ((s, payload) in w.t.storage <==> (s, payload) in after.t.storage)
    && ((s, payload) in w.t.storage ==> after.t.storage[(s, payload)] == w.t.storage[(s, payload)])
  }

  predicate SameCall(w: World, after: World, c: nat, s: nat, payload: Payload)
  {
    && Unrecorded(w, c, s, payload) == Unrecorded(after, c, s, payload)
    && (Unrecorded(w, c, s, payload) ==> after.calls[c] == w.calls[c])
  }

  lemma UntouchedKeeps(w: World, after: World, s: nat, payload: Payload)
    requires ObjectInv(w, s, payload) && Untouched(w, after, s, payload)
    requires forall c :: SameCall(w, after, c, s, payload)
    ensures ObjectInv(after, s, payload)
  {
    hide FactOf, Recorded, Complete;
    forall c ensures Unrecorded(w, c, s, payload) == Unrecorded(after, c, s, payload) {
      assert SameCall(w, after, c, s, payload);
    }
    forall c | Unrecorded(after, c, s, payload) ensures after.calls[c] == w.calls[c] {
      assert SameCall(w, after, c, s, payload);
    }
  }

  lemma SessionSteps(w: World, step: Step, s: nat, payload: Payload, c: nat)
    requires step.Create? || step.CreatePending? || step.Reserve? || step.Open? || step.Leave? || step.Enqueue?
    ensures Untouched(w, Do(w, step), s, payload) && SameCall(w, Do(w, step), c, s, payload)
  {
    hide FactOf, Judged, Admitted, Claimed;
  }

  lemma DaemonSteps(w: World, step: Step, s: nat, payload: Payload, c: nat)
    requires step.StorePatch? && !(step.session == s && payload == Patch)
    ensures Untouched(w, Do(w, step), s, payload) && SameCall(w, Do(w, step), c, s, payload)
  {
  }

  lemma CallSteps(w: World, step: Step, s: nat, payload: Payload, c: nat)
    requires step.Upload? || step.Finish? || step.Read?
    ensures Untouched(w, Do(w, step), s, payload) && SameCall(w, Do(w, step), c, s, payload)
  {
    hide FactOf, Judged, Admitted, Claimed, Answering;
  }

  lemma PutStep(w: World, c: nat, s: nat, payload: Payload, d: nat)
    ensures var after := Do(w, Put(c));
      && (c != d || !Putter(w, c, s, payload) ==> SameCall(w, after, d, s, payload))
      && Complete(after, s) == Complete(w, s)
      && if Putter(w, c, s, payload) then
           && Unrecorded(after, c, s, payload)
           && (s, payload) in after.t.storage && after.t.storage[(s, payload)] == after.calls[c].body
         else Untouched(w, after, s, payload)
  {
    hide FactOf;
  }

  lemma PutKeeps(w: World, c: nat, s: nat, payload: Payload)
    requires ObjectInv(w, s, payload) && Apart(w, Put(c))
    ensures ObjectInv(Do(w, Put(c)), s, payload)
  {
    hide FactOf, Do, SameCall, Untouched, Unrecorded, Recorded, Complete;
    var after := Do(w, Put(c));
    forall d ensures c != d || !Putter(w, c, s, payload) ==> SameCall(w, after, d, s, payload) { PutStep(w, c, s, payload, d); }
    PutStep(w, c, s, payload, c);
    if Putter(w, c, s, payload) {
      forall d | Unrecorded(after, d, s, payload) ensures d == c {
        if d != c { OnlySame(w, after, d, s, payload); }
      }
    } else {
      UntouchedKeeps(w, after, s, payload);
    }
  }

  lemma OnlySame(w: World, after: World, c: nat, s: nat, payload: Payload)
    requires SameCall(w, after, c, s, payload)
    ensures Unrecorded(w, c, s, payload) == Unrecorded(after, c, s, payload)
  {
  }

  lemma RecordStep(w: World, c: nat, s: nat, payload: Payload, d: nat)
    ensures var after := Do(w, Record(c));
      && (c != d || !Unrecorded(w, c, s, payload) ==> SameCall(w, after, d, s, payload))
      && Complete(after, s) == Complete(w, s)
      && if Unrecorded(w, c, s, payload) then
           && !Unrecorded(after, c, s, payload) && after.t.storage == w.t.storage
           && (s in after.t.rows <==> s in w.t.rows)
           && (s in w.t.rows && !Complete(w, s) ==> Recorded(after.t.rows[s], payload) == Some(FactOf(w.calls[c].body)))
         else Untouched(w, after, s, payload)
  {
    hide FactOf;
  }

  lemma RecordKeeps(w: World, c: nat, s: nat, payload: Payload)
    requires ObjectInv(w, s, payload)
    ensures ObjectInv(Do(w, Record(c)), s, payload)
  {
    hide FactOf, Do, SameCall, Untouched, Recorded, Complete;
    var after := Do(w, Record(c));
    forall d ensures c != d || !Unrecorded(w, c, s, payload) ==> SameCall(w, after, d, s, payload) { RecordStep(w, c, s, payload, d); }
    RecordStep(w, c, s, payload, c);
    if Unrecorded(w, c, s, payload) {
      forall d ensures !Unrecorded(after, d, s, payload) {
        if d != c { OnlySame(w, after, d, s, payload); }
      }
    } else {
      UntouchedKeeps(w, after, s, payload);
    }
  }

  lemma MarkStep(w: World, c: nat, now: nat, s: nat, payload: Payload, d: nat)
    ensures var after := Do(w, Mark(c, now));
      && SameCall(w, after, d, s, payload)
      && after.t.storage == w.t.storage
      && (s in after.t.rows <==> s in w.t.rows)
      && (s in w.t.rows ==> Recorded(after.t.rows[s], payload) == Recorded(w.t.rows[s], payload))
      && ((c in w.calls && w.calls[c].Marking? && w.calls[c].session == s) || Untouched(w, after, s, payload))
  {
  }

  lemma MarkKeeps(w: World, c: nat, now: nat, s: nat, payload: Payload)
    requires ObjectInv(w, s, payload) && Apart(w, Mark(c, now))
    ensures ObjectInv(Do(w, Mark(c, now)), s, payload)
  {
    hide FactOf, Do, SameCall, Untouched, Recorded, Complete, Unrecorded;
    var after := Do(w, Mark(c, now));
    forall d ensures SameCall(w, after, d, s, payload) { MarkStep(w, c, now, s, payload, d); }
    MarkStep(w, c, now, s, payload, c);
    if c in w.calls && w.calls[c].Marking? && w.calls[c].session == s {
      forall d ensures !Unrecorded(after, d, s, payload) {
        assert !Unrecorded(w, d, w.calls[c].session, payload);
        OnlySame(w, after, d, s, payload);
      }
    } else {
      UntouchedKeeps(w, after, s, payload);
    }
  }

  lemma StepKeepsObject(w: World, step: Step, s: nat, payload: Payload)
    requires ObjectInv(w, s, payload) && Apart(w, step)
    requires !(step.StorePatch? && step.session == s && payload == Patch)
    ensures ObjectInv(Do(w, step), s, payload)
  {
    hide ObjectInv, Untouched, SameCall, Do, Apart;
    match step
    case Put(c) => PutKeeps(w, c, s, payload);
    case Record(c) => RecordKeeps(w, c, s, payload);
    case Mark(c, now) => MarkKeeps(w, c, now, s, payload);
    case _ =>
      forall c ensures SameCall(w, Do(w, step), c, s, payload) && Untouched(w, Do(w, step), s, payload) {
        if step.Upload? || step.Finish? || step.Read? {
          CallSteps(w, step, s, payload, c);
        } else if step.StorePatch? {
          DaemonSteps(w, step, s, payload, c);
        } else {
          SessionSteps(w, step, s, payload, c);
        }
      }
      assert SameCall(w, Do(w, step), 0, s, payload) && Untouched(w, Do(w, step), s, payload);
      UntouchedKeeps(w, Do(w, step), s, payload);
  }

  lemma {:induction false} RunKeepsObject(steps: seq<Step>, s: nat, payload: Payload)
    requires AllApart(steps) && (payload == Patch ==> NoDaemonPatch(steps, s))
    ensures ObjectInv(Run(steps), s, payload)
  {
    hide Do, Apart;
    if steps != [] {
      var n := |steps| - 1;
      forall i | 0 <= i < n ensures Apart(Run(steps[..n][..i]), steps[..n][i]) {
        assert steps[..n][..i] == steps[..i];
      }
      hide Run;
      RunKeepsObject(steps[..n], s, payload);
      RunLast(steps);
      StepKeepsObject(Run(steps[..n]), steps[n], s, payload);
    }
  }

  lemma RunLast(steps: seq<Step>)
    requires steps != []
    ensures Run(steps) == Do(Run(steps[..|steps| - 1]), steps[|steps| - 1])
  {
  }

  /** So it matches while no upload overlaps another of the same object or a completion, and,
      for the patch, while the daemon writes none; nobody else writes the transcript. */
  lemma ApartMatchesStorage(steps: seq<Step>, s: nat, payload: Payload)
    requires AllApart(steps) && Complete(Run(steps), s) && (payload == Patch ==> NoDaemonPatch(steps, s))
    ensures LastWritten(steps, s, payload) == LastRecorded(steps, s, payload)
    ensures var w := Run(steps);
      && (s, payload) in w.t.storage
      && Recorded(w.t.rows[s], payload) == Some(FactOf(w.t.storage[(s, payload)]))
  {
    hide Run, AllApart, FactOf, LastWritten, LastRecorded;
    RunKeeps(steps);
    Facts(Run(steps), 0, s);
    RunKeepsObject(steps, s, payload);
    CompletedMatchesStorage(steps, s, payload);
  }

  // ── Where they fail ──

  const SENT: Body := [1]
  const HISTORY: Body := [2]
  const RIVAL: Body := [3]
  const MANIFEST: Manifest := Manifest(SENT, 1, HISTORY, 1)

  /** A session whose two uploads landed, its completion about to be marked, and one more
      upload of the patch already admitted. */
  const CONTENDED: World := World(
    Tables(
      map[0 := Session(true, true, true, false)],
      map[0 := Row("", Some(Fact(SENT, 1)), Some(Fact(HISTORY, 1)), 0, None)],
      map[(0, Patch) := SENT, (0, Transcript) := HISTORY],
      [],
      map[]),
    map[1 := Over(Stored), 2 := Over(Stored), 3 := Marking(0, MANIFEST), 4 := Putting(0, Patch, RIVAL)])

  lemma Next(steps: seq<Step>, step: Step) returns (more: seq<Step>)
    ensures more == steps + [step] && Run(more) == Do(Run(steps), step)
  {
    more := steps + [step];
    assert more[..|steps|] == steps;
  }

  lemma UploadThrough(steps: seq<Step>, c: nat, payload: Payload, body: Body) returns (more: seq<Step>)
    requires var w := Run(steps);
      0 in w.t.sessions && 0 in w.t.rows && w.t.rows[0].completed.None? && c !in w.calls && |body| == 1
    ensures var w := Run(steps);
      Run(more) == World(
        w.t.(storage := w.t.storage[(0, payload) := body], rows := w.t.rows[0 := Uploaded(w.t.rows[0], payload, body)]),
        w.calls[c := Over(Stored)])
  {
    hide Run, FactOf;
    more := Next(steps, Upload(c, 0, payload, body));
    more := Next(more, Put(c));
    more := Next(more, Record(c));
  }

  lemma Begin() returns (steps: seq<Step>)
    ensures Run(steps) == World(
      Tables(map[0 := Session(true, true, true, false)], map[0 := Row("", None, None, 0, None)], map[], [], map[]), map[])
  {
    hide Run;
    NoSteps();
    steps := Next([], Create(0, true));
    steps := Next(steps, CreatePending(0, "", 0));
    steps := Next(steps, Reserve(0));
  }

  lemma BothLand() returns (steps: seq<Step>)
    ensures Run(steps) == World(CONTENDED.t, map[1 := Over(Stored), 2 := Over(Stored)])
  {
    hide Run;
    steps := Begin();
    steps := UploadThrough(steps, 1, Patch, SENT);
    steps := UploadThrough(steps, 2, Transcript, HISTORY);
  }

  lemma Contend() returns (steps: seq<Step>)
    ensures Run(steps) == CONTENDED
  {
    hide Run;
    steps := BothLand();
    steps := Next(steps, Finish(3, 0, MANIFEST));
    steps := Next(steps, Read(3));
    steps := Next(steps, Upload(4, 0, Patch, RIVAL));
  }

  lemma Rivals()
    ensures Claimed(MANIFEST, Patch) == Fact(SENT, 1) && Claimed(MANIFEST, Transcript) == Fact(HISTORY, 1)
    ensures FactOf(RIVAL) != Fact(SENT, 1)
  {
    assert RIVAL[0] != SENT[0];
  }

  lemma NoSteps()
    ensures Run([]) == NOTHING
  {
  }

  /** An upload between `complete`'s read and its update leaves a handoff completed under
      checksums its manifest never named. */
  lemma RacingUploadBreaksTheManifest() returns (steps: seq<Step>)
    ensures var w := Run(steps);
      && Complete(w, 0) && 0 in w.t.winners && w.t.winners[0] == 3 && CONTENDED.calls[3] == Marking(0, MANIFEST)
      && !Same(w.t.rows[0], MANIFEST) && w.t.rows[0].patch == Some(FactOf(RIVAL))
  {
    hide Run, Judged, Admitted, FactOf, Claimed, Answering;
    Rivals();
    steps := Contend();
    steps := Next(steps, Put(4));
    steps := Next(steps, Record(4));
    steps := Next(steps, Mark(3, 0));
  }

  /** An upload admitted before completion that puts after it replaces the object under the
      checksum; its record is refused, and the object stays. */
  lemma LateUploadReplacesTheObject() returns (steps: seq<Step>)
    ensures var w := Run(steps);
      && Complete(w, 0) && Same(w.t.rows[0], MANIFEST)
      && (0, Patch) in w.t.storage && w.t.storage[(0, Patch)] == RIVAL
      && w.t.rows[0].patch != Some(FactOf(RIVAL))
      && 4 in w.calls && w.calls[4] == Over(NotPending)
  {
    hide Run, Judged, Admitted, FactOf, Claimed, Answering;
    Rivals();
    steps := Contend();
    steps := Next(steps, Mark(3, 0));
    steps := Next(steps, Put(4));
    steps := Next(steps, Record(4));
  }
}
