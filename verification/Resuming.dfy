/** How a machine gets back in step with its room (crates/api/src/host_room.rs): what the room
    answers a batch, told in attaches and frames applied, and how polling keeps a host present. */
module Resuming {
  import opened Prelude
  import opened HostRoom
  import opened CommandFeed
  import opened HostRoomRuns
  import opened Mailbox
  import opened CommandStreams

  function Attaches(steps: seq<Step>): nat
  {
    if steps == [] then 0 else Attaches(steps[..|steps| - 1]) + if steps[|steps| - 1].Attach? then 1 else 0
  }

  /** The epoch in force is the number of attaches there have been. */
  lemma {:induction false} EpochCountsAttaches(steps: seq<Step>)
    ensures Epoch(Run(steps).room) == Attaches(steps)
    ensures Run(steps).room.presence.Some? <==> Attaches(steps) > 0
  {
    hide Taken, Kept, Owed, NumberFresh;
    if steps != [] {
      var init, step := steps[..|steps| - 1], steps[|steps| - 1];
      EpochCountsAttaches(init);
      if step.Post? && Verdict(Run(init).room, step.batch) == Accepted {
        TakenFrames(Run(init).room, step.batch, step.now);
      }
    }
  }

  /** What a batch is answered: taken exactly if it is of the latest attach and leaves no gap
      after the frames of that attach applied so far; otherwise told which attach is in force,
      or which frame comes next. */
  lemma BatchIsTakenExactlyInStep(client: nat -> seq<string>, steps: seq<Step>, batch: Batch)
    requires FromClient(client, steps)
    ensures var applied := |EpochLog(Run(steps).history, batch.epoch)|;
      Verdict(Run(steps).room, batch) ==
        if Attaches(steps) == 0 then NotAttached
        else if batch.epoch != Attaches(steps) then EpochStale(Attaches(steps))
        else if batch.fromSeq > applied + 1 then FramesGap(applied + 1)
        else Accepted
  {
    hide Run, FromClient;
    EpochCountsAttaches(steps);
    FramesApplyExactlyOnce(client, steps, batch.epoch);
  }

  /** A machine told of a gap resumes there: every frame it sends from the frame named is taken
      and is new. */
  lemma GapsSayWhereToResume(client: nat -> seq<string>, steps: seq<Step>, batch: Batch, again: Batch)
    requires FromClient(client, steps) && Verdict(Run(steps).room, batch).FramesGap?
    requires again.epoch == batch.epoch && again.fromSeq == Verdict(Run(steps).room, batch).next
    ensures Verdict(Run(steps).room, again) == Accepted && Fresh(Run(steps).room, again) == again.frames
  {
    hide Run, FromClient;
    BatchIsTakenExactlyInStep(client, steps, batch);
    BatchIsTakenExactlyInStep(client, steps, again);
    FramesApplyExactlyOnce(client, steps, batch.epoch);
  }

  // ── Staying present ──

  /** The latest time any step was given. */
  function Clock(steps: seq<Step>): nat
  {
    if steps == [] then 0
    else
      var before, step := Clock(steps[..|steps| - 1]), steps[|steps| - 1];
      if step.Open? then before else Max(before, step.now)
  }

  predicate Rising(steps: seq<Step>)
  {
    steps == [] ||
    var init, step := steps[..|steps| - 1], steps[|steps| - 1];
    Rising(init) && (step.Open? || step.now >= Clock(init))
  }

  /** A stream of the attach in force last touched presence no later than the last contact. */
  ghost predicate TouchesAreContacts(s: Site, contact: Option<nat>)
  {
    forall f :: f in s.streams && s.streams[f].feed.epoch == Epoch(s.room)
      ==> contact.Some? && s.streams[f].feed.lastTouch <= contact.value
  }

  lemma StepKeepsTouches(s: Site, step: Step, contact: Option<nat>, clock: nat)
    requires StreamsInv(s) && PresentSince(s.room, contact) && TouchesAreContacts(s, contact)
    requires contact.Some? ==> contact.value <= clock
    requires step.Open? || step.now >= clock
    ensures TouchesAreContacts(Do(s, step), if Contact(s, step).Some? then Contact(s, step) else contact)
  {
    hide Kept, Taken, Owed, NumberFresh, NeverSkips, EndsOnce;
    var after := Do(s, step);
    if step.Post? && Verdict(s.room, step.batch).Accepted? {
      TakenFrames(s.room, step.batch, step.now);
    }
    forall f | f in after.streams && after.streams[f].feed.epoch == Epoch(after.room)
      ensures contact.Some? || Contact(s, step).Some?
      ensures after.streams[f].feed.lastTouch <= if Contact(s, step).Some? then Contact(s, step).value else contact.value
    {
      if f in s.streams {
        assert StreamInv(s.room, s.streams[f]);
      }
    }
  }

  lemma {:induction false} RunKeepsTouches(steps: seq<Step>)
    requires Rising(steps)
    ensures TouchesAreContacts(Run(steps), LastContact(steps))
    ensures LastContact(steps).Some? ==> LastContact(steps).value <= Clock(steps)
  {
    hide Do, StreamsInv, TouchesAreContacts, PresentSince;
    if steps == [] {
      NoStreams();
    } else {
      var init, step := steps[..|steps| - 1], steps[|steps| - 1];
      RunKeepsTouches(init);
      RunKeepsStreams(init);
      PresenceIsTheLastContact(init, 0);
      StepKeepsTouches(Run(init), step, LastContact(init), Clock(init));
    }
  }

  lemma NoStreams()
    ensures TouchesAreContacts(Run([]), LastContact([]))
  {
  }

  /** A poll of the stream in force that nothing fails leaves its host present for at least
      twenty-one seconds more, whether or not it was due to renew. */
  lemma PollingKeepsAHostPresent(steps: seq<Step>, f: nat, now: nat)
    requires Rising(steps) && now >= Clock(steps)
    requires f in Run(steps).streams && !Run(steps).streams[f].ended
    requires Run(steps).streams[f].feed.epoch == Epoch(Run(steps).room)
    ensures Live(Do(Run(steps), PollStream(f, now, NoFault)).room, now + 21)
  {
    hide Run, Kept, Owed, LastContact, NeverSkips, EndsOnce;
    RunKeepsStreams(steps);
    RunKeepsTouches(steps);
    PresenceIsTheLastContact(steps, now);
  }

  lemma StepKeepsTouch(s: Site, step: Step, f: nat)
    requires f in s.streams && (step.PollStream? ==> s.streams[f].feed.lastTouch <= step.now)
    ensures f in Do(s, step).streams && s.streams[f].feed.lastTouch <= Do(s, step).streams[f].feed.lastTouch
  {
    hide Kept, Taken, Owed, NumberFresh;
  }

  lemma {:induction false} TouchesRise(steps: seq<Step>, more: seq<Step>, f: nat)
    requires Rising(steps + more) && f in Run(steps).streams && Run(steps).streams[f].feed.lastTouch <= Clock(steps)
    ensures f in Run(steps + more).streams
    ensures Run(steps).streams[f].feed.lastTouch <= Run(steps + more).streams[f].feed.lastTouch <= Clock(steps + more)
  {
    hide Do;
    if more == [] {
      assert steps + more == steps;
    } else {
      var init, step := more[..|more| - 1], more[|more| - 1];
      assert (steps + more)[..|steps + more| - 1] == steps + init;
      TouchesRise(steps, init, f);
      StepKeepsTouch(Run(steps + init), step, f);
      TouchIsNoLater(Run(steps + init), step, f);
    }
  }

  lemma TouchIsNoLater(s: Site, step: Step, f: nat)
    requires f in s.streams
    ensures f in Do(s, step).streams
    ensures Do(s, step).streams[f].feed.lastTouch == s.streams[f].feed.lastTouch
      || (step.PollStream? && Do(s, step).streams[f].feed.lastTouch == step.now)
  {
    hide Kept, Taken, Owed, NumberFresh;
  }

  lemma {:induction false} TouchedByTheClock(steps: seq<Step>, f: nat)
    requires Rising(steps) && f in Run(steps).streams
    ensures Run(steps).streams[f].feed.lastTouch <= Clock(steps)
  {
    hide Kept, Taken, Owed, NumberFresh, Polled;
    var init, step := steps[..|steps| - 1], steps[|steps| - 1];
    if f in Run(init).streams {
      TouchedByTheClock(init, f);
      TouchIsNoLater(Run(init), step, f);
    }
  }

  /** A stream writes presence at most once in ten seconds: whatever happens after a poll that
      renewed it, a poll less than ten seconds later leaves the room as it is. */
  lemma StreamsRenewEveryTenSeconds(steps: seq<Step>, f: nat, now: nat, fault: Fault, more: seq<Step>, later: nat, another: Fault)
    requires Rising(steps + [PollStream(f, now, fault)] + more)
    requires f in Run(steps).streams && Contact(Run(steps), PollStream(f, now, fault)).Some?
    requires Clock(steps + [PollStream(f, now, fault)] + more) <= later < now + 10
    ensures var s := Run(steps + [PollStream(f, now, fault)] + more); Do(s, PollStream(f, later, another)).room == s.room
  {
    var polled := steps + [PollStream(f, now, fault)];
    assert polled[..|steps|] == steps;
    RenewalTouches(Run(steps), f, now, fault);
    RisingBefore(polled, more);
    TouchedByTheClock(polled, f);
    TouchesRise(polled, more, f);
    NotDueYet(Run(polled + more), f, later, another);
  }

  lemma {:induction false} RisingBefore(steps: seq<Step>, more: seq<Step>)
    requires Rising(steps + more)
    ensures Rising(steps)
  {
    if more == [] {
      assert steps + more == steps;
    } else {
      assert (steps + more)[..|steps + more| - 1] == steps + more[..|more| - 1];
      RisingBefore(steps, more[..|more| - 1]);
    }
  }

  lemma RenewalTouches(s: Site, f: nat, now: nat, fault: Fault)
    requires f in s.streams && Contact(s, PollStream(f, now, fault)).Some?
    ensures var after := Do(s, PollStream(f, now, fault)); f in after.streams && after.streams[f].feed.lastTouch == now
  {
    hide Kept, Owed;
  }

  lemma NotDueYet(s: Site, f: nat, now: nat, fault: Fault)
    requires f in s.streams && now < s.streams[f].feed.lastTouch + 10
    ensures Do(s, PollStream(f, now, fault)).room == s.room
  {
    hide Kept, Owed;
  }

  /** A stream opens exactly for the latest attach, at the head of the mailbox. */
  lemma StreamsOpenForTheLatestAttach(steps: seq<Step>, f: nat, epoch: nat)
    requires f !in Run(steps).streams
    ensures var after := Do(Run(steps), Open(f, epoch));
      && (f in after.streams <==> epoch == Attaches(steps) && epoch > 0)
      && (f in after.streams ==> after.streams[f] == Stream(Feed(epoch, 0, false, 0), [], 0, false))
      && after.room == Run(steps).room && after.history == Run(steps).history
  {
    hide Run;
    EpochCountsAttaches(steps);
  }
}
