/** Runs of a host room against a network that drops, repeats, splits and reorders what the
    machine posts (crates/api/src/host_room.rs).

    `client(e)` is the stream of frames the machine numbers 1, 2, … in epoch `e`. Any slice
    of it may arrive as a batch, at any time, any number of times. */
module HostRoomRuns {
  import opened Prelude
  import opened HostRoom
  import opened CommandFeed

  /** What has happened to the mailbox: a job planned, a frame applied, or a revocation. */
  datatype Event =
    | Planned(container: string, job: nat)
    | Applied(epoch: nat, number: nat, frame: string)
    | Cleared

  /** A stream and what it has said: the rows handed over, and the supersession notice. */
  datatype Stream = Stream(feed: Feed, emitted: seq<Row>, notices: nat, ended: bool)

  datatype Site = Site(room: Room, history: seq<Event>, streams: map<nat, Stream>)

  datatype Step =
    | Attach(now: nat)
    | Post(batch: Batch, now: nat)
    | Dispatch(command: Command, now: nat)
    | Open(stream: nat, epoch: nat)
    | PollStream(stream: nat, now: nat, fault: Fault)

  function Said(stream: Stream, feed: Feed, poll: Poll): Stream
  {
    match poll
    case Emit(rows) => stream.(feed := feed, emitted := stream.emitted + rows)
    case Notice => stream.(feed := feed, notices := stream.notices + 1)
    case Idle => stream.(feed := feed)
    case End => stream.(feed := feed, ended := true)
  }

  /** The record of frames `through + 1`, `through + 2`, … being applied. */
  function NumberFresh(epoch: nat, through: nat, frames: seq<string>): (r: seq<Event>)
    ensures |r| == |frames|
    ensures forall i :: 0 <= i < |r| ==> r[i] == Applied(epoch, through + 1 + i, frames[i])
  {
    seq(|frames|, i requires 0 <= i < |frames| => Applied(epoch, through + 1 + i, frames[i]))
  }

  function Do(s: Site, step: Step): Site
  {
    match step
    case Attach(now) => s.(room := Attached(s.room, now))
    case Post(batch, now) =>
      if Verdict(s.room, batch) != Accepted then s
      else s.(room := Taken(s.room, batch, now),
              history := s.history + NumberFresh(batch.epoch, Through(s.room, batch.epoch), Fresh(s.room, batch)))
    case Dispatch(command, now) =>
      s.(room := Dispatched(s.room, command, now).1,
         history := s.history + match command {
           case RunJob(container, job) => [Planned(container, job)]
           case Revoked => [Cleared]
           case Superseded => []
         })
    case Open(f, epoch) =>
      if f in s.streams || s.room.presence.None? || s.room.presence.value.epoch != epoch then s
      else s.(streams := s.streams[f := Stream(Feed(epoch, 0, false, 0), [], 0, false)])
    case PollStream(f, now, fault) =>
      if f !in s.streams || s.streams[f].ended then s
      else
        var (room, feed, poll) := Polled(s.room, s.streams[f].feed, now, fault);
        s.(room := room, streams := s.streams[f := Said(s.streams[f], feed, poll)])
  }

  function Run(steps: seq<Step>): Site
  {
    if steps == [] then Site(Room([], 0, None, map[]), [], map[]) else Do(Run(steps[..|steps| - 1]), steps[|steps| - 1])
  }

  /** A batch holds frames `fromSeq`, `fromSeq + 1`, … of the machine's stream for its epoch. */
  predicate Slice(client: nat -> seq<string>, batch: Batch)
  {
    && 1 <= batch.fromSeq
    && batch.fromSeq - 1 + |batch.frames| <= |client(batch.epoch)|
    && batch.frames == client(batch.epoch)[batch.fromSeq - 1..batch.fromSeq - 1 + |batch.frames|]
  }

  predicate FromClient(client: nat -> seq<string>, steps: seq<Step>)
  {
    forall i :: 0 <= i < |steps| && steps[i].Post? ==> Slice(client, steps[i].batch)
  }

  // ── Frames: exactly once an epoch ──

  /** The attach in force; 0 before the first. */
  function Epoch(room: Room): nat
  {
    if room.presence.Some? then room.presence.value.epoch else 0
  }

  /** The frames applied in one epoch, in the order they were. */
  function EpochLog(history: seq<Event>, epoch: nat): seq<Event>
  {
    if history == [] then []
    else
      var last := history[|history| - 1];
      EpochLog(history[..|history| - 1], epoch) + if last.Applied? && last.epoch == epoch then [last] else []
  }

  /** Frames 1 to `n` of a stream, each once, in order. */
  function Numbered(epoch: nat, stream: seq<string>, n: nat): (r: seq<Event>)
    requires n <= |stream|
    ensures |r| == n
    ensures forall i :: 0 <= i < n ==> r[i] == Applied(epoch, i + 1, stream[i])
  {
    seq(n, i requires 0 <= i < n => Applied(epoch, i + 1, stream[i]))
  }

  ghost predicate AppliedUpTo(client: nat -> seq<string>, history: seq<Event>, epoch: nat, n: nat)
  {
    n <= |client(epoch)| && EpochLog(history, epoch) == Numbered(epoch, client(epoch), n)
  }

  ghost predicate SomePrefixApplied(client: nat -> seq<string>, history: seq<Event>, epoch: nat)
  {
    exists n: nat :: AppliedUpTo(client, history, epoch, n)
  }

  predicate WithinEpochs(history: seq<Event>, epoch: nat)
  {
    forall event :: event in history && event.Applied? ==> 1 <= event.epoch <= epoch
  }

  predicate EpochsRise(history: seq<Event>)
  {
    forall i, j :: 0 <= i < j < |history| && history[i].Applied? && history[j].Applied? ==>
      history[i].epoch <= history[j].epoch
  }

  ghost predicate FramesInv(client: nat -> seq<string>, s: Site)
  {
    && s.room.frames.Keys <= {Epoch(s.room)}
    && (s.room.presence.Some? ==> Epoch(s.room) >= 1)
    && (s.room.presence.None? ==> s.room.frames == map[])
    && AppliedUpTo(client, s.history, Epoch(s.room), Through(s.room, Epoch(s.room)))
    && (forall e: nat :: SomePrefixApplied(client, s.history, e))
    && WithinEpochs(s.history, Epoch(s.room))
    && EpochsRise(s.history)
  }

  lemma {:induction false} EpochLogAppend(history: seq<Event>, more: seq<Event>, epoch: nat)
    ensures EpochLog(history + more, epoch) == EpochLog(history, epoch) + EpochLog(more, epoch)
  {
    if more == [] {
      assert history + more == history;
    } else {
      assert (history + more)[..|history + more| - 1] == history + more[..|more| - 1];
      EpochLogAppend(history, more[..|more| - 1], epoch);
    }
  }

  predicate AllOf(history: seq<Event>, epoch: nat)
  {
    forall i :: 0 <= i < |history| ==> history[i].Applied? && history[i].epoch == epoch
  }

  predicate NoneOf(history: seq<Event>, epoch: nat)
  {
    forall i :: 0 <= i < |history| && history[i].Applied? ==> history[i].epoch != epoch
  }

  lemma {:induction false} LogOfOwn(history: seq<Event>, epoch: nat)
    requires AllOf(history, epoch)
    ensures EpochLog(history, epoch) == history
  {
    if history != [] {
      LogOfOwn(history[..|history| - 1], epoch);
      assert history == history[..|history| - 1] + [history[|history| - 1]];
    }
  }

  lemma {:induction false} LogOfOthers(history: seq<Event>, epoch: nat)
    requires NoneOf(history, epoch)
    ensures EpochLog(history, epoch) == []
  {
    if history != [] {
      LogOfOthers(history[..|history| - 1], epoch);
    }
  }

  /** Where an accepted slice leaves the count. */
  lemma FreshLength(client: nat -> seq<string>, room: Room, batch: Batch)
    requires Verdict(room, batch) == Accepted && Slice(client, batch)
    requires Through(room, batch.epoch) <= |client(batch.epoch)|
    ensures Through(room, batch.epoch) + |Fresh(room, batch)|
         == Max(SaturatingSub(batch.fromSeq + |batch.frames|, 1), Through(room, batch.epoch)) <= |client(batch.epoch)|
    ensures batch.frames == [] ==> Fresh(room, batch) == []
    ensures forall i :: 0 <= i < |Fresh(room, batch)| ==>
      Fresh(room, batch)[i] == client(batch.epoch)[Through(room, batch.epoch) + i]
  {
    var stream, through := client(batch.epoch), Through(room, batch.epoch);
    hide Through;
    var skip := through + 1 - batch.fromSeq;
    if skip <= |batch.frames| {
      assert Fresh(room, batch) == batch.frames[skip..];
      forall i | 0 <= i < |Fresh(room, batch)| ensures Fresh(room, batch)[i] == stream[through + i] {
        assert batch.frames[skip + i] == stream[batch.fromSeq - 1 + skip + i];
      }
    } else {
      assert Fresh(room, batch) == [];
    }
  }

  /** What an accepted slice adds is exactly the stream's next frames. */
  lemma FreshContinues(stream: seq<string>, epoch: nat, through: nat, frames: seq<string>)
    requires through + |frames| <= |stream|
    requires forall i :: 0 <= i < |frames| ==> frames[i] == stream[through + i]
    ensures Numbered(epoch, stream, through) + NumberFresh(epoch, through, frames) == Numbered(epoch, stream, through + |frames|)
  {
    hide Numbered, NumberFresh;
    var left := Numbered(epoch, stream, through) + NumberFresh(epoch, through, frames);
    forall i | 0 <= i < |left| ensures left[i] == Numbered(epoch, stream, through + |frames|)[i] {
      if i >= through {
        assert left[i] == NumberFresh(epoch, through, frames)[i - through];
        assert frames[i - through] == stream[i];
      }
    }
  }

  lemma {:induction false} AnsweringKeepsFrames(room: Room, frames: seq<string>)
    ensures AllAnswered(room, frames) == room.(commands := AllAnswered(room, frames).commands)
  {
    hide Kept, JobsOf;
    if frames != [] {
      AnsweringKeepsFrames(room, frames[..|frames| - 1]);
    }
  }

  lemma TakenFrames(room: Room, batch: Batch, now: nat)
    requires Verdict(room, batch) == Accepted
    ensures var after := Taken(room, batch, now);
      && after.presence.Some? && Epoch(after) == Epoch(room) && after.lastSeq == room.lastSeq
      && after.frames == if batch.frames == [] then room.frames
           else room.frames[batch.epoch := Max(SaturatingSub(batch.fromSeq + |batch.frames|, 1), Through(room, batch.epoch))]
  {
    hide AllAnswered, Kept;
    AnsweringKeepsFrames(room, Fresh(room, batch));
  }

  /** Frames of the epoch in force extend its log and no other's. */
  lemma FramesExtend(client: nat -> seq<string>, history: seq<Event>, epoch: nat, through: nat, frames: seq<string>)
    requires 1 <= epoch && AppliedUpTo(client, history, epoch, through)
    requires through + |frames| <= |client(epoch)|
    requires forall i :: 0 <= i < |frames| ==> frames[i] == client(epoch)[through + i]
    requires forall e: nat :: SomePrefixApplied(client, history, e)
    requires WithinEpochs(history, epoch) && EpochsRise(history)
    ensures var after := history + NumberFresh(epoch, through, frames);
      && AppliedUpTo(client, after, epoch, through + |frames|)
      && (forall e: nat :: SomePrefixApplied(client, after, e))
      && WithinEpochs(after, epoch) && EpochsRise(after)
  {
    hide EpochLog, Numbered, NumberFresh;
    var more := NumberFresh(epoch, through, frames);
    var after := history + more;
    forall event | event in more ensures event.Applied? && event.epoch == epoch {}
    forall e: nat ensures EpochLog(after, e) == EpochLog(history, e) + if e == epoch then more else [] {
      EpochLogAppend(history, more, e);
      if e == epoch { LogOfOwn(more, e); } else { LogOfOthers(more, e); }
    }
    FreshContinues(client(epoch), epoch, through, frames);
    assert AppliedUpTo(client, after, epoch, through + |frames|);
    forall e: nat ensures SomePrefixApplied(client, after, e) {
      if e != epoch {
        assert SomePrefixApplied(client, history, e);
        var n: nat :| AppliedUpTo(client, history, e, n);
        assert AppliedUpTo(client, after, e, n);
      }
    }
    forall i, j | 0 <= i < j < |after| && after[i].Applied? && after[j].Applied?
      ensures after[i].epoch <= after[j].epoch
    {
      if j >= |history| {
        assert after[j] == more[j - |history|];
        assert i < |history| ==> after[i] in history;
        assert i >= |history| ==> after[i] == more[i - |history|];
      }
    }
  }

  lemma PostKeepsFrames(client: nat -> seq<string>, s: Site, batch: Batch, now: nat)
    requires FramesInv(client, s) && Slice(client, batch)
    ensures FramesInv(client, Do(s, Post(batch, now)))
  {
    hide Taken, Numbered, NumberFresh, EpochLog, Fresh, Slice, WithinEpochs, EpochsRise, SomePrefixApplied, AppliedUpTo;
    if Verdict(s.room, batch) == Accepted {
      AppliedFits(client, s.history, batch.epoch, Through(s.room, batch.epoch));
      TakenFrames(s.room, batch, now);
      FreshLength(client, s.room, batch);
      FramesExtend(client, s.history, batch.epoch, Through(s.room, batch.epoch), Fresh(s.room, batch));
    }
  }

  lemma AppliedFits(client: nat -> seq<string>, history: seq<Event>, epoch: nat, n: nat)
    requires AppliedUpTo(client, history, epoch, n)
    ensures n <= |client(epoch)|
  {
  }

  lemma AttachKeepsFrames(client: nat -> seq<string>, s: Site, now: nat)
    requires FramesInv(client, s)
    ensures FramesInv(client, Do(s, Attach(now)))
  {
    hide EpochsRise, SomePrefixApplied, EpochLog;
    var next := Epoch(s.room) + 1;
    assert NoneOf(s.history, next);
    LogOfOthers(s.history, next);
    assert Numbered(next, client(next), 0) == [];
  }

  /** A step that applies no frame. */
  lemma QuietKeepsFrames(client: nat -> seq<string>, s: Site, after: Site, more: seq<Event>)
    requires FramesInv(client, s)
    requires after.history == s.history + more && forall event :: event in more ==> !event.Applied?
    requires after.room.frames == s.room.frames && Epoch(after.room) == Epoch(s.room)
    requires after.room.presence.Some? == s.room.presence.Some?
    ensures FramesInv(client, after)
  {
    hide EpochLog, Numbered;
    forall e: nat ensures EpochLog(after.history, e) == EpochLog(s.history, e) {
      EpochLogAppend(s.history, more, e);
      assert NoneOf(more, e);
      LogOfOthers(more, e);
    }
    forall e: nat ensures SomePrefixApplied(client, after.history, e) {
      assert SomePrefixApplied(client, s.history, e);
      var n: nat :| AppliedUpTo(client, s.history, e, n);
      assert AppliedUpTo(client, after.history, e, n);
    }
    forall i, j | 0 <= i < j < |after.history| && after.history[i].Applied? && after.history[j].Applied?
      ensures after.history[i].epoch <= after.history[j].epoch
    {
      assert after.history[j] in more || j < |s.history|;
    }
  }

  lemma StepKeepsFrames(client: nat -> seq<string>, s: Site, step: Step)
    requires FramesInv(client, s) && (step.Post? ==> Slice(client, step.batch))
    ensures FramesInv(client, Do(s, step))
  {
    hide FramesInv, Slice, Taken, Attached;
    match step
    case Attach(now) => AttachKeepsFrames(client, s, now);
    case Post(batch, now) => PostKeepsFrames(client, s, batch, now);
    case Dispatch(command, now) =>
      var more := match command {
        case RunJob(container, job) => [Planned(container, job)]
        case Revoked => [Cleared]
        case Superseded => []
      };
      QuietKeepsFrames(client, s, Do(s, step), more);
    case Open(f, epoch) =>
      assert s.history + [] == s.history;
      QuietKeepsFrames(client, s, Do(s, step), []);
    case PollStream(f, now, fault) =>
      assert s.history + [] == s.history;
      QuietKeepsFrames(client, s, Do(s, step), []);
  }

  lemma {:induction false} RunKeepsFrames(client: nat -> seq<string>, steps: seq<Step>)
    requires FromClient(client, steps)
    ensures FramesInv(client, Run(steps))
  {
    hide Do, Slice;
    if steps == [] {
      assert AppliedUpTo(client, [], 0, 0);
      forall e: nat ensures SomePrefixApplied(client, [], e) {
        assert AppliedUpTo(client, [], e, 0);
      }
    } else {
      hide FramesInv;
      RunKeepsFrames(client, steps[..|steps| - 1]);
      StepKeepsFrames(client, Run(steps[..|steps| - 1]), steps[|steps| - 1]);
    }
  }

  /** Whatever the network drops, repeats, splits or reorders, the frames applied in an epoch
      are frames 1 to n of its stream, in order, each once; n is the stored count for the
      attach in force, and no superseded epoch's frame is applied after a newer attach's. */
  lemma FramesApplyExactlyOnce(client: nat -> seq<string>, steps: seq<Step>, epoch: nat)
    requires FromClient(client, steps)
    ensures var s := Run(steps);
      && SomePrefixApplied(client, s.history, epoch)
      && (epoch == Epoch(s.room) ==> AppliedUpTo(client, s.history, epoch, Through(s.room, epoch)))
      && WithinEpochs(s.history, Epoch(s.room)) && EpochsRise(s.history)
  {
    hide AppliedUpTo, SomePrefixApplied, WithinEpochs, EpochsRise;
    RunKeepsFrames(client, steps);
  }

  lemma AfterTaking(room: Room, batch: Batch, now: nat)
    requires Verdict(room, batch) == Accepted
    ensures var after := Taken(room, batch, now);
      && Verdict(after, batch) == Accepted && Fresh(after, batch) == []
      && Epoch(after) == batch.epoch
      && SaturatingSub(batch.fromSeq + |batch.frames|, 1) <= Max(Through(after, batch.epoch), batch.fromSeq)
      && (batch.frames != [] ==> batch.fromSeq + |batch.frames| <= Through(after, batch.epoch) + 1)
  {
    hide Taken;
    TakenFrames(room, batch, now);
    var after := Taken(room, batch, now);
    assert Through(after, batch.epoch) >= Through(room, batch.epoch);
    assert Verdict(after, batch) == Accepted;
    hide Verdict;
    var skip := Through(after, batch.epoch) + 1 - batch.fromSeq;
    assert skip >= |batch.frames|;
    assert batch.frames[|batch.frames|..] == [];
  }

  lemma TakingNothing(room: Room, batch: Batch, now: nat)
    requires Verdict(room, batch) == Accepted && Fresh(room, batch) == []
    requires batch.frames != [] ==> batch.fromSeq + |batch.frames| <= Through(room, batch.epoch) + 1 && batch.epoch in room.frames
    ensures Taken(room, batch, now) == Renewed(Acknowledged(room, batch.ackThrough), batch.epoch, now)
  {
    hide Acknowledged, Renewed;
    if batch.frames != [] {
      assert room.frames[batch.epoch := room.frames[batch.epoch]] == room.frames;
      assert room.(frames := room.frames) == room;
    }
  }

  lemma AcknowledgedTwice(room: Room, through: nat, epoch: nat, now: nat)
    ensures Acknowledged(Renewed(Acknowledged(room, through), epoch, now), through) == Renewed(Acknowledged(room, through), epoch, now)
  {
    KeptTwice(room.commands, Unacknowledged(through));
  }

  /** Sending an accepted batch again changes nothing but when presence lapses. */
  lemma RetransmissionOnlyRenews(room: Room, batch: Batch, now: nat, again: nat)
    requires Verdict(room, batch) == Accepted
    ensures var after := Taken(room, batch, now);
      && Verdict(after, batch) == Accepted && Fresh(after, batch) == []
      && Taken(after, batch, again) == Renewed(after, batch.epoch, again)
  {
    var after := Taken(room, batch, now);
    AfterTaking(room, batch, now);
    TakenFrames(room, batch, now);
    assert exists counted :: after == Renewed(Acknowledged(counted, batch.ackThrough), batch.epoch, now) by {
      hide AllAnswered, Acknowledged, Renewed;
    }
    hide *;
    var counted :| after == Renewed(Acknowledged(counted, batch.ackThrough), batch.epoch, now);
    AcknowledgedTwice(counted, batch.ackThrough, batch.epoch, now);
    TakingNothing(after, batch, again);
  }

  /** A batch with no gap before it is taken, and leaves every frame it carries applied. */
  lemma PostedFramesAreApplied(client: nat -> seq<string>, steps: seq<Step>, batch: Batch, now: nat)
    requires FromClient(client, steps) && Slice(client, batch)
    requires Verdict(Run(steps).room, batch) == Accepted
    ensures var s := Do(Run(steps), Post(batch, now));
      && (batch.frames != [] ==> batch.fromSeq + |batch.frames| - 1 <= Through(s.room, batch.epoch))
      && AppliedUpTo(client, s.history, batch.epoch, Through(s.room, batch.epoch))
  {
    RunKeepsFrames(client, steps);
    PostKeepsFrames(client, Run(steps), batch, now);
    AfterTaking(Run(steps).room, batch, now);
    hide Taken, FromClient, Slice, AppliedUpTo, Run, Fresh, NumberFresh;
  }
}
