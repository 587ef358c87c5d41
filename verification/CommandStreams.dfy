/** What the command streams of a host room promise in every run
    (crates/api/src/host_room.rs): a stream never skips a command that is still owed, never
    says one twice, and says it was superseded once before it ends. */
module CommandStreams {
  import opened Prelude
  import opened HostRoom
  import opened CommandFeed
  import opened HostRoomRuns
  import opened Mailbox

  /** How a step may change the mailbox: rows go, or come with a number never issued. */
  predicate Grows(room: Room, after: Room)
  {
    && room.lastSeq <= after.lastSeq
    && (forall row :: row in after.commands ==> row in room.commands || row.seqno > room.lastSeq)
    && (room.presence.Some? ==> after.presence.Some?)
    && Epoch(room) <= Epoch(after)
  }

  predicate NeverSkips(room: Room, stream: Stream)
  {
    && Sorted(stream.emitted)
    && (forall row :: row in stream.emitted ==> row.seqno <= stream.feed.cursor)
    && (forall row :: row in room.commands && row.seqno <= stream.feed.cursor ==> row in stream.emitted)
  }

  predicate EndsOnce(room: Room, stream: Stream)
  {
    && stream.notices == (if stream.feed.announced then 1 else 0)
    && (stream.ended ==> stream.feed.announced)
    && (stream.feed.announced ==> stream.feed.epoch < Epoch(room))
  }

  predicate StreamInv(room: Room, stream: Stream)
  {
    && room.presence.Some? && stream.feed.epoch <= Epoch(room)
    && stream.feed.cursor <= room.lastSeq
    && NeverSkips(room, stream)
    && EndsOnce(room, stream)
  }

  predicate StreamsInv(s: Site)
  {
    forall f :: f in s.streams ==> StreamInv(s.room, s.streams[f])
  }

  lemma GrowthKeeps(room: Room, after: Room, stream: Stream)
    requires Grows(room, after) && StreamInv(room, stream)
    ensures StreamInv(after, stream)
  {
  }

  lemma {:induction false} AnsweringGrows(room: Room, frames: seq<string>)
    ensures forall row :: row in AllAnswered(room, frames).commands ==> row in room.commands
  {
    hide ContainerName, JobsOf;
    if frames != [] {
      AnsweringGrows(room, frames[..|frames| - 1]);
    }
  }

  lemma TakingGrows(room: Room, batch: Batch, now: nat)
    requires Verdict(room, batch) == Accepted
    ensures Grows(room, Taken(room, batch, now))
  {
    TakenFrames(room, batch, now);
    AnsweringGrows(room, Fresh(room, batch));
    hide AllAnswered, Kept, Fresh;
  }

  lemma StepGrows(s: Site, step: Step)
    ensures Grows(s.room, Do(s, step).room)
  {
    hide Kept, Taken, Owed, NumberFresh;
    if step.Post? && Verdict(s.room, step.batch) == Accepted {
      TakingGrows(s.room, step.batch, step.now);
    }
  }

  /** `rows` is what a poll hands over: all of the mailbox beyond the cursor. */
  lemma OwedRows(room: Room, cursor: nat)
    requires RowsInv(room)
    ensures var rows := Owed(room.commands, cursor);
      && Sorted(rows)
      && (forall row :: row in rows <==> row in room.commands && row.seqno > cursor)
      && (rows != [] ==> forall row :: row in rows ==> row.seqno <= rows[|rows| - 1].seqno <= room.lastSeq)
  {
    hide Kept;
    var rows := Owed(room.commands, cursor);
    KeptSorted(room.commands, Beyond(cursor));
    forall row | row in rows ensures row.seqno <= rows[|rows| - 1].seqno <= room.lastSeq {
      var i :| 0 <= i < |rows| && rows[i] == row;
      assert rows[|rows| - 1] in room.commands;
    }
  }

  lemma PollKeeps(room: Room, stream: Stream, now: nat, fault: Fault)
    requires RowsInv(room) && StreamInv(room, stream) && !stream.ended
    ensures var (room', feed, poll) := Polled(room, stream.feed, now, fault);
      && Grows(room, room') && StreamInv(room', Said(stream, feed, poll))
      && room'.commands == room.commands
  {
    hide RowsInv, Owed;
    OwedRows(room, stream.feed.cursor);
    hide Sorted;
    SortedAppend(stream.emitted, Owed(room.commands, stream.feed.cursor), stream.feed.cursor);
  }

  lemma SortedAppend(a: seq<Row>, b: seq<Row>, cursor: nat)
    requires Sorted(a) && Sorted(b)
    requires forall row :: row in a ==> row.seqno <= cursor
    requires forall row :: row in b ==> row.seqno > cursor
    ensures Sorted(a + b)
  {
    var all := a + b;
    forall i, j | 0 <= i < j < |all| ensures all[i].seqno < all[j].seqno {
      if i < |a| <= j {
        assert all[i] in a && all[j] in b;
      }
    }
  }

  lemma StepKeepsStreams(s: Site, step: Step)
    requires RowsInv(s.room) && StreamsInv(s)
    ensures StreamsInv(Do(s, step))
  {
    hide RowsInv, StreamInv, Taken, Polled, NumberFresh, Said, Grows, Attached, Dispatched;
    StepGrows(s, step);
    var after := Do(s, step);
    forall f | f in after.streams ensures StreamInv(after.room, after.streams[f]) {
      if f in s.streams && after.streams[f] == s.streams[f] {
        GrowthKeeps(s.room, after.room, s.streams[f]);
      } else if step.Open? {
        FreshStream(s.room, step.epoch);
      } else {
        PollKeeps(s.room, s.streams[f], step.now, step.fault);
      }
    }
  }

  lemma FreshStream(room: Room, epoch: nat)
    requires RowsInv(room) && room.presence.Some? && Epoch(room) == epoch
    ensures StreamInv(room, Stream(Feed(epoch, 0, false, 0), [], 0, false))
  {
    forall row | row in room.commands ensures row.seqno > 0 {
      assert RowInv(room, row);
    }
  }

  lemma {:induction false} RunKeepsStreams(steps: seq<Step>)
    ensures StreamsInv(Run(steps))
  {
    hide Do, StreamInv, RowsInv;
    if steps != [] {
      RunKeepsStreams(steps[..|steps| - 1]);
      RunKeepsMailbox(steps[..|steps| - 1]);
      StepKeepsStreams(Run(steps[..|steps| - 1]), steps[|steps| - 1]);
    }
  }

  /** In every run the commands a stream has said strictly increase in number, every
      command still in the mailbox at or below its cursor is one it said, and it has said it
      was superseded at most once, only when it was, and before it ended. */
  lemma StreamsNeverSkip(steps: seq<Step>, f: nat)
    requires f in Run(steps).streams
    ensures var s := Run(steps);
      NeverSkips(s.room, s.streams[f]) && EndsOnce(s.room, s.streams[f])
  {
    hide NeverSkips, EndsOnce, Run;
    RunKeepsStreams(steps);
  }

  /** A poll that nothing fails leaves its stream having said every command in the mailbox,
      so the first poll of a fresh stream repeats every job not yet answered; and it says
      just those that this stream had not. */
  lemma PollCatchesUp(steps: seq<Step>, f: nat, now: nat)
    requires f in Run(steps).streams && !Run(steps).streams[f].ended
    requires Run(steps).streams[f].feed.epoch == Epoch(Run(steps).room)
    ensures var s, after := Run(steps), Do(Run(steps), PollStream(f, now, NoFault));
      && (forall row :: row in s.room.commands ==> row in after.streams[f].emitted)
      && after.streams[f].emitted[..|s.streams[f].emitted|] == s.streams[f].emitted
      && (forall row :: row in after.streams[f].emitted[|s.streams[f].emitted|..] ==>
           row in s.room.commands && row !in s.streams[f].emitted)
      && (s.streams[f].emitted == [] && s.streams[f].feed.cursor == 0 ==> after.streams[f].emitted == s.room.commands)
  {
    hide Run, MailboxInv, Kept, Sorted;
    RunKeepsStreams(steps);
    RunKeepsMailbox(steps);
    MailboxRows(Run(steps));
    var s := Run(steps);
    hide RowsInv;
    OwedRows(s.room, s.streams[f].feed.cursor);
    if s.streams[f].feed.cursor == 0 {
      AllOwed(s.room);
    }
  }

  lemma MailboxRows(s: Site)
    requires MailboxInv(s.room, s.history)
    ensures RowsInv(s.room)
  {
  }

  lemma AllOwed(room: Room)
    requires RowsInv(room)
    ensures Owed(room.commands, 0) == room.commands
  {
    forall row | row in room.commands ensures Beyond(0)(row) {
      assert RowInv(room, row);
    }
    KeptAll(room.commands, Beyond(0));
  }

  /** Once a newer attach exists, a stream says no command ever again. */
  lemma {:induction false} SupersededStreamsFallSilent(steps: seq<Step>, f: nat, more: seq<Step>)
    requires f in Run(steps).streams
    requires Run(steps).streams[f].feed.epoch < Epoch(Run(steps).room)
    ensures var s := Run(steps + more);
      && f in s.streams && s.streams[f].feed.epoch < Epoch(s.room)
      && s.streams[f].emitted == Run(steps).streams[f].emitted
  {
    hide Do;
    if more == [] {
      assert steps + more == steps;
    } else {
      var init := more[..|more| - 1];
      SupersededStreamsFallSilent(steps, f, init);
      assert (steps + more)[..|steps + more| - 1] == steps + init;
      SupersededStaysSilent(Run(steps + init), more[|more| - 1], f);
    }
  }

  lemma SupersededStaysSilent(s: Site, step: Step, f: nat)
    requires f in s.streams && s.streams[f].feed.epoch < Epoch(s.room)
    ensures var after := Do(s, step);
      && f in after.streams && after.streams[f].feed.epoch < Epoch(after.room)
      && after.streams[f].emitted == s.streams[f].emitted
  {
    StepGrows(s, step);
    hide Attached, Taken, Dispatched, Owed, NumberFresh;
  }

  /** A superseded stream's next two polls that can read presence say so once, then end. */
  lemma SupersededStreamsSaySoThenEnd(steps: seq<Step>, f: nat, now: nat, fault: Fault, later: nat, another: Fault)
    requires f in Run(steps).streams && !Run(steps).streams[f].ended
    requires Run(steps).streams[f].feed.epoch < Epoch(Run(steps).room)
    requires fault != PresenceFault && another != PresenceFault
    ensures var before := Run(steps).streams[f];
      var once := Do(Run(steps), PollStream(f, now, fault));
      var twice := Do(once, PollStream(f, later, another));
      && once.streams[f].notices == 1 && once.streams[f].ended == (before.notices == 1)
      && twice.streams[f].notices == 1 && twice.streams[f].ended
      && once.room == twice.room == Run(steps).room
  {
    hide Run, NeverSkips, Owed;
    RunKeepsStreams(steps);
  }

  // ── Presence ──

  /** When a step is contact from the attach in force: an attach, an accepted batch, or a
      poll of its stream that renews presence. */
  function Contact(s: Site, step: Step): Option<nat>
  {
    match step
    case Attach(now) => Some(now)
    case Post(batch, now) => if Verdict(s.room, batch).Accepted? then Some(now) else None
    case PollStream(f, now, fault) =>
      if f in s.streams && !s.streams[f].ended && !IsSuperseded(s.room, s.streams[f].feed)
        && DueToRenew(s.streams[f].feed, now) && fault != PresenceFault && fault != RenewFault
      then Some(now) else None
    case _ => None
  }

  function LastContact(steps: seq<Step>): Option<nat>
  {
    if steps == [] then None
    else
      var contact := Contact(Run(steps[..|steps| - 1]), steps[|steps| - 1]);
      if contact.Some? then contact else LastContact(steps[..|steps| - 1])
  }

  predicate PresentSince(room: Room, contact: Option<nat>)
  {
    match contact
    case None => room.presence.None?
    case Some(at) => room.presence.Some? && room.presence.value.liveUntil == at + PRESENCE_TTL_SECONDS
  }

  lemma TakingIsContact(room: Room, batch: Batch, now: nat)
    requires Verdict(room, batch) == Accepted
    ensures PresentSince(Taken(room, batch, now), Some(now))
  {
    hide AllAnswered, Kept;
    AnsweringKeepsFrames(room, Fresh(room, batch));
  }

  lemma StepKeepsPresence(s: Site, step: Step, contact: Option<nat>)
    requires StreamsInv(s) && PresentSince(s.room, contact)
    ensures PresentSince(Do(s, step).room, if Contact(s, step).Some? then Contact(s, step) else contact)
  {
    hide Kept, Taken, Owed, NumberFresh, NeverSkips, EndsOnce;
    if step.Post? && Verdict(s.room, step.batch).Accepted? {
      TakingIsContact(s.room, step.batch, step.now);
    }
    if step.PollStream? && step.stream in s.streams {
      assert StreamInv(s.room, s.streams[step.stream]);
    }
  }

  /** A host has attached exactly when there was contact, and it reads as live until thirty
      seconds after the last. */
  lemma {:induction false} PresenceIsTheLastContact(steps: seq<Step>, now: nat)
    ensures PresentSince(Run(steps).room, LastContact(steps))
    ensures Live(Run(steps).room, now) <==> LastContact(steps).Some? && now <= LastContact(steps).value + 30
  {
    hide Do, Contact, StreamsInv;
    if steps != [] {
      var init := steps[..|steps| - 1];
      PresenceIsTheLastContact(init, now);
      RunKeepsStreams(init);
      StepKeepsPresence(Run(init), steps[|steps| - 1], LastContact(init));
    }
  }
}
