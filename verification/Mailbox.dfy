/** The mailbox of a host room refines one FIFO queue a container
    (crates/api/src/host_room.rs): planning a job enqueues it, an applied answer dequeues the
    oldest job of its container, a revocation clears every queue, and nothing else touches
    them: not an attach, a poll, an acknowledgement or a repeated batch. */
module Mailbox {
  import opened Prelude
  import opened HostRoom
  import opened CommandFeed
  import opened HostRoomRuns

  // ── The queues a history leaves ──

  function Changed(queue: seq<nat>, container: string, event: Event): seq<nat>
  {
    match event
    case Planned(c, job) => if c == container then queue + [job] else queue
    case Applied(_, _, frame) => if ContainerName(frame) == container && queue != [] then queue[1..] else queue
    case Cleared => []
  }

  function Queue(history: seq<Event>, container: string): seq<nat>
  {
    if history == [] then []
    else Changed(Queue(history[..|history| - 1], container), container, history[|history| - 1])
  }

  /** The jobs the mailbox holds for a container, oldest first. */
  function JobIds(rows: seq<Row>): (r: seq<nat>)
    ensures |r| == |rows|
    ensures forall i :: 0 <= i < |r| ==> r[i] == if rows[i].command.RunJob? then rows[i].command.job else 0
  {
    seq(|rows|, i requires 0 <= i < |rows| => if rows[i].command.RunJob? then rows[i].command.job else 0)
  }

  // ── What filtering rows does ──

  predicate Sorted(rows: seq<Row>)
  {
    forall i, j :: 0 <= i < j < |rows| ==> rows[i].seqno < rows[j].seqno
  }

  lemma {:induction false} KeptCommutes(rows: seq<Row>, p: Row -> bool, q: Row -> bool)
    ensures Kept(Kept(rows, p), q) == Kept(Kept(rows, q), p)
  {
    if rows != [] {
      var init, last := rows[..|rows| - 1], rows[|rows| - 1];
      KeptCommutes(init, p, q);
      KeptLast(Kept(init, p), q, last);
      KeptLast(Kept(init, q), p, last);
    }
  }

  lemma KeptLast(rows: seq<Row>, keep: Row -> bool, last: Row)
    ensures Kept(rows + [last], keep) == Kept(rows, keep) + if keep(last) then [last] else []
    ensures rows + [] == rows
  {
    assert (rows + [last])[..|rows| ] == rows;
  }

  lemma {:induction false} KeptAll(rows: seq<Row>, keep: Row -> bool)
    requires forall row :: row in rows ==> keep(row)
    ensures Kept(rows, keep) == rows
  {
    if rows != [] {
      KeptAll(rows[..|rows| - 1], keep);
      assert rows == rows[..|rows| - 1] + [rows[|rows| - 1]];
    }
  }

  lemma {:induction false} KeptNone(rows: seq<Row>, keep: Row -> bool)
    requires forall row :: row in rows ==> !keep(row)
    ensures Kept(rows, keep) == []
  {
    if rows != [] {
      KeptNone(rows[..|rows| - 1], keep);
    }
  }

  lemma {:induction false} KeptSorted(rows: seq<Row>, keep: Row -> bool)
    requires Sorted(rows)
    ensures Sorted(Kept(rows, keep))
  {
    if rows != [] {
      var init := rows[..|rows| - 1];
      KeptSorted(init, keep);
      forall row | row in Kept(init, keep) ensures row.seqno < rows[|rows| - 1].seqno {
        assert row in init;
      }
    }
  }

  lemma {:induction false} KeptConcat(a: seq<Row>, b: seq<Row>, keep: Row -> bool)
    ensures Kept(a + b, keep) == Kept(a, keep) + Kept(b, keep)
  {
    if b == [] {
      assert a + b == a;
    } else {
      assert (a + b)[..|a + b| - 1] == a + b[..|b| - 1];
      KeptConcat(a, b[..|b| - 1], keep);
    }
  }

  lemma ExceptFirst(rows: seq<Row>)
    requires Sorted(rows) && rows != []
    ensures Kept(rows, Except(rows[0].seqno)) == rows[1..]
  {
    hide Kept;
    var keep := Except(rows[0].seqno);
    assert rows == rows[..1] + rows[1..];
    KeptConcat(rows[..1], rows[1..], keep);
    KeptNone(rows[..1], keep);
    KeptAll(rows[1..], keep);
  }

  lemma OldestIsFirst(rows: seq<Row>)
    requires Sorted(rows) && rows != []
    ensures Oldest(rows) == rows[0].seqno
    ensures Kept(rows, Except(Oldest(rows))) == rows[1..]
  {
    hide Kept, Oldest;
    assert rows[0] in rows;
    var row :| row in rows && row.seqno == Oldest(rows);
    ExceptFirst(rows);
  }

  // ── What each statement does to one container's queue ──

  lemma AnsweredRows(room: Room, container: string, other: string)
    requires Sorted(room.commands)
    ensures JobsOf(Answered(room, container).commands, other)
         == var jobs := JobsOf(room.commands, other);
            if other == container && jobs != [] then jobs[1..] else jobs
  {
    hide Kept;
    var jobs := JobsOf(room.commands, container);
    if jobs != [] {
      var oldest := Oldest(jobs);
      KeptCommutes(room.commands, Except(oldest), ForContainer(other));
      KeptSorted(room.commands, ForContainer(container));
      if other == container {
        OldestIsFirst(jobs);
      } else {
        OthersKeep(room.commands, container, other, oldest);
      }
    }
  }

  lemma OthersKeep(rows: seq<Row>, container: string, other: string, seqno: nat)
    requires Sorted(rows) && other != container
    requires exists row :: row in JobsOf(rows, container) && row.seqno == seqno
    ensures Kept(JobsOf(rows, other), Except(seqno)) == JobsOf(rows, other)
  {
    hide Kept;
    var row :| row in JobsOf(rows, container) && row.seqno == seqno;
    forall mine | mine in JobsOf(rows, other) ensures Except(seqno)(mine) {
      assert mine in rows && row in rows;
    }
    KeptAll(JobsOf(rows, other), Except(seqno));
  }

  lemma AcknowledgedRows(room: Room, through: nat, container: string)
    ensures JobsOf(Acknowledged(room, through).commands, container) == JobsOf(room.commands, container)
  {
    hide Kept;
    KeptCommutes(room.commands, Unacknowledged(through), ForContainer(container));
    KeptAll(JobsOf(room.commands, container), Unacknowledged(through));
  }

  lemma ForgottenRows(room: Room, container: string)
    ensures JobsOf(Forgotten(room).commands, container) == []
  {
    hide Kept;
    KeptCommutes(room.commands, IsNoJob(), ForContainer(container));
    KeptNone(JobsOf(room.commands, container), IsNoJob());
  }

  // ── The invariant ──

  predicate RowInv(room: Room, row: Row)
  {
    && 1 <= row.seqno <= room.lastSeq
    && (row.machine.Some? ==> row.command.RunJob? && row.command.container == row.machine.value)
    && (row.machine.None? ==> row.command.Revoked?)
  }

  predicate RowsInv(room: Room)
  {
    && Sorted(room.commands)
    && forall row :: row in room.commands ==> RowInv(room, row)
  }

  predicate Holds(room: Room, history: seq<Event>, container: string)
  {
    JobIds(JobsOf(room.commands, container)) == Queue(history, container)
  }

  ghost predicate MailboxInv(room: Room, history: seq<Event>)
  {
    && RowsInv(room)
    && forall container :: Holds(room, history, container)
  }

  lemma QueueOne(history: seq<Event>, event: Event, container: string)
    ensures Queue(history + [event], container) == Changed(Queue(history, container), container, event)
  {
    assert (history + [event])[..|history|] == history;
  }

  lemma KeptRowsInv(room: Room, keep: Row -> bool)
    requires RowsInv(room)
    ensures RowsInv(room.(commands := Kept(room.commands, keep)))
  {
    hide Kept;
    KeptSorted(room.commands, keep);
  }

  lemma AnswerKeeps(room: Room, history: seq<Event>, epoch: nat, number: nat, frame: string)
    requires MailboxInv(room, history)
    ensures MailboxInv(Answered(room, ContainerName(frame)), history + [Applied(epoch, number, frame)])
  {
    hide Kept, Queue, ContainerName;
    var container := ContainerName(frame);
    var after := Answered(room, container);
    if JobsOf(room.commands, container) != [] {
      KeptRowsInv(room, Except(Oldest(JobsOf(room.commands, container))));
    }
    forall other ensures Holds(after, history + [Applied(epoch, number, frame)], other) {
      assert Holds(room, history, other);
      AnsweredRows(room, container, other);
      QueueOne(history, Applied(epoch, number, frame), other);
    }
  }

  lemma {:induction false} AnswersKeep(room: Room, history: seq<Event>, epoch: nat, through: nat, frames: seq<string>)
    requires MailboxInv(room, history)
    ensures MailboxInv(AllAnswered(room, frames), history + NumberFresh(epoch, through, frames))
  {
    hide MailboxInv, Answered, ContainerName;
    var events := NumberFresh(epoch, through, frames);
    if frames == [] {
      assert history + events == history;
    } else {
      var n := |frames| - 1;
      AnswersKeep(room, history, epoch, through, frames[..n]);
      assert events[..n] == NumberFresh(epoch, through, frames[..n]);
      AnswerKeeps(AllAnswered(room, frames[..n]), history + events[..n], epoch, through + 1 + n, frames[n]);
      assert history + events == history + events[..n] + [events[n]];
    }
  }

  lemma AcknowledgeKeeps(room: Room, history: seq<Event>, through: nat)
    requires MailboxInv(room, history)
    ensures MailboxInv(Acknowledged(room, through), history)
  {
    hide Kept, Queue, JobsOf;
    KeptRowsInv(room, Unacknowledged(through));
    forall container ensures Holds(Acknowledged(room, through), history, container) {
      assert Holds(room, history, container);
      AcknowledgedRows(room, through, container);
    }
  }

  /** Whatever leaves the mailbox alone. */
  lemma SameMailbox(room: Room, history: seq<Event>, after: Room)
    requires MailboxInv(room, history)
    requires after.commands == room.commands && after.lastSeq == room.lastSeq
    ensures MailboxInv(after, history)
  {
    forall container ensures Holds(after, history, container) {
      assert Holds(room, history, container);
    }
  }

  lemma PostKeepsMailbox(room: Room, history: seq<Event>, batch: Batch, now: nat)
    requires MailboxInv(room, history) && Verdict(room, batch) == Accepted
    ensures MailboxInv(Taken(room, batch, now), history + NumberFresh(batch.epoch, Through(room, batch.epoch), Fresh(room, batch)))
  {
    hide MailboxInv, AllAnswered, Kept, NumberFresh;
    var answered := AllAnswered(room, Fresh(room, batch));
    var events := history + NumberFresh(batch.epoch, Through(room, batch.epoch), Fresh(room, batch));
    AnswersKeep(room, history, batch.epoch, Through(room, batch.epoch), Fresh(room, batch));
    var counted := answered.(frames := Taken(room, batch, now).frames);
    SameMailbox(answered, events, counted);
    AcknowledgeKeeps(counted, events, batch.ackThrough);
    AcknowledgedOthers(answered, batch.ackThrough, counted.frames);
    SameMailbox(Acknowledged(counted, batch.ackThrough), events, Taken(room, batch, now));
  }

  lemma AcknowledgedOthers(room: Room, through: nat, frames: map<nat, nat>)
    ensures Acknowledged(room.(frames := frames), through) == Acknowledged(room, through).(frames := frames)
  {
  }

  lemma HoldKeepsRows(room: Room, machine: Option<string>, command: Command)
    requires RowsInv(room)
    requires machine.Some? ==> command.RunJob? && command.container == machine.value
    requires machine.None? ==> command.Revoked?
    ensures RowsInv(Held(room, machine, command))
    ensures forall container ::
      JobsOf(Held(room, machine, command).commands, container)
        == JobsOf(room.commands, container) + if machine == Some(container) then [Row(room.lastSeq + 1, machine, command)] else []
  {
    hide Kept;
    var row := Row(room.lastSeq + 1, machine, command);
    forall container ensures JobsOf(room.commands + [row], container)
      == JobsOf(room.commands, container) + if machine == Some(container) then [row] else []
    {
      KeptLast(room.commands, ForContainer(container), row);
    }
    forall i | 0 <= i < |room.commands| ensures room.commands[i].seqno < row.seqno {
      assert RowInv(room, room.commands[i]);
    }
  }

  lemma RunKeeps(room: Room, history: seq<Event>, container: string, job: nat)
    requires MailboxInv(room, history)
    ensures MailboxInv(Held(room, Some(container), RunJob(container, job)), history + [Planned(container, job)])
  {
    hide Queue, JobsOf, Held, RowsInv;
    var after := Held(room, Some(container), RunJob(container, job));
    HoldKeepsRows(room, Some(container), RunJob(container, job));
    forall other ensures Holds(after, history + [Planned(container, job)], other) {
      assert Holds(room, history, other);
      QueueOne(history, Planned(container, job), other);
      assert JobIds(JobsOf(after.commands, other)) == JobIds(JobsOf(room.commands, other)) + if other == container then [job] else [];
    }
  }

  lemma RevokeKeeps(room: Room, history: seq<Event>, now: nat)
    requires MailboxInv(room, history)
    ensures MailboxInv(Dispatched(room, Revoked, now).1, history + [Cleared])
  {
    hide Queue, JobsOf, Held, Kept;
    var held := if Live(room, now) then Held(room, None, Revoked) else room;
    HoldKeepsRows(room, None, Revoked);
    KeptRowsInv(held, IsNoJob());
    forall container ensures Holds(Forgotten(held), history + [Cleared], container) {
      ForgottenRows(held, container);
      QueueOne(history, Cleared, container);
    }
  }

  lemma StepKeepsMailbox(s: Site, step: Step)
    requires MailboxInv(s.room, s.history)
    ensures MailboxInv(Do(s, step).room, Do(s, step).history)
  {
    hide MailboxInv, Taken, NumberFresh, Held, Forgotten, Owed;
    match step
    case Attach(now) => SameMailbox(s.room, s.history, Attached(s.room, now));
    case Post(batch, now) =>
      if Verdict(s.room, batch) == Accepted { PostKeepsMailbox(s.room, s.history, batch, now); }
    case Dispatch(command, now) =>
      match command {
        case RunJob(container, job) => RunKeeps(s.room, s.history, container, job);
        case Revoked => RevokeKeeps(s.room, s.history, now);
        case Superseded => assert s.history + [] == s.history;
      }
    case Open(f, epoch) =>
    case PollStream(f, now, fault) => SameMailbox(s.room, s.history, Do(s, step).room);
  }

  lemma {:induction false} RunKeepsMailbox(steps: seq<Step>)
    ensures MailboxInv(Run(steps).room, Run(steps).history)
  {
    hide Do;
    if steps == [] {
      forall container ensures Holds(Room([], 0, None, map[]), [], container) {}
    } else {
      hide MailboxInv;
      RunKeepsMailbox(steps[..|steps| - 1]);
      StepKeepsMailbox(Run(steps[..|steps| - 1]), steps[|steps| - 1]);
    }
  }

  /** In every run the mailbox holds, for each container, exactly its queue. */
  lemma MailboxIsQueues(steps: seq<Step>, container: string)
    ensures JobIds(JobsOf(Run(steps).room.commands, container)) == Queue(Run(steps).history, container)
  {
    hide Run, JobsOf, Queue;
    RunKeepsMailbox(steps);
    assert Holds(Run(steps).room, Run(steps).history, container);
  }

  // ── What a queue holds, and how many jobs are pending ──

  /** The jobs planned for a container since the last revocation, in order. */
  function PlannedJobs(history: seq<Event>, container: string): seq<nat>
  {
    if history == [] then []
    else
      var before := PlannedJobs(history[..|history| - 1], container);
      match history[|history| - 1]
      case Planned(c, job) => if c == container then before + [job] else before
      case Applied(_, _, _) => before
      case Cleared => []
  }

  /** The answers applied for a container since the last revocation. */
  function Answers(history: seq<Event>, container: string): nat
  {
    if history == [] then 0
    else
      var before := Answers(history[..|history| - 1], container);
      match history[|history| - 1]
      case Planned(_, _) => before
      case Applied(_, _, frame) => if ContainerName(frame) == container then before + 1 else before
      case Cleared => 0
  }

  /** An answer that named a container with nothing outstanding. */
  predicate AnsweredNothing(history: seq<Event>, container: string, n: nat)
  {
    && n < |history|
    && history[n].Applied? && ContainerName(history[n].frame) == container
    && Queue(history[..n], container) == []
  }

  lemma {:induction false} QueueDropsAnswered(history: seq<Event>, container: string) returns (dropped: nat)
    ensures dropped <= |PlannedJobs(history, container)| && dropped <= Answers(history, container)
    ensures Queue(history, container) == PlannedJobs(history, container)[dropped..]
    ensures dropped < Answers(history, container) ==> exists n: nat :: AnsweredNothing(history, container, n)
  {
    if history == [] {
      dropped := 0;
    } else {
      var last := |history| - 1;
      var before := history[..last];
      dropped := QueueDropsAnswered(before, container);
      if exists n: nat :: AnsweredNothing(before, container, n) {
        var n: nat :| AnsweredNothing(before, container, n);
        assert history[..n] == before[..n];
        assert AnsweredNothing(history, container, n);
      }
      match history[last]
      case Planned(_, _) =>
      case Applied(_, _, frame) =>
        if ContainerName(frame) == container {
          if Queue(before, container) != [] { dropped := dropped + 1; } else { assert AnsweredNothing(history, container, last); }
        }
      case Cleared => dropped := 0;
    }
  }

  /** The outstanding jobs of a container are the most recently planned ones: nothing planned
      is reordered, repeated or lost, and at most one job leaves per answer. Exactly one does
      unless an answer found the queue empty. */
  lemma OutstandingAreTheLatest(steps: seq<Step>, container: string)
    ensures var history := Run(steps).history;
      var jobs := JobIds(JobsOf(Run(steps).room.commands, container));
      && |jobs| <= |PlannedJobs(history, container)| <= |jobs| + Answers(history, container)
      && jobs == PlannedJobs(history, container)[|PlannedJobs(history, container)| - |jobs|..]
      && (|jobs| + Answers(history, container) > |PlannedJobs(history, container)| ==>
           exists n: nat :: AnsweredNothing(history, container, n))
  {
    hide Run, JobsOf, PlannedJobs, Answers, Queue, AnsweredNothing;
    MailboxIsQueues(steps, container);
    var _ := QueueDropsAnswered(Run(steps).history, container);
  }

  /** The lengths of the queues of `containers`. */
  function QueueTotal(history: seq<Event>, containers: seq<string>): nat
  {
    if containers == [] then 0
    else QueueTotal(history, containers[..|containers| - 1]) + |Queue(history, containers[|containers| - 1])|
  }

  function JobTotal(rows: seq<Row>, containers: seq<string>): nat
  {
    if containers == [] then 0
    else JobTotal(rows, containers[..|containers| - 1]) + |JobsOf(rows, containers[|containers| - 1])|
  }

  predicate Distinct(containers: seq<string>)
  {
    forall i, j :: 0 <= i < j < |containers| ==> containers[i] != containers[j]
  }

  lemma {:induction false} OneMoreRow(rows: seq<Row>, row: Row, containers: seq<string>)
    requires Distinct(containers)
    ensures JobTotal(rows + [row], containers)
         == JobTotal(rows, containers) + if row.machine.Some? && row.machine.value in containers then 1 else 0
  {
    hide Kept;
    if containers != [] {
      OneMoreRow(rows, row, containers[..|containers| - 1]);
      KeptLast(rows, ForContainer(containers[|containers| - 1]), row);
    }
  }

  lemma {:induction false} NoRows(containers: seq<string>)
    ensures JobTotal([], containers) == 0
  {
    if containers != [] {
      NoRows(containers[..|containers| - 1]);
    }
  }

  lemma {:induction false} JobsSplit(rows: seq<Row>, containers: seq<string>)
    requires Distinct(containers)
    requires forall row :: row in rows && row.machine.Some? ==> row.machine.value in containers
    ensures |Jobs(rows)| == JobTotal(rows, containers)
  {
    hide JobTotal;
    if rows == [] {
      NoRows(containers);
    } else {
      var init, last := rows[..|rows| - 1], rows[|rows| - 1];
      JobsSplit(init, containers);
      OneMoreRow(init, last, containers);
      assert init + [last] == rows;
    }
  }

  lemma {:induction false} TotalsAgree(room: Room, history: seq<Event>, containers: seq<string>)
    requires MailboxInv(room, history)
    ensures JobTotal(room.commands, containers) == QueueTotal(history, containers)
  {
    hide Queue, JobsOf, RowsInv;
    if containers != [] {
      TotalsAgree(room, history, containers[..|containers| - 1]);
      assert Holds(room, history, containers[|containers| - 1]);
    }
  }

  lemma {:induction false} OnlyPlannedQueue(history: seq<Event>, container: string)
    ensures Queue(history, container) != [] ==> exists job :: Planned(container, job) in history
  {
    if history != [] && Queue(history, container) != [] {
      var init := history[..|history| - 1];
      OnlyPlannedQueue(init, container);
      if Queue(init, container) != [] {
        var job :| Planned(container, job) in init;
        assert Planned(container, job) in history;
      }
    }
  }

  /** `pending_jobs` reports the queues' lengths together, up to the width of its answer. */
  lemma PendingIsTheQueuesTogether(steps: seq<Step>, containers: seq<string>)
    requires Distinct(containers)
    requires forall event :: event in Run(steps).history && event.Planned? ==> event.container in containers
    ensures Pending(Run(steps).room) == Min(QueueTotal(Run(steps).history, containers), U32_MAX)
  {
    hide Run, Kept, Queue, QueueTotal, JobTotal, RowsInv;
    var s := Run(steps);
    RunKeepsMailbox(steps);
    forall row | row in s.room.commands && row.machine.Some? ensures row.machine.value in containers {
      var container := row.machine.value;
      assert row in JobsOf(s.room.commands, container);
      assert Holds(s.room, s.history, container);
      OnlyPlannedQueue(s.history, container);
    }
    JobsSplit(s.room.commands, containers);
    TotalsAgree(s.room, s.history, containers);
  }
}
