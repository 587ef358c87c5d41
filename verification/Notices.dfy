/** Revocation notices: the rows of a room's mailbox that name no container
    (crates/api/src/host_room.rs). A host is told to go only if it is there to hear it, and the
    notice waits until the host says it has seen that far. */
module Notices {
  import opened Prelude
  import opened HostRoom
  import opened CommandFeed
  import opened HostRoomRuns
  import opened Mailbox
  import opened CommandStreams

  lemma {:induction false} AnsweringSparesNotices(room: Room, frames: seq<string>, row: Row)
    requires RowsInv(room) && row.machine.None?
    ensures RowsInv(AllAnswered(room, frames))
    ensures row in AllAnswered(room, frames).commands <==> row in room.commands
  {
    hide ContainerName, Kept;
    if frames != [] {
      var n := |frames| - 1;
      AnsweringSparesNotices(room, frames[..n], row);
      AnswerSparesNotices(AllAnswered(room, frames[..n]), ContainerName(frames[n]), row);
    }
  }

  lemma AnswerSparesNotices(room: Room, container: string, row: Row)
    requires RowsInv(room) && row.machine.None?
    ensures RowsInv(Answered(room, container))
    ensures row in Answered(room, container).commands <==> row in room.commands
  {
    hide Kept;
    var jobs := JobsOf(room.commands, container);
    if jobs != [] {
      KeptRowsInv(room, Except(Oldest(jobs)));
      var job :| job in jobs && job.seqno == Oldest(jobs);
      assert job in room.commands && job != row;
    }
  }

  /** An accepted batch takes a notice away exactly if it acknowledges that far. */
  lemma PostDropsTheAcknowledged(room: Room, batch: Batch, now: nat, row: Row)
    requires RowsInv(room) && Verdict(room, batch) == Accepted
    requires row in room.commands && row.machine.None?
    ensures row in Taken(room, batch, now).commands <==> row.seqno > batch.ackThrough
  {
    hide AllAnswered, Kept;
    AnsweringSparesNotices(room, Fresh(room, batch), row);
    assert RowInv(room, row);
  }

  lemma PostAddsNone(room: Room, batch: Batch, now: nat, row: Row)
    requires RowsInv(room) && row.machine.None? && row in Taken(room, batch, now).commands
    ensures row in room.commands
  {
    hide AllAnswered, Kept;
    if Verdict(room, batch) == Accepted { AnsweringSparesNotices(room, Fresh(room, batch), row); }
  }

  /** The host acknowledges that far, in a batch the room accepts. */
  predicate Acknowledges(s: Site, step: Step, seqno: nat)
  {
    step.Post? && Verdict(s.room, step.batch).Accepted? && step.batch.ackThrough >= seqno
  }

  /** A revocation of a host in contact less than half a minute ago. */
  predicate Announces(steps: seq<Step>, step: Step, row: Row)
  {
    && step.Dispatch? && step.command == Revoked
    && LastContact(steps).Some? && step.now <= LastContact(steps).value + 30
    && row == Row(Run(steps).room.lastSeq + 1, None, Revoked)
  }

  lemma NoticeStep(steps: seq<Step>, step: Step, row: Row)
    requires row.machine.None?
    ensures row in Do(Run(steps), step).room.commands <==>
      Announces(steps, step, row) || (row in Run(steps).room.commands && !Acknowledges(Run(steps), step, row.seqno))
  {
    hide Run, Taken, Kept, Owed, LastContact, NumberFresh, MailboxInv;
    var s := Run(steps);
    RunKeepsMailbox(steps);
    MailboxRows(s);
    if step.Post? {
      if row in s.room.commands && Verdict(s.room, step.batch) == Accepted {
        PostDropsTheAcknowledged(s.room, step.batch, step.now, row);
      }
      if row in Taken(s.room, step.batch, step.now).commands { PostAddsNone(s.room, step.batch, step.now, row); }
    }
    if step.Dispatch? { PresenceIsTheLastContact(steps, step.now); }
  }

  ghost predicate NeverAcknowledged(steps: seq<Step>, more: seq<Step>, seqno: nat)
  {
    forall m: nat :: m < |more| ==> !Acknowledges(Run(steps + more[..m]), more[m], seqno)
  }

  /** A notice the room holds is still there after any continuation exactly if the host has
      acknowledged no row that far in a batch the room accepted. */
  lemma {:induction false} NoticesWaitForTheirAcknowledgement(steps: seq<Step>, more: seq<Step>, row: Row)
    requires row.machine.None? && row in Run(steps).room.commands
    ensures row in Run(steps + more).room.commands <==> NeverAcknowledged(steps, more, row.seqno)
  {
    hide Do, Acknowledges, Announces;
    if more == [] {
      assert steps + more == steps;
    } else {
      var n := |more| - 1;
      var init := more[..n];
      NoticesWaitForTheirAcknowledgement(steps, init, row);
      assert (steps + more)[..|steps + more| - 1] == steps + init;
      NoticeStep(steps + init, more[n], row);
      NumbersRise(steps, init, row);
      NewerNumber(steps + init, more[n], row);
      AcknowledgedLast(steps, more, row.seqno);
    }
  }

  lemma NewerNumber(steps: seq<Step>, step: Step, row: Row)
    requires row.seqno <= Run(steps).room.lastSeq
    ensures !Announces(steps, step, row)
  {
    hide Run, LastContact;
  }

  lemma AcknowledgedLast(steps: seq<Step>, more: seq<Step>, seqno: nat)
    requires more != []
    ensures var n := |more| - 1;
      NeverAcknowledged(steps, more, seqno) <==>
        NeverAcknowledged(steps, more[..n], seqno) && !Acknowledges(Run(steps + more[..n]), more[n], seqno)
  {
    hide Acknowledges, Run;
    var n := |more| - 1;
    assert forall m: nat :: m < n ==> more[..n][..m] == more[..m];
  }

  /** No number is issued twice. */
  lemma {:induction false} NumbersRise(steps: seq<Step>, more: seq<Step>, row: Row)
    requires row in Run(steps).room.commands
    ensures row.seqno <= Run(steps).room.lastSeq <= Run(steps + more).room.lastSeq
  {
    hide Do;
    if more == [] {
      assert steps + more == steps;
      RunKeepsMailbox(steps);
      assert RowInv(Run(steps).room, row);
    } else {
      NumbersRise(steps, more[..|more| - 1], row);
      assert (steps + more)[..|steps + more| - 1] == steps + more[..|more| - 1];
      StepGrows(Run(steps + more[..|more| - 1]), more[|more| - 1]);
    }
  }

  ghost predicate AnnouncedAt(steps: seq<Step>, n: nat, row: Row)
  {
    n < |steps| && Announces(steps[..n], steps[n], row) && NeverAcknowledged(steps[..n + 1], steps[n + 1..], row.seqno)
  }

  /** In every run the notices held are exactly those of revocations that found the host in
      contact, and that it has not acknowledged since. */
  lemma {:induction false} NoticesHeldAreTheUnacknowledged(steps: seq<Step>, row: Row)
    requires row.machine.None?
    ensures row in Run(steps).room.commands <==> exists n: nat :: AnnouncedAt(steps, n, row)
  {
    hide Do, Acknowledges, Announces;
    if n: nat :| AnnouncedAt(steps, n, row) {
      assert steps[..n + 1][..n] == steps[..n];
      NoticeStep(steps[..n], steps[n], row);
      NoticesWaitForTheirAcknowledgement(steps[..n + 1], steps[n + 1..], row);
      assert steps[..n + 1] + steps[n + 1..] == steps;
    }
    if row in Run(steps).room.commands {
      var n := FirstHeld(steps, row);
      assert AnnouncedAt(steps, n, row);
    }
  }

  lemma {:induction false} FirstHeld(steps: seq<Step>, row: Row) returns (n: nat)
    requires row.machine.None? && row in Run(steps).room.commands
    ensures AnnouncedAt(steps, n, row)
  {
    hide Do, Acknowledges, Announces;
    var last := |steps| - 1;
    NoticeStep(steps[..last], steps[last], row);
    if Announces(steps[..last], steps[last], row) {
      n := last;
    } else {
      n := FirstHeld(steps[..last], row);
      assert steps[..last][..n] == steps[..n] && steps[..last][..n + 1] == steps[..n + 1];
      NoticeStep(steps[..n], steps[n], row);
      assert steps[..n + 1][..n] == steps[..n];
      assert steps[..n + 1] + steps[n + 1..] == steps;
      NoticesWaitForTheirAcknowledgement(steps[..n + 1], steps[n + 1..], row);
    }
  }
}
