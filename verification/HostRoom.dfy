/** The relay room of one enrolled machine (crates/api/src/host_room.rs): its tables, the
    statements on them, and its handlers. A Durable Object runs one handler at a time. */
module HostRoom {
  import opened Prelude

  const PRESENCE_TTL_SECONDS: nat := 30
  const PRESENCE_REFRESH_SECONDS: nat := 10
  const U32_MAX: nat := 0xFFFF_FFFF

  datatype Command =
    | RunJob(container: string, job: nat)
    | Revoked
    | Superseded

  /** A `host_commands` row; `machine` names the container a job acts on. */
  datatype Row = Row(seqno: nat, machine: Option<string>, command: Command)

  datatype Presence = Presence(epoch: nat, liveUntil: nat)

  /** `lastSeq` is the AUTOINCREMENT memory: no sequence number is ever issued twice. */
  datatype Room = Room(
    commands: seq<Row>,
    lastSeq: nat,
    presence: Option<Presence>,
    frames: map<nat, nat>)

  /** A frame is the answer to one job, naming the machine it ran on. */
  datatype Batch = Batch(epoch: nat, fromSeq: nat, frames: seq<string>, ackThrough: nat)

  datatype Outcome = Accepted | NotAttached | EpochStale(current: nat) | FramesGap(next: nat) | Refused

  const RESOURCE_PREFIX: string := "flyco-"

  function ContainerName(machine: string): string { RESOURCE_PREFIX + machine }

  // ── Statements ──

  function Kept(rows: seq<Row>, keep: Row -> bool): (r: seq<Row>)
    ensures forall row :: row in r <==> row in rows && keep(row)
  {
    if rows == [] then []
    else
      var last := rows[|rows| - 1];
      Kept(rows[..|rows| - 1], keep) + if keep(last) then [last] else []
  }

  lemma {:induction false} KeptTwice(rows: seq<Row>, keep: Row -> bool)
    ensures Kept(Kept(rows, keep), keep) == Kept(rows, keep)
  {
    if rows != [] {
      var rest := Kept(rows[..|rows| - 1], keep);
      KeptTwice(rows[..|rows| - 1], keep);
      var last := rows[|rows| - 1];
      assert keep(last) ==> (rest + [last])[..|rest|] == rest;
      assert !keep(last) ==> rest + [] == rest;
    }
  }

  function ForContainer(container: string): Row -> bool { (row: Row) => row.machine == Some(container) }

  function IsJob(): Row -> bool { (row: Row) => row.machine.Some? }

  function IsNoJob(): Row -> bool { (row: Row) => row.machine.None? }

  function Except(seqno: nat): Row -> bool { (row: Row) => row.seqno != seqno }

  function Unacknowledged(through: nat): Row -> bool
  {
    (row: Row) => !(row.seqno <= through && row.machine.None?)
  }

  /** `WHERE machine = …`, oldest first. */
  function JobsOf(rows: seq<Row>, container: string): seq<Row>
  {
    Kept(rows, ForContainer(container))
  }

  function Jobs(rows: seq<Row>): seq<Row>
  {
    Kept(rows, IsJob())
  }

  /** `INSERT INTO host_commands`. */
  function Held(room: Room, machine: Option<string>, command: Command): Room
  {
    room.(commands := room.commands + [Row(room.lastSeq + 1, machine, command)], lastSeq := room.lastSeq + 1)
  }

  /** `DELETE … WHERE seq = (SELECT MIN(seq) … WHERE machine = …)`: the oldest job of one
      container, if it has any. */
  function Answered(room: Room, container: string): Room
  {
    var jobs := JobsOf(room.commands, container);
    if jobs == [] then room
    else
      var oldest := Oldest(jobs);
      room.(commands := Kept(room.commands, Except(oldest)))
  }

  function Oldest(rows: seq<Row>): (n: nat)
    requires rows != []
    ensures exists row :: row in rows && row.seqno == n
    ensures forall row :: row in rows ==> n <= row.seqno
  {
    var last := rows[|rows| - 1].seqno;
    if |rows| == 1 then last else Min(Oldest(rows[..|rows| - 1]), last)
  }

  function AllAnswered(room: Room, frames: seq<string>): Room
  {
    if frames == [] then room
    else Answered(AllAnswered(room, frames[..|frames| - 1]), ContainerName(frames[|frames| - 1]))
  }

  /** `DELETE … WHERE machine IS NOT NULL`. */
  function Forgotten(room: Room): Room
  {
    room.(commands := Kept(room.commands, IsNoJob()))
  }

  /** `DELETE … WHERE seq <= … AND machine IS NULL`. */
  function Acknowledged(room: Room, through: nat): Room
  {
    if through == 0 then room
    else room.(commands := Kept(room.commands, Unacknowledged(through)))
  }

  function Renewed(room: Room, epoch: nat, now: nat): Room
  {
    if room.presence.Some? && room.presence.value.epoch == epoch
    then room.(presence := Some(Presence(epoch, now + PRESENCE_TTL_SECONDS))) else room
  }

  function Through(room: Room, epoch: nat): nat
  {
    if epoch in room.frames then room.frames[epoch] else 0
  }

  predicate Live(room: Room, now: nat)
  {
    room.presence.Some? && room.presence.value.liveUntil >= now
  }

  // ── Handlers ──

  /** `attach_inner`: a new epoch, and only that epoch's frame count kept. */
  function Attached(room: Room, now: nat): Room
  {
    var epoch := if room.presence.Some? then room.presence.value.epoch + 1 else 1;
    room.(presence := Some(Presence(epoch, now + PRESENCE_TTL_SECONDS)),
          frames := map e | e in room.frames && e == epoch :: room.frames[e])
  }

  /** What `accept_batch` answers. */
  function Verdict(room: Room, batch: Batch): Outcome
  {
    if room.presence.None? then NotAttached
    else if room.presence.value.epoch != batch.epoch then EpochStale(room.presence.value.epoch)
    else if batch.fromSeq > Through(room, batch.epoch) + 1 then FramesGap(Through(room, batch.epoch) + 1)
    else Accepted
  }

  /** The frames of an accepted batch that no earlier batch carried. */
  function Fresh(room: Room, batch: Batch): seq<string>
    requires Verdict(room, batch).Accepted?
  {
    var skip := Through(room, batch.epoch) + 1 - batch.fromSeq;
    if skip <= |batch.frames| then batch.frames[skip..] else []
  }

  function Taken(room: Room, batch: Batch, now: nat): Room
  {
    if Verdict(room, batch) != Accepted then room
    else
      var answered := AllAnswered(room, Fresh(room, batch));
      var counted := if batch.frames == [] then answered
        else answered.(frames := answered.frames[batch.epoch :=
          var through := SaturatingSub(batch.fromSeq + |batch.frames|, 1);
          if batch.epoch in answered.frames then Max(through, answered.frames[batch.epoch]) else through]);
      Renewed(Acknowledged(counted, batch.ackThrough), batch.epoch, now)
  }

  /** What `dispatch_command` does with a command. */
  function Dispatched(room: Room, command: Command, now: nat): (Outcome, Room)
  {
    match command
    case RunJob(container, _) => (Accepted, Held(room, Some(container), command))
    case Superseded => (Refused, room)
    case Revoked => (Accepted, Forgotten(if Live(room, now) then Held(room, None, command) else room))
  }

  /** `pending_jobs`, which saturates at `u32::MAX`. */
  function Pending(room: Room): nat
  {
    Min(|Jobs(room.commands)|, U32_MAX)
  }

  // ── The room as an object ──

  class Object {
    var commands: seq<Row>
    var lastSeq: nat
    var presence: Option<Presence>
    var frames: map<nat, nat>

    function Value(): Room
      reads this
    {
      Room(commands, lastSeq, presence, frames)
    }

    constructor ()
      ensures Value() == Room([], 0, None, map[])
    {
      commands, lastSeq, presence, frames := [], 0, None, map[];
    }

    method Attach(now: nat) returns (epoch: nat)
      modifies this
      ensures Value() == Attached(old(Value()), now)
      ensures presence.Some? && presence.value.epoch == epoch
      ensures old(presence).Some? ==> epoch == old(presence).value.epoch + 1
    {
      epoch := if presence.Some? then presence.value.epoch + 1 else 1;
      presence := Some(Presence(epoch, now + PRESENCE_TTL_SECONDS));
      frames := map e | e in frames && e == epoch :: frames[e];
    }

    method Hold(machine: Option<string>, command: Command)
      modifies this
      ensures Value() == Held(old(Value()), machine, command)
    {
      lastSeq := lastSeq + 1;
      commands := commands + [Row(lastSeq, machine, command)];
    }

    method Answer(container: string)
      modifies this
      ensures Value() == Answered(old(Value()), container)
    {
      var jobs := JobsOf(commands, container);
      if jobs != [] {
        var oldest := Oldest(jobs);
        commands := Kept(commands, Except(oldest));
      }
    }

    method ForgetJobs()
      modifies this
      ensures Value() == Forgotten(old(Value()))
    {
      commands := Kept(commands, IsNoJob());
    }

    method Acknowledge(through: nat)
      modifies this
      ensures Value() == Acknowledged(old(Value()), through)
    {
      if through > 0 {
        commands := Kept(commands, Unacknowledged(through));
      }
    }

    method Renew(epoch: nat, now: nat)
      modifies this
      ensures Value() == Renewed(old(Value()), epoch, now)
    {
      if presence.Some? && presence.value.epoch == epoch {
        presence := Some(Presence(epoch, now + PRESENCE_TTL_SECONDS));
      }
    }

    /** `accept_batch`: resumes where the last batch ended, skips what it already has,
        refuses a gap. */
    method AcceptBatch(batch: Batch, now: nat) returns (outcome: Outcome)
      modifies this
      ensures outcome == Verdict(old(Value()), batch)
      ensures Value() == Taken(old(Value()), batch, now)
    {
      hide Kept, JobsOf, Answered, Acknowledged, Renewed, ContainerName;
      if presence.None? { return NotAttached; }
      if presence.value.epoch != batch.epoch { return EpochStale(presence.value.epoch); }
      var through := if batch.epoch in frames then frames[batch.epoch] else 0;
      if batch.fromSeq > through + 1 { return FramesGap(through + 1); }
      var skip := through + 1 - batch.fromSeq;
      var fresh' := if skip <= |batch.frames| then batch.frames[skip..] else [];
      assert fresh' == Fresh(old(Value()), batch);
      for i := 0 to |fresh'|
        invariant Value() == AllAnswered(old(Value()), fresh'[..i])
      {
        assert fresh'[..i + 1][..i] == fresh'[..i];
        Answer(ContainerName(fresh'[i]));
      }
      assert fresh'[..|fresh'|] == fresh';
      if batch.frames != [] {
        var newThrough := SaturatingSub(batch.fromSeq + |batch.frames|, 1);
        frames := frames[batch.epoch :=
          if batch.epoch in frames then Max(newThrough, frames[batch.epoch]) else newThrough];
      }
      Acknowledge(batch.ackThrough);
      Renew(batch.epoch, now);
      outcome := Accepted;
    }

    method Dispatch(command: Command, now: nat) returns (outcome: Outcome)
      modifies this
      ensures (outcome, Value()) == Dispatched(old(Value()), command, now)
      ensures outcome == if command == Superseded then Refused else Accepted
    {
      var live := presence.Some? && presence.value.liveUntil >= now;
      match command {
        case RunJob(container, _) =>
          Hold(Some(container), command);
        case Superseded =>
          return Refused;
        case Revoked =>
          if live {
            Hold(None, command);
          }
          ForgetJobs();
      }
      outcome := Accepted;
    }

    method PendingJobs() returns (count: nat)
      ensures count == Pending(Value())
    {
      count := Min(|Jobs(commands)|, U32_MAX);
    }
  }
}
