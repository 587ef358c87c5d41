/** A machine's command stream (crates/api/src/host_room.rs): a cursor over the mailbox,
    polled until the attach it serves is superseded. */
module CommandFeed {
  import opened Prelude
  import opened HostRoom

  datatype Feed = Feed(epoch: nat, cursor: nat, announced: bool, lastTouch: nat)

  /** Where a poll's storage can fail it: reading presence, renewing it, reading the rows,
      or charging for them. */
  datatype Fault = NoFault | PresenceFault | RenewFault | RowsFault | ChargeFault

  datatype Poll = Emit(rows: seq<Row>) | Notice | Idle | End

  function Beyond(cursor: nat): Row -> bool { (row: Row) => row.seqno > cursor }

  /** `WHERE seq > … ORDER BY seq`; the mailbox is kept in sequence order. */
  function Owed(rows: seq<Row>, cursor: nat): seq<Row>
  {
    Kept(rows, Beyond(cursor))
  }

  predicate IsSuperseded(room: Room, feed: Feed)
  {
    room.presence.Some? && room.presence.value.epoch != feed.epoch
  }

  predicate DueToRenew(feed: Feed, now: nat)
  {
    SaturatingSub(now, feed.lastTouch) >= PRESENCE_REFRESH_SECONDS
  }

  /** What one poll leaves the room and the stream as, and what it says. */
  function Polled(room: Room, feed: Feed, now: nat, fault: Fault): (Room, Feed, Poll)
  {
    if fault == PresenceFault then (room, feed, Idle)
    else if IsSuperseded(room, feed) then (room, feed.(announced := true), if feed.announced then End else Notice)
    else if DueToRenew(feed, now) && fault == RenewFault then (room, feed, Idle)
    else
      var room' := if DueToRenew(feed, now) then Renewed(room, feed.epoch, now) else room;
      var feed' := if DueToRenew(feed, now) then feed.(lastTouch := now) else feed;
      var rows := Owed(room.commands, feed.cursor);
      if fault == RowsFault || fault == ChargeFault || rows == [] then (room', feed', Idle)
      else (room', feed'.(cursor := rows[|rows| - 1].seqno), Emit(rows))
  }

  class CommandFeed {
    const epoch: nat
    var cursor: nat
    var supersededAnnounced: bool
    var lastTouch: nat

    function Value(): Feed
      reads this
    {
      Feed(epoch, cursor, supersededAnnounced, lastTouch)
    }

    /** `open_command_stream`, once the epoch has been found to be the one in force. */
    constructor (epoch: nat)
      ensures Value() == Feed(epoch, 0, false, 0)
    {
      this.epoch := epoch;
      cursor, supersededAnnounced, lastTouch := 0, false, 0;
    }

    method Step(room: Object, now: nat, fault: Fault) returns (poll: Poll)
      modifies this, room
      ensures (room.Value(), Value(), poll) == Polled(old(room.Value()), old(Value()), now, fault)
    {
      hide Kept;
      if fault == PresenceFault { return Idle; }
      if room.presence.Some? && room.presence.value.epoch != epoch {
        if supersededAnnounced { return End; }
        supersededAnnounced := true;
        return Notice;
      }
      if SaturatingSub(now, lastTouch) >= PRESENCE_REFRESH_SECONDS {
        if fault == RenewFault { return Idle; }
        room.Renew(epoch, now);
        lastTouch := now;
      }
      if fault == RowsFault { return Idle; }
      var rows := Owed(room.commands, cursor);
      if rows == [] { return Idle; }
      if fault == ChargeFault { return Idle; }
      cursor := rows[|rows| - 1].seqno;
      poll := Emit(rows);
    }
  }
}
