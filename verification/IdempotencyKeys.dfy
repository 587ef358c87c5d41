/** `claim`, `record` and `release` over a mutable table (crates/api/src/idempotency.rs).

    Other requests' statements land at each await; `arriving` is what is to come, one group
    per await. `trace` is every statement so far, theirs and this request's: each method
    below is proved to be a run of the protocol, so what holds of every run holds of it.

    HandoffStore and HostStore have the same shape over their own protocols. Here every statement
    has a caller, so foreign are the other callers' and the clock. */
module IdempotencyKeys {
  import opened Prelude
  import opened Idempotency

  predicate Foreign(steps: seq<Step>, caller: nat)
  {
    forall step :: step in steps ==> step.Tick? || step.caller != caller
  }

  predicate AllForeign(groups: seq<seq<Step>>, caller: nat)
  {
    forall group :: group in groups ==> Foreign(group, caller)
  }

  function Playing(b: Board, steps: seq<Step>): Board
  {
    if steps == [] then b else Do(Playing(b, steps[..|steps| - 1]), steps[|steps| - 1])
  }

  function With(b: Board, caller: nat, as': Caller): Board
  {
    b.(callers := b.callers[caller := as'])
  }

  lemma {:induction false} RunPlays(steps: seq<Step>, more: seq<Step>)
    ensures Run(steps + more) == Playing(Run(steps), more)
  {
    hide Do;
    if more == [] {
      assert steps + more == steps;
    } else {
      assert (steps + more)[..|steps + more| - 1] == steps + more[..|more| - 1];
      RunPlays(steps, more[..|more| - 1]);
    }
  }

  lemma ForeignStep(b: Board, step: Step, caller: nat, as': Caller)
    requires step.Tick? || step.caller != caller
    ensures Do(With(b, caller, as'), step) == With(Do(b, step), caller, as')
    ensures caller in Do(b, step).callers <==> caller in b.callers
    ensures b.now <= Do(b, step).now
  {
    hide Inserted, Expired, Recorded, Released, Judged, Opened, RowOf;
    var with', after := With(b, caller, as'), Do(b, step);
    if !step.Tick? && after.callers != b.callers {
      var phase := after.callers[step.caller];
      assert after.callers == b.callers[step.caller := phase];
      assert with'.callers[step.caller := phase] == after.callers[caller := as'];
    }
  }

  /** Nobody else moves this request, or is moved by it. */
  lemma {:induction false} ForeignPlay(b: Board, steps: seq<Step>, caller: nat, as': Caller)
    requires Foreign(steps, caller)
    ensures Playing(With(b, caller, as'), steps) == With(Playing(b, steps), caller, as')
    ensures caller in Playing(b, steps).callers <==> caller in b.callers
    ensures b.now <= Playing(b, steps).now
  {
    hide Do;
    if steps != [] {
      ForeignPlay(b, steps[..|steps| - 1], caller, as');
      ForeignStep(Playing(b, steps[..|steps| - 1]), steps[|steps| - 1], caller, as');
    }
  }

  /** What `claim` answers: a fresh claim, with the time stamped on its row, or an answer. */
  datatype Claimed = Fresh(since: nat) | Answered(answer: Answer)

  function PhaseOf(claimed: Claimed): Phase
  {
    match claimed
    case Fresh(since) => Holding(since)
    case Answered(answer) => Told(answer)
  }

  datatype Response = Created(session: nat) | Replayed(session: nat) | Conflict | InvalidRequest | CreateFailed

  /** A claim that named no session and whose day is over. */
  predicate Dead(table: map<Slot, KeyRow>, now: nat, slot: Slot)
  {
    slot in table && table[slot].session.None? && table[slot].created + 86_400 < now
  }

  predicate Free(table: map<Slot, KeyRow>, now: nat, slot: Slot)
  {
    slot !in table || Dead(table, now, slot)
  }

  /** What a claim's loop leaves of the table before its last turn. */
  predicate Cleared(table: map<Slot, KeyRow>, now: nat, slot: Slot, after: map<Slot, KeyRow>)
  {
    after == table || (Dead(table, now, slot) && after == table - {slot})
  }

  /** What a claim comes to with nobody else about: a key nobody holds, or whose holder's day is
      over, is claimed afresh; a committed one is answered, and one still held is in flight. */
  predicate ClaimedAlone(table: map<Slot, KeyRow>, now: nat, slot: Slot, claimed: Claimed, after: map<Slot, KeyRow>)
  {
    if !(1 <= |slot.key| <= 255) then claimed == Answered(InvalidKey) && after == table
    else if Free(table, now, slot) then claimed == Fresh(now) && after == table[slot := KeyRow(None, now)]
    else
      && after == table
      && claimed == Answered(if table[slot].session.Some? then Committed(table[slot].session.value) else InFlight)
  }

  /** And a request to start a session: on a free key the session is created and recorded, or
      the key is free again. */
  predicate StartedAlone(table: map<Slot, KeyRow>, now: nat, slot: Slot, session: Option<nat>, response: Response, after: map<Slot, KeyRow>)
  {
    if !(1 <= |slot.key| <= 255) then response == InvalidRequest && after == table
    else if Free(table, now, slot) then
      if session.Some? then response == Created(session.value) && after == table[slot := KeyRow(session, now)]
      else response == CreateFailed && after == table - {slot}
    else
      && after == table
      && response == if table[slot].session.Some? then Replayed(table[slot].session.value) else Conflict
  }

  lemma Opening(b: Board, caller: nat, slot: Slot)
    requires caller !in b.callers
    ensures Do(b, Step.Claim(caller, slot)) == With(b, caller, Caller(slot, Opened(b.now, slot)))
  {
  }

  lemma StillThere(table: map<Slot, KeyRow>, now: nat, slot: Slot)
    ensures Cleared(table, now, slot, table)
  {
  }

  lemma FreeIsFresh(table: map<Slot, KeyRow>, now: nat, slot: Slot, after: map<Slot, KeyRow>)
    requires Cleared(table, now, slot, after) && slot !in after && ValidKey(slot.key)
    ensures ClaimedAlone(table, now, slot, Fresh(now), after[slot := KeyRow(None, now)])
  {
  }

  lemma HeldIsAnswered(table: map<Slot, KeyRow>, now: nat, slot: Slot, after: map<Slot, KeyRow>)
    requires Cleared(table, now, slot, after) && slot in after && ValidKey(slot.key)
    ensures match after[slot].session
      case Some(session) => ClaimedAlone(table, now, slot, Answered(Committed(session)), after)
      case None =>
        if after[slot].created < SaturatingSub(now, TTL_SECONDS) then Cleared(table, now, slot, after - {slot})
        else ClaimedAlone(table, now, slot, Answered(InFlight), after)
  {
  }

  class Keys {
    var now: nat
    var table: map<Slot, KeyRow>
    var others: map<nat, Caller>
    var bindings: seq<Binding>
    var arriving: seq<seq<Step>>
    ghost var trace: seq<Step>

    function Value(): Board
      reads this
    {
      Board(now, table, others, bindings)
    }

    /** `caller` is new here. */
    ghost predicate Unknown(caller: nat)
      reads this
    {
      Run(trace) == Value() && caller !in others && AllForeign(arriving, caller)
    }

    /** `caller` is where `as'` says. */
    ghost predicate Stands(caller: nat, as': Caller)
      reads this
    {
      Run(trace) == With(Value(), caller, as') && caller !in others && AllForeign(arriving, caller)
    }

    constructor (concurrent: seq<seq<Step>>)
      ensures Value() == Run([]) && trace == [] && arriving == concurrent
    {
      now, table, others, bindings, arriving, trace := 0, map[], map[], [], concurrent, [];
    }

    /** A suspension point: the next group of statements lands. */
    method Await(ghost caller: nat, ghost as': Caller)
      requires Stands(caller, as')
      modifies this
      ensures Stands(caller, as') && trace == old(trace) + Landing(old(arriving)) && old(now) <= now
      ensures arriving == if old(arriving) == [] then [] else old(arriving)[1..]
      ensures old(arriving) == [] ==> table == old(table) && now == old(now)
    {
      hide Run, Do, Playing;
      if arriving != [] {
        ForeignPlay(Value(), arriving[0], caller, as');
        RunPlays(trace, arriving[0]);
        var after := Playing(Value(), arriving[0]);
        trace := trace + arriving[0];
        now, table, others, bindings := after.now, after.table, after.callers, after.bindings;
        arriving := arriving[1..];
      }
    }

    /** `INSERT OR IGNORE`, and whether it wrote a row. */
    method InsertRow(ghost caller: nat, slot: Slot, ghost cutoff: nat) returns (stamp: nat, inserted: bool)
      requires Stands(caller, Caller(slot, Inserting(cutoff)))
      modifies this
      ensures Stands(caller, Caller(slot, if inserted then Holding(stamp) else Reading(cutoff)))
      ensures trace == Then(old(trace), Landing(old(arriving)), Step.Insert(caller, stamp))
      ensures stamp == old(now) && |arriving| == SaturatingSub(|old(arriving)|, 1)
      ensures old(arriving) == [] ==>
        && inserted == (slot !in old(table)) && now == old(now)
        && table == if inserted then old(table)[slot := KeyRow(None, stamp)] else old(table)
    {
      hide Run;
      stamp := now;
      Await(caller, Caller(slot, Inserting(cutoff)));
      trace := Extended(trace, Step.Insert(caller, stamp));
      inserted := slot !in table;
      if inserted {
        table := table[slot := KeyRow(None, stamp)];
      }
    }

    method SelectRow(ghost caller: nat, slot: Slot, ghost cutoff: nat) returns (row: Option<KeyRow>)
      requires Stands(caller, Caller(slot, Reading(cutoff)))
      modifies this
      ensures Stands(caller, Caller(slot, Judged(row, cutoff)))
      ensures trace == Then(old(trace), Landing(old(arriving)), Step.Read(caller))
      ensures |arriving| == SaturatingSub(|old(arriving)|, 1)
      ensures old(arriving) == [] ==> table == old(table) && now == old(now) && row == RowOf(table, slot)
    {
      hide Run;
      Await(caller, Caller(slot, Reading(cutoff)));
      trace := Extended(trace, Step.Read(caller));
      row := if slot in table then Some(table[slot]) else None;
    }

    method DeleteRow(ghost caller: nat, slot: Slot, cutoff: nat)
      requires Stands(caller, Caller(slot, Deleting(cutoff)))
      modifies this
      ensures Stands(caller, Caller(slot, Inserting(cutoff)))
      ensures trace == Then(old(trace), Landing(old(arriving)), Step.Delete(caller))
      ensures |arriving| == SaturatingSub(|old(arriving)|, 1)
      ensures old(arriving) == [] ==>
        && now == old(now)
        && table == if slot in old(table) && old(table)[slot].created < cutoff then old(table) - {slot} else old(table)
    {
      hide Run;
      Await(caller, Caller(slot, Deleting(cutoff)));
      trace := Extended(trace, Step.Delete(caller));
      if slot in table && table[slot].created < cutoff {
        table := table - {slot};
      }
    }

    /** `claim`: ends however other requests interleave, and every turn but the last answers
        for a statement of theirs or for a row this one deleted. */
    method Claim(ghost caller: nat, slot: Slot) returns (claimed: Claimed)
      requires Unknown(caller)
      modifies this
      ensures Stands(caller, Caller(slot, PhaseOf(claimed))) && old(trace) + [Step.Claim(caller, slot)] <= trace
      ensures claimed.Answered? && claimed.answer.InvalidKey? <==> !ValidKey(slot.key)
      ensures old(arriving) == [] ==> arriving == [] && ClaimedAlone(old(table), old(now), slot, claimed, table)
    {
      hide Run, Do, AllForeign;
      Opening(Value(), caller, slot);
      trace := Extended(trace, Step.Claim(caller, slot));
      if |slot.key| == 0 || |slot.key| > MAX_KEY_CHARS { return Answered(InvalidKey); }
      var cutoff := SaturatingSub(now, TTL_SECONDS);
      assert Stands(caller, Caller(slot, Inserting(cutoff)));
      hide Stands, ValidKey, Then, Landing, ClaimedAlone, Cleared;
      StillThere(table, now, slot);
      while true
        invariant Stands(caller, Caller(slot, Inserting(cutoff))) && old(trace) + [Step.Claim(caller, slot)] <= trace
        invariant old(arriving) == [] ==> arriving == [] && now == old(now)
        invariant old(arriving) == [] ==> Cleared(old(table), old(now), slot, table)
        decreases |arriving|, if slot in table then 1 else 0
      {
        ghost var before := table;
        var stamp, inserted := InsertRow(caller, slot, cutoff);
        if inserted {
          if old(arriving) == [] { FreeIsFresh(old(table), old(now), slot, before); }
          return Fresh(stamp);
        }
        var row := SelectRow(caller, slot, cutoff);
        if row.None? { continue; }
        var held := row.value;
        if old(arriving) == [] { HeldIsAnswered(old(table), old(now), slot, table); }
        if held.session.Some? { return Answered(Committed(held.session.value)); }
        if held.created >= cutoff { return Answered(InFlight); }
        DeleteRow(caller, slot, cutoff);
      }
    }

    /** `FreshClaim::record`. */
    method Record(ghost caller: nat, slot: Slot, ghost since: nat, session: nat)
      requires Stands(caller, Caller(slot, Holding(since)))
      modifies this
      ensures Stands(caller, Caller(slot, Finished))
      ensures trace == Then(old(trace), Landing(old(arriving)), Step.Record(caller, session))
      ensures old(arriving) == [] && slot in old(table) ==> table == old(table)[slot := old(table)[slot].(session := Some(session))]
    {
      hide Run;
      Await(caller, Caller(slot, Holding(since)));
      trace := Extended(trace, Step.Record(caller, session));
      if slot in table {
        table := table[slot := table[slot].(session := Some(session))];
        bindings := bindings + [Binding(slot, session)];
      }
    }

    /** `FreshClaim::release`. */
    method Release(ghost caller: nat, slot: Slot, ghost since: nat)
      requires Stands(caller, Caller(slot, Holding(since)))
      modifies this
      ensures Stands(caller, Caller(slot, Finished))
      ensures trace == Then(old(trace), Landing(old(arriving)), Step.Release(caller))
      ensures old(arriving) == [] && slot in old(table) && old(table)[slot].session.None? ==> table == old(table) - {slot}
    {
      hide Run;
      Await(caller, Caller(slot, Holding(since)));
      trace := Extended(trace, Step.Release(caller));
      if slot in table && table[slot].session.None? {
        table := table - {slot};
      }
    }

    /** The claim, create, and record or release of `start_session` under a presented key;
        `session` is what the create comes to. A session is answered as created only when
        this request recorded it, and a create that fails gives the key back. */
    method StartSession(ghost caller: nat, slot: Slot, session: Option<nat>) returns (response: Response)
      requires Unknown(caller)
      modifies this
      ensures match response
        case Created(s) => session == Some(s) && Stands(caller, Caller(slot, Finished)) && LastStep(trace, Step.Record(caller, s))
        case Replayed(s) => Stands(caller, Caller(slot, Told(Committed(s))))
        case Conflict => Stands(caller, Caller(slot, Told(InFlight)))
        case InvalidRequest => Stands(caller, Caller(slot, Told(InvalidKey)))
        case CreateFailed => session == None && Stands(caller, Caller(slot, Finished)) && LastStep(trace, Step.Release(caller))
      ensures old(arriving) == [] ==> StartedAlone(old(table), old(now), slot, session, response, table)
    {
      hide Stands, Run;
      var claimed := Claim(caller, slot);
      match claimed {
        case Answered(Committed(held)) => return Replayed(held);
        case Answered(InFlight) => return Conflict;
        case Answered(InvalidKey) => return InvalidRequest;
        case Fresh(since) =>
          if session.None? {
            Release(caller, slot, since);
            return CreateFailed;
          }
          Record(caller, slot, since, session.value);
          return Created(session.value);
      }
    }
  }

  predicate LastStep(trace: seq<Step>, step: Step)
  {
    trace != [] && trace[|trace| - 1] == step
  }

  ghost function Extended(trace: seq<Step>, step: Step): (longer: seq<Step>)
    ensures longer == trace + [step]
    ensures Run(longer) == Do(Run(trace), step)
  {
    assert (trace + [step])[..|trace|] == trace;
    trace + [step]
  }
}
