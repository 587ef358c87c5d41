/** The compute-budget engine (crates/core/src/budget.rs, crates/core/src/money.rs):
    stages, signals, and the replay of a spend ledger.

    An amount is a number of microdollars. The engine panics when a total leaves
    `u64` or when a ratio in basis points does; a panic is `None` here. */
module BudgetEngine {
  import opened Prelude

  const SMALL_BUDGET_LIMIT: nat := 5_000_000

  datatype Stage = Ok | Notice50 | Warn80 | Final90 | Exhausted

  datatype Signal = Notice50 | Warn80 | FinalWarn90 | Pause

  function StageOrdinal(stage: Stage): nat
  {
    match stage
    case Ok => 0
    case Notice50 => 1
    case Warn80 => 2
    case Final90 => 3
    case Exhausted => 4
  }

  function SignalOrdinal(signal: Signal): nat
  {
    match signal
    case Notice50 => 1
    case Warn80 => 2
    case FinalWarn90 => 3
    case Pause => 4
  }

  function StageForBasisPoints(bp: nat): Stage
  {
    if bp < 5_000 then Stage.Ok
    else if bp < 8_000 then Stage.Notice50
    else if bp < 9_000 then Stage.Warn80
    else if bp < 10_000 then Stage.Final90
    else Stage.Exhausted
  }

  function SignalForStage(stage: Stage, limit: nat): Option<Signal>
  {
    match stage
    case Ok => None
    case Notice50 => if limit < SMALL_BUDGET_LIMIT then None else Some(Signal.Notice50)
    case Warn80 => if limit < SMALL_BUDGET_LIMIT then None else Some(Signal.Warn80)
    case Final90 => Some(Signal.FinalWarn90)
    case Exhausted => Some(Signal.Pause)
  }

  /** `BudgetState`: a limit, what was spent against it, and the stage reached. */
  datatype State = State(limit: nat, spent: nat, stage: Stage)

  function BasisPoints(spent: nat, limit: nat): nat
    requires limit > 0
  {
    spent * 10_000 / limit
  }

  /** `BudgetState::apply`: the new state and the signal the event raises, or the panic. */
  function Apply(st: State, amount: nat): Option<(State, Option<Signal>)>
    requires st.limit > 0
  {
    var spent := st.spent + amount;
    if spent > U64_MAX || BasisPoints(spent, st.limit) > U64_MAX then None
    else
      var stage := StageForBasisPoints(BasisPoints(spent, st.limit));
      if StageOrdinal(stage) <= StageOrdinal(st.stage) then
        Some((State(st.limit, spent, st.stage), None))
      else
        Some((State(st.limit, spent, stage), SignalForStage(stage, st.limit)))
  }

  /** The state the engine is in after a ledger, event by event from a fresh budget. */
  function Replayed(limit: nat, events: seq<nat>): (r: Option<State>)
    requires limit > 0
    ensures r.Some? ==> r.value.limit == limit
  {
    if events == [] then Some(State(limit, 0, Stage.Ok))
    else
      var before := Replayed(limit, events[..|events| - 1]);
      if before.None? then None
      else
        var step := Apply(before.value, events[|events| - 1]);
        if step.None? then None else Some(step.value.0)
  }

  /** Whether a total is one the engine can hold against a limit without panicking. */
  predicate Holds(limit: nat, total: nat)
    requires limit > 0
  {
    total <= U64_MAX && BasisPoints(total, limit) <= U64_MAX
  }

  /** The state a total implies, with no history in it. */
  function StateOf(limit: nat, total: nat): State
    requires limit > 0
  {
    State(limit, total, StageForBasisPoints(BasisPoints(total, limit)))
  }

  lemma BasisPointsMonotone(a: nat, b: nat, limit: nat)
    requires a <= b && limit > 0
    ensures BasisPoints(a, limit) <= BasisPoints(b, limit)
    ensures StageOrdinal(StageForBasisPoints(BasisPoints(a, limit)))
         <= StageOrdinal(StageForBasisPoints(BasisPoints(b, limit)))
  {
    DivMonotone(a * 10_000, b * 10_000, limit);
  }

  /** Replaying a ledger one event at a time ends exactly where its total alone says, and
      panics exactly when that total is not one the engine can hold. */
  lemma {:induction false} ReplayIsTheTotal(limit: nat, events: seq<nat>)
    requires limit > 0
    ensures Replayed(limit, events)
         == if Holds(limit, Sum(events)) then Some(StateOf(limit, Sum(events))) else None
  {
    if events == [] {
      assert BasisPoints(0, limit) == 0;
    } else {
      var n := |events| - 1;
      ReplayIsTheTotal(limit, events[..n]);
      BasisPointsMonotone(Sum(events[..n]), Sum(events), limit);
    }
  }

  /** The order a ledger is read in decides neither the total nor the stage. */
  lemma ReplayIgnoresOrder(limit: nat, events: seq<nat>, others: seq<nat>)
    requires limit > 0 && multiset(events) == multiset(others)
    ensures Replayed(limit, events) == Replayed(limit, others)
  {
    SumOfPermutation(events, others);
    ReplayIsTheTotal(limit, events);
    ReplayIsTheTotal(limit, others);
  }

  /** The signals a replay announces above a floor: the thresholds a ledger crosses past
      the stage that was already on record. */
  function Crossings(limit: nat, events: seq<nat>, floor: Stage): seq<Signal>
    requires limit > 0
  {
    if events == [] then []
    else
      var earlier := Crossings(limit, events[..|events| - 1], floor);
      var before := Replayed(limit, events[..|events| - 1]);
      if before.None? then earlier
      else
        match Apply(before.value, events[|events| - 1])
        case None => earlier
        case Some((after, signal)) =>
          if StageOrdinal(after.stage) > StageOrdinal(floor) && signal.Some?
          then earlier + [signal.value] else earlier
  }

  predicate Increasing(signals: seq<Signal>)
  {
    forall i, j :: 0 <= i < j < |signals| ==> SignalOrdinal(signals[i]) < SignalOrdinal(signals[j])
  }

  /** What a replay announces: each threshold once, in rising order, every one above the
      floor and none above the stage reached; and the signal of the stage reached is
      among them exactly when that stage is above the floor. */
  lemma {:induction false} CrossingsAnnounceTheRise(limit: nat, events: seq<nat>, floor: Stage)
    requires limit > 0 && Replayed(limit, events).Some?
    ensures Increasing(Crossings(limit, events, floor))
    ensures forall s :: s in Crossings(limit, events, floor) ==>
      StageOrdinal(floor) < SignalOrdinal(s) <= StageOrdinal(Replayed(limit, events).value.stage)
    ensures var reached := Replayed(limit, events).value.stage;
      SignalForStage(reached, limit).Some? ==>
        (SignalForStage(reached, limit).value in Crossings(limit, events, floor)) ==
        (StageOrdinal(reached) > StageOrdinal(floor))
  {
    if events != [] {
      CrossingsAnnounceTheRise(limit, events[..|events| - 1], floor);
    }
  }
}
