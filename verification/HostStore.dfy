/** `mint`, `enroll`, `rotate`, `authenticates`, `remove` and `refresh` over mutable tables
    (crates/api/src/hosts.rs).

    Other calls' steps land at each await; `arriving` is what is to come, one group per
    await. `trace` is every step so far, theirs and this call's: each method below is proved
    to be a run of the protocol, so what holds of every run holds of it.

    The shape is that of IdempotencyKeys, with one difference: foreign steps must also not
    generate the identifiers and tokens this call is still to generate. */
module HostStore {
  import opened Prelude
  import opened Hosts
  import opened HostCalls

  /** Steps of other calls, which never generate the identifiers and tokens in `names`. */
  predicate Foreign(steps: seq<Step>, call: nat, names: set<nat>)
  {
    forall step :: step in steps ==> step.call != call && !Names(step, names)
  }

  predicate Names(step: Step, names: set<nat>)
  {
    match step
    case Mint(_, _, token, _) => token in names
    case InsertHost(_, id, secret) => id in names || secret in names
    case SetToken(_, secret) => secret in names
    case _ => false
  }

  predicate AllForeign(groups: seq<seq<Step>>, call: nat, names: set<nat>)
  {
    forall group :: group in groups ==> Foreign(group, call, names)
  }

  function Playing(w: World, steps: seq<Step>): World
  {
    if steps == [] then w else Do(Playing(w, steps[..|steps| - 1]), steps[|steps| - 1])
  }

  function With(w: World, call: nat, at: Call): World
  {
    w.(calls := w.calls[call := at])
  }

  predicate Untaken(t: Tables, names: set<nat>)
  {
    forall name :: name in names ==> name !in t.makers && name !in t.secrets
  }

  lemma {:induction false} RunPlays(steps: seq<Step>, more: seq<Step>)
    ensures Run(steps + more) == Playing(Run(steps), more)
  {
    hide Do, Run;
    RunMore(steps, more);
    if more != [] {
      RunPlays(steps, more[..|more| - 1]);
    }
  }

  lemma ForeignStep(w: World, step: Step, call: nat, at: Call, names: set<nat>)
    requires step.call != call && !Names(step, names)
    ensures Do(With(w, call, at), step) == With(Do(w, step), call, at)
    ensures call in Do(w, step).calls <==> call in w.calls
    ensures Untaken(w.t, names) ==> Untaken(Do(w, step).t, names)
  {
    assert At(With(w, call, at), step.call) == At(w, step.call);
    var moved := Moves(w.t, step.call, At(w, step.call), step);
    if moved.Some? {
      assert w.calls[call := at][step.call := moved.value.1] == w.calls[step.call := moved.value.1][call := at];
      GeneratesOnlyItsNames(w.t, step.call, At(w, step.call), step, names);
    }
    hide Moves;
  }

  lemma GeneratesOnlyItsNames(t: Tables, call: nat, at: Option<Call>, step: Step, names: set<nat>)
    requires !Names(step, names) && Moves(t, call, at, step).Some?
    ensures Untaken(t, names) ==> Untaken(Moves(t, call, at, step).value.0, names)
  {
  }

  /** Nobody else moves this call, is moved by it, or generates its names. */
  lemma {:induction false} ForeignPlay(w: World, steps: seq<Step>, call: nat, at: Call, names: set<nat>)
    requires Foreign(steps, call, names)
    ensures Playing(With(w, call, at), steps) == With(Playing(w, steps), call, at)
    ensures call in Playing(w, steps).calls <==> call in w.calls
    ensures Untaken(w.t, names) ==> Untaken(Playing(w, steps).t, names)
  {
    hide Do, Untaken, Names;
    if steps != [] {
      ForeignPlay(w, steps[..|steps| - 1], call, at, names);
      ForeignStep(Playing(w, steps[..|steps| - 1]), steps[|steps| - 1], call, at, names);
    }
  }

  /** The steps of one call, in order. */
  function Own(steps: seq<Step>, call: nat): seq<Step>
  {
    if steps == [] then []
    else
      var last := steps[|steps| - 1];
      Own(steps[..|steps| - 1], call) + if last.call == call then [last] else []
  }

  lemma {:induction false} ForeignIsNotOwn(trace: seq<Step>, steps: seq<Step>, call: nat, names: set<nat>)
    requires Foreign(steps, call, names)
    ensures Own(trace + steps, call) == Own(trace, call)
  {
    if steps == [] {
      assert trace + steps == trace;
    } else {
      ForeignIsNotOwn(trace, steps[..|steps| - 1], call, names);
      assert (trace + steps)[..|trace + steps| - 1] == trace + steps[..|steps| - 1];
      assert steps[|steps| - 1] in steps;
    }
  }

  ghost function Extended(trace: seq<Step>, step: Step): (longer: seq<Step>)
    ensures longer == trace + [step]
    ensures Run(longer) == Do(Run(trace), step)
    ensures forall call :: Own(longer, call) == Own(trace, call) + if step.call == call then [step] else []
  {
    assert (trace + [step])[..|trace|] == trace;
    trace + [step]
  }

  class Store {
    var tokens: map<nat, TokenRow>
    var hosts: map<nat, HostRow>
    var accounts: map<nat, nat>
    var makers: map<nat, nat>
    var secrets: map<nat, Option<nat>>
    var deallocated: set<nat>
    var others: map<nat, Call>
    var arriving: seq<seq<Step>>
    ghost var trace: seq<Step>

    function Value(): World
      reads this
    {
      World(Tables(tokens, hosts, accounts, makers, secrets, deallocated), others)
    }

    /** `call` is new here, and `names` are what it is to generate. */
    ghost predicate Unknown(call: nat, names: set<nat>)
      reads this
    {
      Run(trace) == Value() && call !in others && AllForeign(arriving, call, names) && Untaken(Value().t, names)
    }

    /** `call` is where `at` says, with `names` still to generate. */
    ghost predicate Stands(call: nat, at: Call, names: set<nat>)
      reads this
    {
      Run(trace) == With(Value(), call, at) && call !in others && AllForeign(arriving, call, names) && Untaken(Value().t, names)
    }

    constructor (concurrent: seq<seq<Step>>)
      ensures Value() == Run([]) && trace == [] && arriving == concurrent
    {
      tokens, hosts, accounts, makers, secrets, deallocated, others := map[], map[], map[], map[], map[], {}, map[];
      arriving, trace := concurrent, [];
    }

    /** A suspension point: the next group of steps lands. */
    method Await(ghost call: nat, ghost at: Call, ghost names: set<nat>)
      requires Stands(call, at, names)
      modifies this
      ensures Stands(call, at, names) && trace == old(trace) + Landing(old(arriving)) && Own(trace, call) == Own(old(trace), call)
    {
      hide Run, Own, Do, Playing, Untaken;
      if arriving != [] {
        ForeignPlay(Value(), arriving[0], call, at, names);
        ForeignIsNotOwn(trace, arriving[0], call, names);
        RunPlays(trace, arriving[0]);
        var after := Playing(Value(), arriving[0]);
        trace := trace + arriving[0];
        tokens, hosts, accounts, makers, secrets := after.t.tokens, after.t.hosts, after.t.accounts, after.t.makers, after.t.secrets;
        deallocated, others := after.t.deallocated, after.calls;
        arriving := arriving[1..];
      }
    }

    method Mint(ghost call: nat, user: nat, token: nat, now: nat)
      requires Unknown(call, {token})
      modifies this
      ensures Stands(call, Over(Minted(token)), {})
      ensures trace == old(trace) + [Step.Mint(call, user, token, now)]
    {
      hide Run, Own;
      trace := Extended(trace, Step.Mint(call, user, token, now));
      tokens := tokens[token := TokenRow(user, now + ENROLLMENT_TOKEN_TTL_SECONDS, None, None)];
      secrets := secrets[token := None];
    }

    method InsertHost(call: nat, token: nat, user: nat, ghost asked: nat, id: nat, secret: nat)
      requires Stands(call, Inserting(token, user, asked), {id, secret})
      modifies this
      ensures Stands(call, Spending(token, user, asked, id, secret), {})
      ensures trace == Then(old(trace), Landing(old(arriving)), Step.InsertHost(call, id, secret))
      ensures Own(trace, call) == Own(old(trace), call) + [Step.InsertHost(call, id, secret)]
    {
      hide Run, Own, Tends, AllForeign;
      Await(call, Inserting(token, user, asked), {id, secret});
      Drops(arriving, call, {id, secret}, {});
      trace := Extended(trace, Step.InsertHost(call, id, secret));
      hosts := hosts[id := HostRow(user, Some(secret), Offline)];
      makers := makers[id := call];
      secrets := secrets[secret := Some(id)];
    }

    /** The guarded update that spends the token. */
    method Spend(ghost call: nat, token: nat, ghost user: nat, ghost asked: nat, id: nat, ghost secret: nat, now: nat) returns (won: bool)
      requires Stands(call, Spending(token, user, asked, id, secret), {})
      modifies this
      ensures Stands(call, if won then Linking(token, user, id, secret) else Undoing(token, id), {})
      ensures trace == Then(old(trace), Landing(old(arriving)), Step.Spend(call, now))
      ensures Own(trace, call) == Own(old(trace), call) + [Step.Spend(call, now)]
    {
      hide Run, Own;
      Await(call, Spending(token, user, asked, id, secret), {});
      trace := Extended(trace, Step.Spend(call, now));
      won := token in tokens && tokens[token].spent.None?;
      if won {
        tokens := tokens[token := tokens[token].(spent := Some(now), host := Some(id))];
      }
    }

    /** The compensation: a refused racer deletes the row it inserted. */
    method DeleteHost(ghost call: nat, ghost token: nat, id: nat)
      requires Stands(call, Undoing(token, id), {})
      modifies this
      ensures Stands(call, Over(EnrollmentTokenExpired), {})
      ensures trace == Then(old(trace), Landing(old(arriving)), Step.Undo(call))
      ensures Own(trace, call) == Own(old(trace), call) + [Step.Undo(call)]
    {
      hide Run, Own;
      Await(call, Undoing(token, id), {});
      trace := Extended(trace, Step.Undo(call));
      hosts := hosts - {id};
    }

    method CreateAccount(ghost call: nat, ghost token: nat, user: nat, id: nat, ghost secret: nat)
      requires Stands(call, Linking(token, user, id, secret), {})
      modifies this
      ensures Stands(call, Call.Enrolled(token, id, secret), {})
      ensures trace == Then(old(trace), Landing(old(arriving)), Step.Link(call))
      ensures Own(trace, call) == Own(old(trace), call) + [Step.Link(call)]
    {
      hide Run, Own;
      Await(call, Linking(token, user, id, secret), {});
      trace := Extended(trace, Step.Link(call));
      accounts := accounts[id := user];
    }

    /** `enroll`. */
    method Enroll(call: nat, token: nat, id: nat, secret: nat, now: nat) returns (enrolled: bool)
      requires Unknown(call, {id, secret})
      modifies this
      ensures enrolled ==> Stands(call, Call.Enrolled(token, id, secret), {})
      ensures !enrolled ==> Stands(call, Over(EnrollmentTokenExpired), {})
      ensures var own := Own(old(trace), call) + [Step.Present(call, token, now), Step.InsertHost(call, id, secret), Step.Spend(call, now)];
        if enrolled then Own(trace, call) == own + [Step.Link(call)] else Own(trace, call) <= own + [Step.Undo(call)]
    {
      hide Run, Own, Then, Landing;
      trace := Extended(trace, Step.Present(call, token, now));
      if token !in tokens || tokens[token].spent.Some? || tokens[token].expires <= now {
        Drops(arriving, call, {id, secret}, {});
        return false;
      }
      var user := tokens[token].user;
      assert Stands(call, Inserting(token, user, now), {id, secret});
      hide Stands;
      InsertHost(call, token, user, now, id, secret);
      var won := Spend(call, token, user, now, id, secret, now);
      if !won {
        DeleteHost(call, token, id);
        return false;
      }
      CreateAccount(call, token, user, id, secret);
      enrolled := true;
    }

    method SetToken(ghost call: nat, host: nat, secret: nat)
      requires Stands(call, Rotating(host), {secret})
      modifies this
      ensures Stands(call, Over(Rotated(host, secret)), {})
      ensures trace == Then(old(trace), Landing(old(arriving)), Step.SetToken(call, secret))
      ensures Own(trace, call) == Own(old(trace), call) + [Step.SetToken(call, secret)]
    {
      hide Run, Own, Enrolls, AllForeign;
      Await(call, Rotating(host), {secret});
      Drops(arriving, call, {secret}, {});
      trace := Extended(trace, Step.SetToken(call, secret));
      if host in hosts {
        hosts := hosts[host := hosts[host].(token := Some(secret))];
      }
      secrets := secrets[secret := Some(host)];
    }

    /** `rotate`. */
    method Rotate(ghost call: nat, user: nat, host: nat, secret: nat) returns (result: Result)
      requires Unknown(call, {secret})
      modifies this
      ensures Stands(call, Over(result), {})
      ensures Own(trace, call) <= Own(old(trace), call) + [Step.Rotate(call, user, host), Step.SetToken(call, secret)]
    {
      hide Run, Own, Then, Landing;
      trace := Extended(trace, Step.Rotate(call, user, host));
      if host !in hosts || hosts[host].user != user {
        Drops(arriving, call, {secret}, {});
        return HostNotFound;
      }
      if hosts[host].state == State.Removed {
        Drops(arriving, call, {secret}, {});
        return HostRemoved;
      }
      assert Stands(call, Rotating(host), {secret});
      hide Stands;
      SetToken(call, host, secret);
      result := Rotated(host, secret);
    }

    /** `authenticates`. */
    method Authenticates(host: nat, presented: nat) returns (yes: bool)
      ensures yes == Hosts.Authenticates(Value().t, host, presented)
    {
      yes := host in hosts && hosts[host].token == Some(presented);
    }

    method Drain(ghost call: nat, host: nat, ghost live: seq<LiveMachine>)
      requires Stands(call, Call.Draining(host, live), {})
      modifies this
      ensures Stands(call, Stopping(host, live, 0), {})
      ensures trace == Then(old(trace), Landing(old(arriving)), Step.Drain(call))
      ensures Own(trace, call) == Own(old(trace), call) + [Step.Drain(call)]
    {
      hide Run, Own;
      Await(call, Call.Draining(host, live), {});
      trace := Extended(trace, Step.Drain(call));
      if host in hosts {
        hosts := hosts[host := hosts[host].(state := State.Draining)];
      }
    }

    /** One turn of the loop over live machines: one with a container is deallocated. */
    method StopMachine(ghost call: nat, ghost host: nat, live: seq<LiveMachine>, next: nat)
      requires next < |live| && Stands(call, Stopping(host, live, next), {})
      modifies this
      ensures Stands(call, Stopping(host, live, next + 1), {})
      ensures trace == Then(old(trace), Landing(old(arriving)), Step.Stop(call))
      ensures Own(trace, call) == Own(old(trace), call) + [Step.Stop(call)]
    {
      hide Run, Own;
      Await(call, Stopping(host, live, next), {});
      trace := Extended(trace, Step.Stop(call));
      if live[next].container {
        deallocated := deallocated + {live[next].machine};
      }
    }

    method Revoke(ghost call: nat, host: nat, ghost live: seq<LiveMachine>)
      requires Stands(call, Stopping(host, live, |live|), {})
      modifies this
      ensures Stands(call, Over(Gone), {})
      ensures trace == Then(old(trace), Landing(old(arriving)), Step.Revoke(call))
      ensures Own(trace, call) == Own(old(trace), call) + [Step.Revoke(call)]
    {
      hide Run, Own, Enrolls;
      Await(call, Stopping(host, live, |live|), {});
      trace := Extended(trace, Step.Revoke(call));
      if host in hosts {
        hosts := hosts[host := hosts[host].(state := State.Removed, token := None)];
      }
    }

    method FindAccount(ghost call: nat, host: nat, ghost force: bool) returns (found: bool)
      requires Stands(call, Finding(host, force), {})
      modifies this
      ensures Stands(call, if found then Counting(host, force) else Over(ProviderAccountNotFound), {})
      ensures trace == Then(old(trace), Landing(old(arriving)), Step.FindAccount(call))
      ensures Own(trace, call) == Own(old(trace), call) + [Step.FindAccount(call)]
    {
      hide Run, Own;
      Await(call, Finding(host, force), {});
      trace := Extended(trace, Step.FindAccount(call));
      found := host in accounts;
    }

    /** `live` is what the machines table answers. */
    method CountLive(ghost call: nat, ghost host: nat, force: bool, live: seq<LiveMachine>) returns (clear: bool)
      requires Stands(call, Counting(host, force), {})
      modifies this
      ensures Stands(call, if clear then Call.Draining(host, live) else Over(HostHasActiveSessions), {})
      ensures clear <==> live == [] || force
      ensures trace == Then(old(trace), Landing(old(arriving)), Step.CountLive(call, live))
      ensures Own(trace, call) == Own(old(trace), call) + [Step.CountLive(call, live)]
    {
      hide Run, Own;
      Await(call, Counting(host, force), {});
      trace := Extended(trace, Step.CountLive(call, live));
      clear := |live| == 0 || force;
    }

    /** `remove`; `live` are the machines that run on the host when it looks. */
    method Remove(ghost call: nat, user: nat, host: nat, live: seq<LiveMachine>, force: bool) returns (result: Result)
      requires Unknown(call, {})
      modifies this
      ensures Stands(call, Over(result), {})
      ensures Own(trace, call) <= Own(old(trace), call) + Removal(call, user, host, force, live)
    {
      hide Run, Own, Then, Landing, Stops, Removal, Do;
      AskingComesTo(Value(), call, user, host, force);
      RemovalGoes(Own(trace, call), call, user, host, force, live);
      trace := Extended(trace, Step.Remove(call, user, host, force));
      if host !in hosts || hosts[host].user != user { return HostNotFound; }
      if hosts[host].state == State.Removed { return Gone; }
      assert Stands(call, Finding(host, force), {});
      hide Stands;
      var found := FindAccount(call, host, force);
      if !found { return ProviderAccountNotFound; }
      var clear := CountLive(call, host, force, live);
      if !clear { return HostHasActiveSessions; }
      Drain(call, host, live);
      ghost var own := Own(trace, call);
      var next := 0;
      StopsGrow(call, 0);
      while next < |live|
        invariant next <= |live| && Stands(call, Stopping(host, live, next), {})
        invariant Own(trace, call) == own + Stops(call, next)
      {
        StopMachine(call, host, live, next);
        StopsGrow(call, next);
        next := next + 1;
      }
      Revoke(call, host, live);
      result := Gone;
    }

    /** `arrived`: a host whose daemon attaches is online, unless it is going or gone. */
    method Arrive(ghost call: nat, host: nat)
      requires Unknown(call, {})
      modifies this
      ensures Stands(call, Over(Refreshed), {})
      ensures trace == old(trace) + [Step.Arrive(call, host)]
    {
      hide Run, Own;
      trace := Extended(trace, Step.Arrive(call, host));
      if host in hosts && hosts[host].state != State.Removed && hosts[host].state != State.Draining {
        hosts := hosts[host := hosts[host].(state := Online)];
      }
    }

    /** The room answers, if it can be reached; `changed` is whether its facts or the time last
        seen differ from the row's. */
    method Hear(ghost call: nat, ghost host: nat, read: State, answer: Option<bool>, changed: bool) returns (write: bool)
      requires Stands(call, Asking(host, read), {})
      modifies this
      ensures write <==> answer.Some? && (Reported(answer.value) != read || changed)
      ensures Stands(call, if write then WritingBack(host, answer.value) else Over(Refreshed), {})
      ensures trace == Then(old(trace), Landing(old(arriving)), Step.Hear(call, answer, changed))
      ensures Own(trace, call) == Own(old(trace), call) + [Step.Hear(call, answer, changed)]
    {
      hide Run, Own;
      Await(call, Asking(host, read), {});
      trace := Extended(trace, Step.Hear(call, answer, changed));
      if answer.None? { return false; }
      var state := if answer.value then Online else Offline;
      write := state != read || changed;
    }

    method WriteBack(ghost call: nat, host: nat, connected: bool)
      requires Stands(call, WritingBack(host, connected), {})
      modifies this
      ensures Stands(call, Over(Refreshed), {})
      ensures trace == Then(old(trace), Landing(old(arriving)), Step.WriteBack(call))
      ensures Own(trace, call) == Own(old(trace), call) + [Step.WriteBack(call)]
    {
      hide Run, Own;
      Await(call, WritingBack(host, connected), {});
      trace := Extended(trace, Step.WriteBack(call));
      if host in hosts {
        hosts := hosts[host := hosts[host].(state := if connected then Online else Offline)];
      }
    }

    /** The load and `refresh` of `view`. */
    method Refresh(ghost call: nat, host: nat, answer: Option<bool>, changed: bool) returns (result: Result)
      requires Unknown(call, {})
      modifies this
      ensures Stands(call, Over(result), {})
      ensures Own(trace, call) <= Own(old(trace), call) + [Step.Refresh(call, host), Step.Hear(call, answer, changed), Step.WriteBack(call)]
    {
      hide Run, Own, Then, Landing;
      trace := Extended(trace, Step.Refresh(call, host));
      if host !in hosts { return HostNotFound; }
      var read := hosts[host].state;
      if read == State.Draining || read == State.Removed { return Refreshed; }
      assert Stands(call, Asking(host, read), {});
      hide Stands;
      var write := Hear(call, host, read, answer, changed);
      if write { WriteBack(call, host, answer.value); }
      result := Refreshed;
    }
  }

  /** The statements of a removal that is not refused. */
  ghost function Removal(call: nat, user: nat, host: nat, force: bool, live: seq<LiveMachine>): seq<Step>
  {
    [Step.Remove(call, user, host, force), Step.FindAccount(call), Step.CountLive(call, live), Step.Drain(call)]
      + Stops(call, |live|) + [Step.Revoke(call)]
  }

  lemma RemovalGoes(own: seq<Step>, call: nat, user: nat, host: nat, force: bool, live: seq<LiveMachine>)
    ensures var asked := own + [Step.Remove(call, user, host, force)];
      var found := asked + [Step.FindAccount(call)];
      var counted := found + [Step.CountLive(call, live)];
      var all := own + Removal(call, user, host, force, live);
      && asked <= all && found <= all && counted <= all
      && counted + [Step.Drain(call)] + Stops(call, |live|) + [Step.Revoke(call)] == all
  {
  }

  lemma StopsGrow(call: nat, n: nat)
    ensures Stops(call, 0) == [] && Stops(call, n + 1) == Stops(call, n) + [Step.Stop(call)]
  {
  }

  /** Fewer names to keep clear of. */
  lemma Drops(groups: seq<seq<Step>>, call: nat, names: set<nat>, fewer: set<nat>)
    requires AllForeign(groups, call, names) && fewer <= names
    ensures AllForeign(groups, call, fewer)
  {
    forall group | group in groups ensures Foreign(group, call, fewer) {
      assert Foreign(group, call, names);
    }
  }
}
