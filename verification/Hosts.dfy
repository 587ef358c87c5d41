/** Enrolling, rotating and removing the machines users own (crates/api/src/hosts.rs): every
    statement is one step of some call, and calls interleave freely.

    A token hash is an injective function of its token, so tokens stand for their hashes; an
    identifier or token just generated has never been used before. */
module Hosts {
  import opened Prelude

  const ENROLLMENT_TOKEN_TTL_SECONDS: nat := 10 * 60

  datatype State = Online | Offline | Draining | Removed

  datatype TokenRow = TokenRow(user: nat, expires: nat, spent: Option<nat>, host: Option<nat>)

  datatype HostRow = HostRow(user: nat, token: Option<nat>, state: State)

  /** `accounts` are the provider accounts of hosts. `makers` remembers the call that
      generated each host's identifier, and `secrets` the host each token was generated for:
      none, for an enrollment token. `deallocated` are the machines a removal took off compute. */
  datatype Tables = Tables(
    tokens: map<nat, TokenRow>,
    hosts: map<nat, HostRow>,
    accounts: map<nat, nat>,
    makers: map<nat, nat>,
    secrets: map<nat, Option<nat>>,
    deallocated: set<nat>)

  /** A machine still live on a host's account, and whether it has a container to stop. */
  datatype LiveMachine = LiveMachine(machine: nat, container: bool)

  datatype Result =
    | Minted(token: nat)
    | EnrollmentTokenExpired
    | HostNotFound
    | ProviderAccountNotFound
    | HostRemoved
    | HostHasActiveSessions
    | Rotated(host: nat, secret: nat)
    | Gone
    | Refreshed

  /** `token` is the enrollment token a call spends, `asked` when it presented it; `read` is
      the state a refresh loaded before it asked the room. A call that enrolled is `Enrolled`,
      any other that answered is `Over`. */
  datatype Call =
    | Inserting(token: nat, user: nat, asked: nat)
    | Spending(token: nat, user: nat, asked: nat, host: nat, secret: nat)
    | Undoing(token: nat, host: nat)
    | Linking(token: nat, user: nat, host: nat, secret: nat)
    | Rotating(host: nat)
    | Finding(host: nat, force: bool)
    | Counting(host: nat, force: bool)
    | Draining(host: nat, live: seq<LiveMachine>)
    | Stopping(host: nat, live: seq<LiveMachine>, next: nat)
    | Asking(host: nat, read: State)
    | WritingBack(host: nat, connected: bool)
    | Enrolled(token: nat, host: nat, secret: nat)
    | Over(result: Result)

  datatype World = World(t: Tables, calls: map<nat, Call>)

  datatype Step =
    | Mint(call: nat, user: nat, token: nat, now: nat)
    | Present(call: nat, token: nat, now: nat)
    | InsertHost(call: nat, id: nat, secret: nat)
    | Spend(call: nat, now: nat)
    | Undo(call: nat)
    | Link(call: nat)
    | Rotate(call: nat, user: nat, host: nat)
    | SetToken(call: nat, secret: nat)
    | Remove(call: nat, user: nat, host: nat, force: bool)
    | FindAccount(call: nat)
    | CountLive(call: nat, live: seq<LiveMachine>)
    | Drain(call: nat)
    | Stop(call: nat)
    | Revoke(call: nat)
    | Refresh(call: nat, host: nat)
    | Hear(call: nat, answer: Option<bool>, changed: bool)
    | WriteBack(call: nat)
    | Arrive(call: nat, host: nat)

  predicate Owns(t: Tables, user: nat, host: nat)
  {
    host in t.hosts && t.hosts[host].user == user
  }

  /** `UPDATE … WHERE token_hash = … AND spent_at_unix IS NULL`, if it matches. */
  predicate Spendable(t: Tables, token: nat)
  {
    token in t.tokens && t.tokens[token].spent.None?
  }

  function WithHost(t: Tables, host: nat, row: HostRow): Tables
  {
    t.(hosts := t.hosts[host := row])
  }

  /** The steps of `enroll`. */
  function Enrolls(t: Tables, call: nat, at: Option<Call>, step: Step): Option<(Tables, Call)>
  {
    match (step, at)
    case (Present(_, token, now), None) =>
      if Spendable(t, token) && t.tokens[token].expires > now
      then Some((t, Inserting(token, t.tokens[token].user, now))) else Some((t, Over(EnrollmentTokenExpired)))
    case (InsertHost(_, id, secret), Some(Inserting(token, user, asked))) =>
      if id in t.makers || secret in t.secrets then None
      else Some((WithHost(t, id, HostRow(user, Some(secret), Offline))
                   .(makers := t.makers[id := call], secrets := t.secrets[secret := Some(id)]),
                 Spending(token, user, asked, id, secret)))
    case (Spend(_, now), Some(Spending(token, user, _, host, secret))) =>
      if !Spendable(t, token) then Some((t, Undoing(token, host)))
      else Some((t.(tokens := t.tokens[token := t.tokens[token].(spent := Some(now), host := Some(host))]),
                 Linking(token, user, host, secret)))
    case (Undo(_), Some(Undoing(_, host))) =>
      Some((t.(hosts := t.hosts - {host}), Over(EnrollmentTokenExpired)))
    case (Link(_), Some(Linking(token, user, host, secret))) =>
      Some((t.(accounts := t.accounts[host := user]), Enrolled(token, host, secret)))
    case _ => None
  }

  function Reported(connected: bool): State { if connected then Online else Offline }

  /** What a refresh does with the room's answer, none if the room could not be reached: it
      writes only a state that differs from the one it read, or other facts or another time
      last seen, which is what `changed` says. */
  function Heard(host: nat, read: State, answer: Option<bool>, changed: bool): Call
  {
    match answer
    case None => Over(Refreshed)
    case Some(connected) =>
      if Reported(connected) == read && !changed then Over(Refreshed) else WritingBack(host, connected)
  }

  /** The steps of `mint`, `rotate`, `remove`, `refresh` and `arrived`. */
  function Tends(t: Tables, at: Option<Call>, step: Step): Option<(Tables, Call)>
  {
    match (step, at)
    case (Mint(_, user, token, now), None) =>
      if token in t.secrets then None
      else Some((t.(tokens := t.tokens[token := TokenRow(user, now + ENROLLMENT_TOKEN_TTL_SECONDS, None, None)],
                    secrets := t.secrets[token := None]), Over(Minted(token))))
    case (Rotate(_, user, host), None) =>
      Some((t, if !Owns(t, user, host) then Over(HostNotFound)
        else if t.hosts[host].state == State.Removed then Over(HostRemoved) else Rotating(host)))
    case (SetToken(_, secret), Some(Rotating(host))) =>
      if secret in t.secrets then None
      else Some(((if host in t.hosts then WithHost(t, host, t.hosts[host].(token := Some(secret))) else t)
                   .(secrets := t.secrets[secret := Some(host)]), Over(Rotated(host, secret))))
    case (Remove(_, user, host, force), None) =>
      Some((t, if !Owns(t, user, host) then Over(HostNotFound)
        else if t.hosts[host].state == State.Removed then Over(Gone) else Finding(host, force)))
    case (FindAccount(_), Some(Finding(host, force))) =>
      Some((t, if host !in t.accounts then Over(ProviderAccountNotFound) else Counting(host, force)))
    case (CountLive(_, live), Some(Counting(host, force))) =>
      Some((t, if live != [] && !force then Over(HostHasActiveSessions) else Call.Draining(host, live)))
    case (Drain(_), Some(Draining(host, live))) =>
      Some((if host in t.hosts then WithHost(t, host, t.hosts[host].(state := State.Draining)) else t, Stopping(host, live, 0)))
    case (Stop(_), Some(Stopping(host, live, next))) =>
      if next >= |live| then None
      else Some((if live[next].container then t.(deallocated := t.deallocated + {live[next].machine}) else t,
                 Stopping(host, live, next + 1)))
    case (Revoke(_), Some(Stopping(host, live, next))) =>
      if next < |live| then None
      else Some((if host in t.hosts then WithHost(t, host, t.hosts[host].(state := State.Removed, token := None)) else t, Over(Gone)))
    case (Refresh(_, host), None) =>
      Some((t, if host !in t.hosts then Over(HostNotFound)
        else if t.hosts[host].state == State.Draining || t.hosts[host].state == State.Removed then Over(Refreshed)
        else Asking(host, t.hosts[host].state)))
    case (Hear(_, answer, changed), Some(Asking(host, read))) => Some((t, Heard(host, read, answer, changed)))
    case (WriteBack(_), Some(WritingBack(host, connected))) =>
      Some((if host in t.hosts then WithHost(t, host, t.hosts[host].(state := Reported(connected))) else t, Over(Refreshed)))
    case (Arrive(_, host), None) =>
      Some((if host in t.hosts && t.hosts[host].state != State.Removed && t.hosts[host].state != State.Draining
            then WithHost(t, host, t.hosts[host].(state := Online)) else t, Over(Refreshed)))
    case _ => None
  }

  predicate Enrolling(step: Step)
  {
    step.Present? || step.InsertHost? || step.Spend? || step.Undo? || step.Link?
  }

  function Moves(t: Tables, call: nat, at: Option<Call>, step: Step): Option<(Tables, Call)>
  {
    if Enrolling(step) then Enrolls(t, call, at, step) else Tends(t, at, step)
  }

  function At(w: World, call: nat): Option<Call>
  {
    if call in w.calls then Some(w.calls[call]) else None
  }

  function Do(w: World, step: Step): World
  {
    var moved := Moves(w.t, step.call, At(w, step.call), step);
    if moved.None? then w else World(moved.value.0, w.calls[step.call := moved.value.1])
  }

  const NOTHING: World := World(Tables(map[], map[], map[], map[], map[], {}), map[])

  function Run(steps: seq<Step>): World
  {
    if steps == [] then NOTHING else Do(Run(steps[..|steps| - 1]), steps[|steps| - 1])
  }

  /** `authenticates`. */
  predicate Authenticates(t: Tables, host: nat, presented: nat)
  {
    host in t.hosts && t.hosts[host].token == Some(presented)
  }

  lemma RunMore(steps: seq<Step>, more: seq<Step>)
    ensures more == [] ==> Run(steps + more) == Run(steps)
    ensures more != [] ==> Run(steps + more) == Do(Run(steps + more[..|more| - 1]), more[|more| - 1])
  {
    hide Do;
    if more == [] {
      assert steps + more == steps;
    } else {
      assert (steps + more)[..|steps + more| - 1] == steps + more[..|more| - 1];
    }
  }

  // ── The invariant ──

  predicate Bound(t: Tables, token: nat, host: nat)
  {
    token in t.tokens && t.tokens[token].host == Some(host)
  }

  /** A call that won a token, whether or not it has answered. */
  predicate Won(call: Call, token: nat)
  {
    (call.Linking? || call.Enrolled?) && call.token == token
  }

  /** A host a call inserted and has neither kept nor undone. */
  predicate Carries(call: Call, host: nat)
  {
    (call.Spending? || call.Undoing?) && call.host == host
  }

  predicate MadeBy(t: Tables, host: nat, c: nat)
  {
    host in t.makers && t.makers[host] == c
  }

  /** The first `next` machines that have a container are off compute. */
  predicate Stopped(t: Tables, live: seq<LiveMachine>, next: nat)
    requires next <= |live|
  {
    forall i :: 0 <= i < next && live[i].container ==> live[i].machine in t.deallocated
  }

  predicate CallInv(w: World, c: nat)
    requires c in w.calls
  {
    var t := w.t;
    match w.calls[c]
    case Inserting(token, user, asked) =>
      token in t.tokens && t.tokens[token].user == user && asked < t.tokens[token].expires
    case Spending(token, user, asked, host, secret) =>
      && token in t.tokens && t.tokens[token].user == user && asked < t.tokens[token].expires
      && Owns(t, user, host) && MadeBy(t, host, c)
    case Undoing(token, host) => token in t.tokens && t.tokens[token].spent.Some? && MadeBy(t, host, c)
    case Linking(token, user, host, _) => Bound(t, token, host) && t.tokens[token].user == user && MadeBy(t, host, c)
    case Enrolled(token, host, _) => Bound(t, token, host) && MadeBy(t, host, c)
    case Rotating(host) => host in t.makers
    case Counting(host, _) => host in t.accounts
    case Draining(host, _) => host in t.accounts
    case Stopping(host, live, next) => host in t.accounts && next <= |live| && Stopped(t, live, next)
    case _ => true
  }

  predicate TokenInv(w: World, token: nat)
    requires token in w.t.tokens
  {
    var row := w.t.tokens[token];
    && token in w.t.secrets && w.t.secrets[token] == None
    && (row.spent.Some? <==> row.host.Some?)
    && (row.host.Some? ==>
         && Owns(w.t, row.user, row.host.value)
         && row.host.value in w.t.makers && w.t.makers[row.host.value] in w.calls
         && Won(w.calls[w.t.makers[row.host.value]], token))
  }

  predicate HostInv(w: World, host: nat)
    requires host in w.t.hosts
  {
    var row := w.t.hosts[host];
    && host in w.t.makers && w.t.makers[host] in w.calls
    && (row.token.Some? ==> row.token.value in w.t.secrets && w.t.secrets[row.token.value] == Some(host))
    && (row.state == State.Draining || row.state == State.Removed ==> host in w.t.accounts)
    && var call := w.calls[w.t.makers[host]];
       Carries(call, host) || ((call.Linking? || call.Enrolled?) && call.host == host)
  }

  ghost predicate Inv(w: World)
  {
    && (forall c :: c in w.calls ==> CallInv(w, c))
    && (forall token :: token in w.t.tokens ==> TokenInv(w, token))
    && (forall host :: host in w.t.hosts ==> HostInv(w, host))
  }

  lemma Facts(w: World, c: nat, token: nat, host: nat)
    requires Inv(w)
    ensures c in w.calls ==> CallInv(w, c)
    ensures token in w.t.tokens ==> TokenInv(w, token)
    ensures host in w.t.hosts ==> HostInv(w, host)
  {
  }

  /** The token and host a call is about, if any. */
  function Token(at: Option<Call>): nat
  {
    match at
    case Some(Spending(token, _, _, _, _)) => token
    case Some(Undoing(token, _)) => token
    case Some(Inserting(token, _, _)) => token
    case Some(Linking(token, _, _, _)) => token
    case _ => 0
  }

  function Host(at: Option<Call>): nat
  {
    match at
    case Some(Spending(_, _, _, host, _)) => host
    case Some(Undoing(_, host)) => host
    case Some(Linking(_, _, host, _)) => host
    case Some(Rotating(host)) => host
    case Some(Finding(host, _)) => host
    case Some(Counting(host, _)) => host
    case Some(Draining(host, _)) => host
    case Some(Stopping(host, _, _)) => host
    case Some(Asking(host, _)) => host
    case Some(WritingBack(host, _)) => host
    case _ => 0
  }

  /** What the invariant says of the call that moves, of what it is about, and of `c`,
      `token` and `host`. */
  lemma Around(w: World, step: Step, c: nat, token: nat, host: nat)
    requires Inv(w)
    ensures step.call in w.calls ==> CallInv(w, step.call)
    ensures Token(At(w, step.call)) in w.t.tokens ==> TokenInv(w, Token(At(w, step.call)))
    ensures Host(At(w, step.call)) in w.t.hosts ==> HostInv(w, Host(At(w, step.call)))
    ensures c in w.calls ==> CallInv(w, c)
    ensures c in w.calls && Host(At(w, c)) in w.t.hosts ==> HostInv(w, Host(At(w, c)))
    ensures c in w.calls && Token(At(w, c)) in w.t.tokens ==> TokenInv(w, Token(At(w, c)))
    ensures step.Mint? && step.token in w.t.tokens ==> TokenInv(w, step.token)
    ensures (step.Rotate? || step.Arrive?) && step.host in w.t.hosts ==> HostInv(w, step.host)
    ensures token in w.t.tokens ==> TokenInv(w, token)
    ensures host in w.t.hosts ==> HostInv(w, host)
  {
  }

  lemma EnrollKeepsCall(w: World, step: Step, c: nat)
    requires Enrolling(step) && Inv(w) && c in Do(w, step).calls
    ensures CallInv(Do(w, step), c)
  {
    hide Inv, Tends;
    Around(w, step, c, 0, 0);
  }

  lemma TendKeepsCall(w: World, step: Step, c: nat)
    requires !Enrolling(step) && Inv(w) && c in Do(w, step).calls
    ensures CallInv(Do(w, step), c)
  {
    hide Inv, Enrolls;
    Around(w, step, c, 0, 0);
  }

  lemma EnrollKeepsToken(w: World, step: Step, token: nat)
    requires Enrolling(step) && Inv(w) && token in Do(w, step).t.tokens
    ensures TokenInv(Do(w, step), token)
  {
    hide Inv, Tends;
    Around(w, step, 0, token, 0);
  }

  lemma TendKeepsToken(w: World, step: Step, token: nat)
    requires !Enrolling(step) && Inv(w) && token in Do(w, step).t.tokens
    ensures TokenInv(Do(w, step), token)
  {
    hide Inv, Enrolls;
    Around(w, step, 0, token, 0);
  }

  lemma EnrollKeepsHost(w: World, step: Step, host: nat)
    requires Enrolling(step) && Inv(w) && host in Do(w, step).t.hosts
    ensures HostInv(Do(w, step), host)
  {
    hide Inv, Tends;
    Around(w, step, 0, 0, host);
  }

  lemma TendKeepsHost(w: World, step: Step, host: nat)
    requires !Enrolling(step) && Inv(w) && host in Do(w, step).t.hosts
    ensures HostInv(Do(w, step), host)
  {
    hide Inv, Enrolls;
    Around(w, step, 0, 0, host);
  }

  lemma StepKeeps(w: World, step: Step)
    requires Inv(w)
    ensures Inv(Do(w, step))
  {
    hide CallInv, TokenInv, HostInv, Do;
    var after := Do(w, step);
    forall c | c in after.calls ensures CallInv(after, c) {
      if Enrolling(step) { EnrollKeepsCall(w, step, c); } else { TendKeepsCall(w, step, c); }
    }
    forall token | token in after.t.tokens ensures TokenInv(after, token) {
      if Enrolling(step) { EnrollKeepsToken(w, step, token); } else { TendKeepsToken(w, step, token); }
    }
    forall host | host in after.t.hosts ensures HostInv(after, host) {
      if Enrolling(step) { EnrollKeepsHost(w, step, host); } else { TendKeepsHost(w, step, host); }
    }
  }

  lemma {:induction false} RunKeeps(steps: seq<Step>)
    ensures Inv(Run(steps))
  {
    hide Do;
    if steps != [] {
      RunKeeps(steps[..|steps| - 1]);
      StepKeeps(Run(steps[..|steps| - 1]), steps[|steps| - 1]);
    }
  }
}
