/** What each call on hosts comes to from start to end (crates/api/src/hosts.rs), told in the
    tables before and after: what it takes to succeed, and everything it changes. Each is its
    statements one after the other, with nobody's in between, from any state a run reaches. */
module HostCalls {
  import opened Prelude
  import opened Hosts

  function Perform(w: World, steps: seq<Step>): World
  {
    if steps == [] then w else Do(Perform(w, steps[..|steps| - 1]), steps[|steps| - 1])
  }

  predicate Answers(before: World, after: World, c: nat, call: Call)
  {
    after.calls == before.calls[c := call]
  }

  // ── Enrolling ──

  /** Unspent, and minted less than ten minutes ago. */
  predicate Good(t: Tables, token: nat, now: nat)
  {
    token in t.tokens && t.tokens[token].spent == None && now < t.tokens[token].expires
  }

  /** A good token enrolls the machine, offline under its new token, as a host and an account of
      the user it was minted for, and is spent on it; any other is refused and nothing changes. */
  lemma EnrollComesTo(w: World, c: nat, token: nat, id: nat, secret: nat, now: nat, later: nat)
    requires c !in w.calls && id !in w.t.makers && secret !in w.t.secrets
    ensures var after := Perform(w, [Present(c, token, now), InsertHost(c, id, secret), Spend(c, later), Link(c)]);
      if Good(w.t, token, now) then
        var user := w.t.tokens[token].user;
        && Answers(w, after, c, Enrolled(token, id, secret)) && Authenticates(after.t, id, secret)
        && after.t.tokens == w.t.tokens[token := TokenRow(user, w.t.tokens[token].expires, Some(later), Some(id))]
        && after.t.hosts == w.t.hosts[id := HostRow(user, Some(secret), Offline)]
        && after.t.accounts == w.t.accounts[id := user]
        && after.t.deallocated == w.t.deallocated
      else Answers(w, after, c, Over(EnrollmentTokenExpired)) && after.t == w.t
  {
    hide Do, Perform;
    FourSteps(w, Present(c, token, now), InsertHost(c, id, secret), Spend(c, later), Link(c));
    var presented := Do(w, Present(c, token, now));
    PresentComesTo(w, c, token, now);
    if Good(w.t, token, now) {
      InsertingComesTo(presented, c, token, w.t.tokens[token].user, now, id, secret, later);
    } else {
      StaysOver(presented, InsertHost(c, id, secret));
      StaysOver(presented, Spend(c, later));
      StaysOver(presented, Link(c));
    }
  }

  lemma PresentComesTo(w: World, c: nat, token: nat, now: nat)
    requires c !in w.calls
    ensures var after := Do(w, Present(c, token, now));
      && after.t == w.t
      && Answers(w, after, c, if Good(w.t, token, now) then Inserting(token, w.t.tokens[token].user, now) else Over(EnrollmentTokenExpired))
  {
    hide Tends;
  }

  lemma InsertingComesTo(w: World, c: nat, token: nat, user: nat, asked: nat, id: nat, secret: nat, later: nat)
    requires c in w.calls && w.calls[c] == Inserting(token, user, asked)
    requires id !in w.t.makers && secret !in w.t.secrets && Spendable(w.t, token)
    ensures var after := Do(Do(Do(w, InsertHost(c, id, secret)), Spend(c, later)), Link(c));
      && Answers(w, after, c, Enrolled(token, id, secret)) && Authenticates(after.t, id, secret)
      && after.t.tokens == w.t.tokens[token := TokenRow(w.t.tokens[token].user, w.t.tokens[token].expires, Some(later), Some(id))]
      && after.t.hosts == w.t.hosts[id := HostRow(user, Some(secret), Offline)]
      && after.t.accounts == w.t.accounts[id := user]
      && after.t.deallocated == w.t.deallocated
  {
    hide Tends;
  }

  lemma OneStep(w: World, steps: seq<Step>, step: Step)
    ensures Perform(w, steps + [step]) == Do(Perform(w, steps), step)
  {
    assert (steps + [step])[..|steps|] == steps;
  }

  lemma TwoSteps(w: World, a: Step, b: Step)
    ensures Perform(w, [a, b]) == Do(Do(w, a), b)
  {
    hide Do;
    OneStep(w, [], a);
    OneStep(w, [a], b);
    assert [] + [a] == [a] && [a] + [b] == [a, b];
  }

  lemma ThreeSteps(w: World, a: Step, b: Step, c: Step)
    ensures Perform(w, [a, b, c]) == Do(Do(Do(w, a), b), c)
  {
    hide Do;
    TwoSteps(w, a, b);
    OneStep(w, [a, b], c);
    assert [a, b] + [c] == [a, b, c];
  }

  lemma FourSteps(w: World, a: Step, b: Step, c: Step, d: Step)
    ensures Perform(w, [a, b, c, d]) == Do(Do(Do(Do(w, a), b), c), d)
  {
    hide Do;
    ThreeSteps(w, a, b, c);
    OneStep(w, [a, b, c], d);
    assert [a, b, c] + [d] == [a, b, c, d];
  }

  /** Whose a token is and when it expires. */
  predicate SameTerms(t: Tables, after: Tables, token: nat)
  {
    && token in t.tokens && token in after.tokens
    && after.tokens[token].user == t.tokens[token].user && after.tokens[token].expires == t.tokens[token].expires
  }

  lemma TermsStay(w: World, step: Step, token: nat)
    requires token in w.t.tokens && TokenInv(w, token)
    ensures SameTerms(w.t, Do(w, step).t, token)
  {
    if Enrolling(step) {
      hide Tends, TokenInv;
    } else {
      hide Enrolls;
    }
  }

  lemma {:induction false} TermsNeverMove(steps: seq<Step>, more: seq<Step>, token: nat)
    requires token in Run(steps).t.tokens
    ensures SameTerms(Run(steps).t, Run(steps + more).t, token)
  {
    hide Run, Do;
    RunMore(steps, more);
    if more != [] {
      TermsNeverMove(steps, more[..|more| - 1], token);
      RunKeeps(steps + more[..|more| - 1]);
      Facts(Run(steps + more[..|more| - 1]), 0, token, 0);
      TermsStay(Run(steps + more[..|more| - 1]), more[|more| - 1], token);
    }
  }

  /** Whatever happens after a token was minted, a call that presents it goes on to enroll
      exactly if no call has spent it and ten minutes have not passed, for the user it was
      minted for. */
  lemma MintedTokensEnrollForTenMinutes(steps: seq<Step>, c: nat, user: nat, token: nat, minted: nat, more: seq<Step>, d: nat, now: nat)
    requires c !in Run(steps).calls && token !in Run(steps).t.secrets
    requires d !in Run(steps + [Mint(c, user, token, minted)] + more).calls
    ensures var w := Run(steps + [Mint(c, user, token, minted)] + more);
      var after := Do(w, Present(d, token, now));
      && token in w.t.tokens && after.t == w.t
      && if w.t.tokens[token].spent.None? && now < minted + 600 then after.calls[d] == Inserting(token, user, now)
         else after.calls[d] == Over(EnrollmentTokenExpired)
  {
    var mint := Mint(c, user, token, minted);
    assert (steps + [mint])[..|steps|] == steps;
    assert Run(steps + [mint]).t.tokens[token] == TokenRow(user, minted + 600, None, None);
    hide Run;
    TermsNeverMove(steps + [mint], more, token);
    hide Tends;
  }

  // ── Rotating ──

  /** A rotation by the owner of a host not removed leaves it opening to the new token alone. */
  lemma RotateComesTo(w: World, c: nat, user: nat, host: nat, secret: nat)
    requires c !in w.calls && secret !in w.t.secrets
    ensures var after := Perform(w, [Rotate(c, user, host), SetToken(c, secret)]);
      if host !in w.t.hosts || w.t.hosts[host].user != user then Answers(w, after, c, Over(HostNotFound)) && after.t == w.t
      else if w.t.hosts[host].state == State.Removed then Answers(w, after, c, Over(HostRemoved)) && after.t == w.t
      else
        && Answers(w, after, c, Over(Rotated(host, secret)))
        && after.t.hosts == w.t.hosts[host := HostRow(user, Some(secret), w.t.hosts[host].state)]
        && after.t.tokens == w.t.tokens && after.t.accounts == w.t.accounts && after.t.deallocated == w.t.deallocated
  {
    TwoSteps(w, Rotate(c, user, host), SetToken(c, secret));
    var s1 := Do(w, Rotate(c, user, host));
    hide Enrolls;
  }

  // ── Refreshing ──

  /** A refresh leaves a host on its way out, or whose room does not answer, as it was, and any
      other as online or offline as its room says, whether or not it had anything to write. */
  lemma RefreshComesTo(w: World, c: nat, host: nat, answer: Option<bool>, changed: bool)
    requires c !in w.calls
    ensures var after := Perform(w, [Refresh(c, host), Hear(c, answer, changed), WriteBack(c)]);
      if host !in w.t.hosts then Answers(w, after, c, Over(HostNotFound)) && after.t == w.t
      else
        && Answers(w, after, c, Over(Refreshed))
        && after.t == w.t.(hosts := w.t.hosts[host := w.t.hosts[host].(state :=
             if w.t.hosts[host].state in {State.Draining, State.Removed} || answer.None? then w.t.hosts[host].state
             else if answer.value then Online else Offline)])
  {
    ThreeSteps(w, Refresh(c, host), Hear(c, answer, changed), WriteBack(c));
    var asked := Do(w, Refresh(c, host));
    if asked.calls[c].Asking? {
      AnswerComesTo(asked, c, host, w.t.hosts[host].state, answer, changed);
    } else {
      StaysOver(asked, Hear(c, answer, changed));
      StaysOver(asked, WriteBack(c));
    }
    hide Enrolls;
  }

  lemma StaysOver(w: World, step: Step)
    requires step.call in w.calls && w.calls[step.call].Over?
    ensures Do(w, step) == w
  {
  }

  lemma AnswerComesTo(w: World, c: nat, host: nat, read: State, answer: Option<bool>, changed: bool)
    requires c in w.calls && w.calls[c] == Asking(host, read) && host in w.t.hosts && w.t.hosts[host].state == read
    ensures var after := Do(Do(w, Hear(c, answer, changed)), WriteBack(c));
      && Answers(w, after, c, Over(Refreshed))
      && after.t == w.t.(hosts := w.t.hosts[host := w.t.hosts[host].(state :=
           if answer.None? then read else if answer.value then Online else Offline)])
  {
    hide Enrolls;
    var heard := Do(w, Hear(c, answer, changed));
    assert w.t.hosts[host := w.t.hosts[host]] == w.t.hosts;
    assert heard.t == w.t;
    if heard.calls[c].Over? { StaysOver(heard, WriteBack(c)); }
  }

  /** An attach puts a host online unless it is on its way out. */
  lemma ArriveComesTo(w: World, c: nat, host: nat)
    requires c !in w.calls
    ensures var after := Do(w, Arrive(c, host));
      if host in w.t.hosts && w.t.hosts[host].state in {Online, Offline}
      then after.t == w.t.(hosts := w.t.hosts[host := HostRow(w.t.hosts[host].user, w.t.hosts[host].token, Online)])
      else after.t == w.t
  {
    hide Enrolls;
  }

  // ── Removing ──

  /** The stops of a removal, one for each live machine. */
  function Stops(c: nat, n: nat): seq<Step>
  {
    if n == 0 then [] else Stops(c, n - 1) + [Stop(c)]
  }

  /** The machines among the first `n` that have a container. */
  function Containers(live: seq<LiveMachine>, n: nat): set<nat>
    requires n <= |live|
  {
    set i | 0 <= i < n && live[i].container :: live[i].machine
  }

  lemma StopComesTo(w: World, c: nat, host: nat, live: seq<LiveMachine>, n: nat)
    requires c in w.calls && w.calls[c] == Stopping(host, live, n) && n < |live|
    ensures var after := Do(w, Stop(c));
      && Answers(w, after, c, Stopping(host, live, n + 1))
      && after.t == w.t.(deallocated := w.t.deallocated + if live[n].container then {live[n].machine} else {})
  {
    hide Enrolls;
  }

  lemma {:induction false} StopsComeTo(w: World, c: nat, host: nat, live: seq<LiveMachine>, n: nat)
    requires c in w.calls && w.calls[c] == Stopping(host, live, 0) && n <= |live|
    ensures var after := Perform(w, Stops(c, n));
      Answers(w, after, c, Stopping(host, live, n)) && after.t == w.t.(deallocated := w.t.deallocated + Containers(live, n))
  {
    hide Do;
    if n == 0 {
      assert w.calls[c := w.calls[c]] == w.calls;
    } else {
      StopsComeTo(w, c, host, live, n - 1);
      OneStep(w, Stops(c, n - 1), Stop(c));
      StopComesTo(Perform(w, Stops(c, n - 1)), c, host, live, n - 1);
      assert Containers(live, n) == Containers(live, n - 1) + if live[n - 1].container then {live[n - 1].machine} else {};
    }
  }

  /** What a removal does before it stops anything: refused unless the host is the user's, has an
      account, and has no live machine or is removed by force; or nothing to do. */
  function Refusal(t: Tables, user: nat, host: nat, live: seq<LiveMachine>, force: bool): Option<Result>
  {
    if host !in t.hosts || t.hosts[host].user != user then Some(HostNotFound)
    else if t.hosts[host].state == State.Removed then Some(Gone)
    else if host !in t.accounts then Some(ProviderAccountNotFound)
    else if live != [] && !force then Some(HostHasActiveSessions)
    else None
  }

  lemma FindingComesTo(w: World, c: nat, host: nat, live: seq<LiveMachine>, force: bool)
    requires c in w.calls && w.calls[c] == Finding(host, force) && host in w.t.hosts
    ensures var after := Do(Do(Do(w, FindAccount(c)), CountLive(c, live)), Drain(c));
      if host !in w.t.accounts then Answers(w, after, c, Over(ProviderAccountNotFound)) && after.t == w.t
      else if live != [] && !force then Answers(w, after, c, Over(HostHasActiveSessions)) && after.t == w.t
      else
        && Answers(w, after, c, Stopping(host, live, 0))
        && after.t == w.t.(hosts := w.t.hosts[host := HostRow(w.t.hosts[host].user, w.t.hosts[host].token, State.Draining)])
  {
    var found := Do(w, FindAccount(c));
    var counted := Do(found, CountLive(c, live));
    if found.calls[c].Over? {
      StaysOver(found, CountLive(c, live));
      StaysOver(found, Drain(c));
    } else if counted.calls[c].Over? {
      StaysOver(counted, Drain(c));
    }
    hide Enrolls;
  }

  lemma DrainComesTo(w: World, c: nat, user: nat, host: nat, live: seq<LiveMachine>, force: bool)
    requires c !in w.calls
    ensures var after := Perform(w, [Remove(c, user, host, force), FindAccount(c), CountLive(c, live), Drain(c)]);
      match Refusal(w.t, user, host, live, force)
      case Some(result) => Answers(w, after, c, Over(result)) && after.t == w.t
      case None =>
        && Answers(w, after, c, Stopping(host, live, 0))
        && after.t == w.t.(hosts := w.t.hosts[host := HostRow(user, w.t.hosts[host].token, State.Draining)])
  {
    hide Do, Perform;
    FourSteps(w, Remove(c, user, host, force), FindAccount(c), CountLive(c, live), Drain(c));
    var asked := Do(w, Remove(c, user, host, force));
    AskingComesTo(w, c, user, host, force);
    if asked.calls[c].Over? {
      StaysOver(asked, FindAccount(c));
      StaysOver(asked, CountLive(c, live));
      StaysOver(asked, Drain(c));
    } else {
      FindingComesTo(asked, c, host, live, force);
    }
  }

  lemma AskingComesTo(w: World, c: nat, user: nat, host: nat, force: bool)
    requires c !in w.calls
    ensures var after := Do(w, Remove(c, user, host, force));
      && after.t == w.t
      && Answers(w, after, c,
           if host !in w.t.hosts || w.t.hosts[host].user != user then Over(HostNotFound)
           else if w.t.hosts[host].state == State.Removed then Over(Gone) else Finding(host, force))
  {
    hide Enrolls;
  }

  /** A removal that is not refused leaves the host draining while it stops machines, takes every
      live machine with a container off compute, and ends with the host removed and no token
      opening it; one that is refused changes nothing. */
  lemma RemoveComesTo(w: World, c: nat, user: nat, host: nat, live: seq<LiveMachine>, force: bool)
    requires c !in w.calls
    ensures var drained := Perform(w, [Remove(c, user, host, force), FindAccount(c), CountLive(c, live), Drain(c)]);
      var after := Do(Perform(drained, Stops(c, |live|)), Revoke(c));
      match Refusal(w.t, user, host, live, force)
      case Some(result) => Answers(w, drained, c, Over(result)) && drained.t == w.t
      case None =>
        && host in drained.t.hosts && drained.t.hosts[host].state == State.Draining
        && Answers(w, after, c, Over(Gone))
        && after.t == w.t.(hosts := w.t.hosts[host := HostRow(user, None, State.Removed)],
                           deallocated := w.t.deallocated + Containers(live, |live|))
  {
    hide Perform, Do, Stops, Containers;
    DrainComesTo(w, c, user, host, live, force);
    var drained := Perform(w, [Remove(c, user, host, force), FindAccount(c), CountLive(c, live), Drain(c)]);
    if Refusal(w.t, user, host, live, force).None? {
      RemovalComesTo(drained, c, host, live);
      assert w.t.hosts[host := drained.t.hosts[host]][host := HostRow(user, None, State.Removed)]
          == w.t.hosts[host := HostRow(user, None, State.Removed)];
    }
  }

  lemma RemovalComesTo(w: World, c: nat, host: nat, live: seq<LiveMachine>)
    requires c in w.calls && w.calls[c] == Stopping(host, live, 0) && host in w.t.hosts
    ensures var after := Do(Perform(w, Stops(c, |live|)), Revoke(c));
      && Answers(w, after, c, Over(Gone))
      && after.t == w.t.(hosts := w.t.hosts[host := HostRow(w.t.hosts[host].user, None, State.Removed)],
                         deallocated := w.t.deallocated + Containers(live, |live|))
  {
    hide Perform, Do, Stops, Containers;
    StopsComeTo(w, c, host, live, |live|);
    RevokeComesTo(Perform(w, Stops(c, |live|)), c, host, live);
  }

  lemma RevokeComesTo(w: World, c: nat, host: nat, live: seq<LiveMachine>)
    requires c in w.calls && w.calls[c] == Stopping(host, live, |live|) && host in w.t.hosts
    ensures var after := Do(w, Revoke(c));
      && Answers(w, after, c, Over(Gone))
      && after.t == w.t.(hosts := w.t.hosts[host := HostRow(w.t.hosts[host].user, None, State.Removed)])
  {
    hide Enrolls;
  }
}
