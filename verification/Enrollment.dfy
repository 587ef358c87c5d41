/** What enrollment and removal promise in every run (crates/api/src/hosts.rs): a token is
    spent once and leaves no stray host, no token opens two hosts, and when a removed host
    stays removed. */
module Enrollment {
  import opened Prelude
  import opened Hosts

  /** However requests race on one token, at most one wins it; the token is bound to that
      call's host, which belongs to the user it was minted for. */
  lemma OneHostPerToken(steps: seq<Step>, token: nat, c: nat, d: nat)
    requires c in Run(steps).calls && Won(Run(steps).calls[c], token)
    ensures var w := Run(steps);
      && Bound(w.t, token, w.calls[c].host)
      && Owns(w.t, w.t.tokens[token].user, w.calls[c].host)
      && (d in w.calls && Won(w.calls[d], token) ==> d == c)
  {
    hide Run;
    var w := Run(steps);
    RunKeeps(steps);
    Facts(w, c, token, w.calls[c].host);
    Facts(w, d, token, 0);
  }

  /** A stored host is one some token is bound to, or one that a call still racing carries;
      so once every racer has run to completion, the refused have left none behind. */
  lemma NoStrayHosts(steps: seq<Step>, host: nat) returns (token: nat)
    requires host in Run(steps).t.hosts
    requires forall c :: c in Run(steps).calls ==> !Carries(Run(steps).calls[c], host)
    ensures Bound(Run(steps).t, token, host)
  {
    hide Run;
    var w := Run(steps);
    RunKeeps(steps);
    Facts(w, 0, 0, host);
    var c := w.t.makers[host];
    token := w.calls[c].token;
    Facts(w, c, token, host);
  }

  lemma SpendOutcome(w: World, c: nat, now: nat)
    requires c in w.calls && w.calls[c].Spending?
    ensures var after, call := Do(w, Spend(c, now)), w.calls[c];
      if Spendable(w.t, call.token)
      then after.calls[c] == Linking(call.token, call.user, call.host, call.secret) && Bound(after.t, call.token, call.host)
      else after == World(w.t, w.calls[c := Undoing(call.token, call.host)])
  {
    hide Tends;
  }

  lemma UndoOutcome(w: World, c: nat)
    requires c in w.calls && w.calls[c].Undoing?
    ensures Do(w, Undo(c)).calls[c] == Over(EnrollmentTokenExpired) && w.calls[c].host !in Do(w, Undo(c)).t.hosts
  {
    hide Tends;
  }

  /** A call wins only a token that was unspent and unexpired when presented; one refused
      leaves the token to the call that spent it. */
  lemma OnlyPresentedTokensEnroll(steps: seq<Step>, c: nat, now: nat)
    requires c in Run(steps).calls && Run(steps).calls[c].Spending?
    ensures var w, after := Run(steps), Do(Run(steps), Spend(c, now));
      var call := w.calls[c];
      && call.token in w.t.tokens && call.asked < w.t.tokens[call.token].expires
      && if w.t.tokens[call.token].spent.None?
         then after.calls[c] == Linking(call.token, call.user, call.host, call.secret) && Bound(after.t, call.token, call.host)
         else after.t == w.t && Do(after, Undo(c)).calls[c] == Over(EnrollmentTokenExpired) && call.host !in Do(after, Undo(c)).t.hosts
  {
    hide Run, Do, TokenInv, HostInv;
    var w := Run(steps);
    RunKeeps(steps);
    Facts(w, c, w.calls[c].token, 0);
    SpendOutcome(w, c, now);
    if !Spendable(w.t, w.calls[c].token) {
      UndoOutcome(Do(w, Spend(c, now)), c);
    }
  }

  lemma BindingStays(w: World, step: Step, token: nat, host: nat)
    requires Inv(w) && Bound(w.t, token, host)
    ensures Bound(Do(w, step).t, token, host)
  {
    hide Inv;
    Around(w, step, 0, token, 0);
  }

  /** Which host a token enrolled never changes. */
  lemma {:induction false} BindingIsFinal(steps: seq<Step>, more: seq<Step>, token: nat, host: nat)
    requires Bound(Run(steps).t, token, host)
    ensures Bound(Run(steps + more).t, token, host) && host in Run(steps + more).t.hosts
  {
    hide Run, Do;
    RunMore(steps, more);
    if more != [] {
      BindingIsFinal(steps, more[..|more| - 1], token, host);
      RunKeeps(steps + more[..|more| - 1]);
      BindingStays(Run(steps + more[..|more| - 1]), more[|more| - 1], token, host);
    }
    RunKeeps(steps + more);
    Facts(Run(steps + more), 0, token, 0);
  }

  /** A token opens at most one host, a host is opened by at most one token, and no
      enrollment token opens any. */
  lemma TokensOpenOneHost(steps: seq<Step>, a: nat, b: nat, presented: nat, another: nat)
    ensures var t := Run(steps).t;
      && (Authenticates(t, a, presented) && Authenticates(t, b, presented) ==> a == b)
      && (Authenticates(t, a, presented) && Authenticates(t, a, another) ==> presented == another)
      && (Authenticates(t, a, presented) ==> presented !in t.tokens)
  {
    hide Run;
    RunKeeps(steps);
    Facts(Run(steps), 0, presented, a);
    Facts(Run(steps), 0, presented, b);
  }

  // ── Removal ──

  /** A call that read the host before and may still write to it, unguarded: a rotation, a
      refresh that has not heard from the room or has heard of a change, or another removal
      that has yet to start draining. */
  predicate Pending(call: Call, host: nat)
  {
    && (call.Rotating? || call.Asking? || call.WritingBack? || call.Finding? || call.Counting? || call.Draining?)
    && call.host == host
  }

  /** A refresh the room leaves nothing to write pends no longer. */
  lemma NothingToWriteIsOver(w: World, c: nat, answer: Option<bool>, changed: bool)
    requires c in w.calls && w.calls[c].Asking?
    ensures var after := Do(w, Hear(c, answer, changed)); var call := w.calls[c];
      && after.t == w.t
      && (Pending(after.calls[c], call.host) <==> answer.Some? && (changed || Reported(answer.value) != call.read))
  {
    hide Enrolls;
  }

  predicate IsRemoved(t: Tables, host: nat)
  {
    host in t.hosts && t.hosts[host].state == State.Removed && t.hosts[host].token == None
  }

  predicate Settled(w: World, host: nat)
  {
    && IsRemoved(w.t, host)
    && forall c :: c in w.calls ==> !Pending(w.calls[c], host) && !Carries(w.calls[c], host)
  }

  lemma EnrollKeepsSettled(w: World, step: Step, host: nat)
    requires Inv(w) && Settled(w, host) && Enrolling(step)
    ensures Settled(Do(w, step), host)
  {
    hide Inv, Tends;
    Around(w, step, 0, 0, host);
  }

  lemma TendKeepsSettled(w: World, step: Step, host: nat)
    requires Settled(w, host) && !Enrolling(step)
    ensures Settled(Do(w, step), host)
  {
    hide Enrolls;
  }

  /** A removed host that no earlier call is still to write to stays removed, and no token
      ever authenticates it again. */
  lemma {:induction false} RemovalIsFinal(steps: seq<Step>, more: seq<Step>, host: nat, presented: nat)
    requires Settled(Run(steps), host)
    ensures Settled(Run(steps + more), host) && !Authenticates(Run(steps + more).t, host, presented)
  {
    hide Run, Do;
    RunMore(steps, more);
    if more != [] {
      var before, step := Run(steps + more[..|more| - 1]), more[|more| - 1];
      RemovalIsFinal(steps, more[..|more| - 1], host, presented);
      RunKeeps(steps + more[..|more| - 1]);
      if Enrolling(step) { EnrollKeepsSettled(before, step, host); } else { TendKeepsSettled(before, step, host); }
    }
  }

  /** A host's token goes only once every machine found live on it that has a container is off
      compute, and only after the host itself was set draining. */
  lemma RevokedOnlyOnceStopped(steps: seq<Step>, c: nat)
    requires Do(Run(steps), Revoke(c)) != Run(steps)
    ensures var w := Run(steps);
      && c in w.calls && w.calls[c].Stopping?
      && (forall machine :: machine in w.calls[c].live && machine.container ==> machine.machine in w.t.deallocated)
      && Do(w, Revoke(c)).calls[c] == Over(Gone)
      && (w.calls[c].host in w.t.hosts ==> IsRemoved(Do(w, Revoke(c)).t, w.calls[c].host))
  {
    hide Run, Enrolls;
    RunKeeps(steps);
    Facts(Run(steps), c, 0, 0);
  }

  lemma Next(steps: seq<Step>, more: seq<Step>, step: Step) returns (longer: seq<Step>)
    ensures longer == more + [step] && Run(steps + longer) == Do(Run(steps + more), step)
  {
    longer := more + [step];
    assert (steps + longer)[..|steps + more|] == steps + more;
  }

  /** Out of `Removed`, and its owner's still. */
  predicate Back(w: World, after: World, host: nat)
  {
    && host in w.t.hosts && host in after.t.hosts && after.t.hosts[host].user == w.t.hosts[host].user
    && after.t.hosts[host].state != State.Removed && after.t.secrets == w.t.secrets
  }

  /** Takes a pending refresh to its write. */
  lemma RefreshLands(steps: seq<Step>, host: nat, c: nat) returns (more: seq<Step>)
    requires host in Run(steps).t.hosts && c in Run(steps).calls
    requires var call := Run(steps).calls[c]; (call.Asking? || call.WritingBack?) && call.host == host
    ensures Back(Run(steps), Run(steps + more), host)
  {
    hide Run, Enrolls;
    RunMore(steps, []);
    more := [];
    if Run(steps).calls[c].Asking? { more := Next(steps, more, Hear(c, Some(true), true)); }
    more := Next(steps, more, WriteBack(c));
  }

  /** Takes a pending removal to its first write: a removal found an account before, and
      accounts stay. */
  lemma RemovalLands(steps: seq<Step>, host: nat, c: nat) returns (more: seq<Step>)
    requires host in Run(steps).t.hosts && host in Run(steps).t.accounts && c in Run(steps).calls
    requires var call := Run(steps).calls[c]; (call.Finding? || call.Counting? || call.Draining?) && call.host == host
    ensures Back(Run(steps), Run(steps + more), host)
  {
    hide Run, Enrolls;
    RunMore(steps, []);
    more := [];
    if Run(steps).calls[c].Finding? { more := Next(steps, more, FindAccount(c)); }
    if !Run(steps).calls[c].Draining? { more := Next(steps, more, CountLive(c, [])); }
    more := Next(steps, more, Drain(c));
  }

  lemma RemovedHasAccount(steps: seq<Step>, host: nat)
    requires IsRemoved(Run(steps).t, host)
    ensures host in Run(steps).t.accounts
  {
    hide Run;
    RunKeeps(steps);
    Facts(Run(steps), 0, 0, host);
  }

  /** And only then: while such a write is pending, the removed host can be opened again. A
      rotation's lands a live token on it; a refresh's or a second removal's takes it out of
      `Removed`, and its owner may rotate. */
  lemma PendingWriteReopens(steps: seq<Step>, host: nat, c: nat) returns (more: seq<Step>, secret: nat)
    requires IsRemoved(Run(steps).t, host)
    requires c in Run(steps).calls && Pending(Run(steps).calls[c], host)
    ensures Authenticates(Run(steps + more).t, host, secret)
  {
    hide Run, Enrolls;
    RunMore(steps, []);
    more := [];
    var w := Run(steps);
    secret := UnusedNumber(w.t.secrets.Keys);
    if w.calls[c].Rotating? {
      more := Next(steps, more, SetToken(c, secret));
    } else {
      if w.calls[c].Asking? || w.calls[c].WritingBack? {
        more := RefreshLands(steps, host, c);
      } else {
        RemovedHasAccount(steps, host);
        more := RemovalLands(steps, host, c);
      }
      var d := UnusedNumber(Run(steps + more).calls.Keys);
      more := Next(steps, more, Rotate(d, w.t.hosts[host].user, host));
      more := Next(steps, more, SetToken(d, secret));
    }
  }

  /** So revocation is final exactly when no unguarded write is pending as it lands. */
  lemma RevokedForGoodExactlyWhenNothingPends(steps: seq<Step>, host: nat, token: nat)
    requires IsRemoved(Run(steps).t, host) && Bound(Run(steps).t, token, host)
    ensures (forall more, presented :: !Authenticates(Run(steps + more).t, host, presented))
       <==> (forall c :: c in Run(steps).calls ==> !Pending(Run(steps).calls[c], host))
  {
    hide Run, Authenticates, Pending, IsRemoved;
    RunKeeps(steps);
    BoundIsNotCarried(Run(steps), token, host);
    if c :| c in Run(steps).calls && Pending(Run(steps).calls[c], host) {
      var more, secret := PendingWriteReopens(steps, host, c);
      assert Authenticates(Run(steps + more).t, host, secret);
    } else {
      forall more, presented ensures !Authenticates(Run(steps + more).t, host, presented) {
        RemovalIsFinal(steps, more, host, presented);
      }
    }
  }

  lemma BoundIsNotCarried(w: World, token: nat, host: nat)
    requires Inv(w) && Bound(w.t, token, host)
    ensures forall c :: c in w.calls ==> !Carries(w.calls[c], host)
  {
    forall c | c in w.calls ensures !Carries(w.calls[c], host) {
      Facts(w, c, token, host);
    }
  }
}
