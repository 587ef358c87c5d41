/** Which token opens a host (crates/api/src/hosts.rs): in every run the last one generated for
    it, by the call that enrolled it or by a rotation, until a removal clears it. */
module HostTokens {
  import opened Prelude
  import opened Hosts

  /** The step stores a host under its first token, or a rotation's token on a stored host. */
  predicate Gives(w: World, step: Step, host: nat, secret: nat)
  {
    match (step, At(w, step.call))
    case (InsertHost(_, id, s), Some(Inserting(_, _, _))) =>
      id == host && s == secret && id !in w.t.makers && s !in w.t.secrets
    case (SetToken(_, s), Some(Rotating(h))) => h == host && s == secret && s !in w.t.secrets && h in w.t.hosts
    case _ => false
  }

  /** A removal's last statement, or a refused racer's, or a newer token. */
  predicate Takes(w: World, step: Step, host: nat)
  {
    match (step, At(w, step.call))
    case (Revoke(_), Some(Stopping(h, live, next))) => h == host && next == |live|
    case (Undo(_), Some(Undoing(_, h))) => h == host
    case (InsertHost(_, id, s), Some(Inserting(_, _, _))) => Gives(w, step, host, s)
    case (SetToken(_, s), Some(Rotating(h))) => Gives(w, step, host, s)
    case _ => false
  }

  lemma TokenStep(w: World, step: Step, host: nat, presented: nat)
    requires Inv(w)
    ensures Authenticates(Do(w, step).t, host, presented) <==>
      Gives(w, step, host, presented) || (Authenticates(w.t, host, presented) && !Takes(w, step, host))
  {
    hide Inv;
    Around(w, step, step.call, 0, host);
    if Enrolling(step) { EnrollTokenStep(w, step, host, presented); } else { TendTokenStep(w, step, host, presented); }
  }

  lemma EnrollTokenStep(w: World, step: Step, host: nat, presented: nat)
    requires Enrolling(step)
    ensures Authenticates(Do(w, step).t, host, presented) <==>
      Gives(w, step, host, presented) || (Authenticates(w.t, host, presented) && !Takes(w, step, host))
  {
    hide Tends;
  }

  lemma TendTokenStep(w: World, step: Step, host: nat, presented: nat)
    requires !Enrolling(step) && (step.call in w.calls ==> CallInv(w, step.call))
    ensures Authenticates(Do(w, step).t, host, presented) <==>
      Gives(w, step, host, presented) || (Authenticates(w.t, host, presented) && !Takes(w, step, host))
  {
    hide Enrolls;
  }

  ghost predicate NeverTaken(steps: seq<Step>, more: seq<Step>, host: nat)
  {
    forall m: nat :: m < |more| ==> !Takes(Run(steps + more[..m]), more[m], host)
  }

  lemma TakenLast(steps: seq<Step>, more: seq<Step>, host: nat)
    requires more != []
    ensures var n := |more| - 1;
      NeverTaken(steps, more, host) <==> NeverTaken(steps, more[..n], host) && !Takes(Run(steps + more[..n]), more[n], host)
  {
    hide Takes, Run;
    var n := |more| - 1;
    assert forall m: nat :: m < n ==> more[..n][..m] == more[..m];
  }

  /** A generated token is never generated again. */
  lemma {:induction false} SecretsStay(steps: seq<Step>, more: seq<Step>, secret: nat)
    requires secret in Run(steps).t.secrets
    ensures secret in Run(steps + more).t.secrets
  {
    hide Run, Do;
    RunMore(steps, more);
    if more != [] {
      SecretsStay(steps, more[..|more| - 1], secret);
      SecretStep(Run(steps + more[..|more| - 1]), more[|more| - 1], secret);
    }
  }

  lemma SecretStep(w: World, step: Step, secret: nat)
    requires secret in w.t.secrets
    ensures secret in Do(w, step).t.secrets
  {
  }

  /** A token that opens its host opens it until it is taken, and never after. */
  lemma {:induction false} TokensOpenUntilTaken(steps: seq<Step>, more: seq<Step>, host: nat, presented: nat)
    requires Authenticates(Run(steps).t, host, presented)
    ensures Authenticates(Run(steps + more).t, host, presented) <==> NeverTaken(steps, more, host)
  {
    hide Run, Do, Takes, Gives, Authenticates;
    RunMore(steps, more);
    if more != [] {
      var init, last := more[..|more| - 1], more[|more| - 1];
      TokensOpenUntilTaken(steps, init, host, presented);
      RunKeeps(steps + init);
      TokenStep(Run(steps + init), last, host, presented);
      TakenLast(steps, more, host);
      OpensWithASecret(steps, host, presented);
      SecretsStay(steps, init, presented);
      NotGivenTwice(Run(steps + init), last, host, presented);
    }
  }

  lemma OpensWithASecret(steps: seq<Step>, host: nat, presented: nat)
    requires Authenticates(Run(steps).t, host, presented)
    ensures presented in Run(steps).t.secrets
  {
    hide Run;
    RunKeeps(steps);
    Facts(Run(steps), 0, 0, host);
  }

  lemma NotGivenTwice(w: World, step: Step, host: nat, secret: nat)
    requires secret in w.t.secrets
    ensures !Gives(w, step, host, secret)
  {
  }

  /** The step that gave the host its token, not taken since. */
  ghost predicate GivenAt(steps: seq<Step>, n: nat, host: nat, secret: nat)
  {
    n < |steps| && Gives(Run(steps[..n]), steps[n], host, secret) && NeverTaken(steps[..n + 1], steps[n + 1..], host)
  }

  lemma GivenOpens(steps: seq<Step>, n: nat, host: nat, secret: nat)
    requires n < |steps| && Gives(Run(steps[..n]), steps[n], host, secret)
    ensures Authenticates(Run(steps).t, host, secret) <==> NeverTaken(steps[..n + 1], steps[n + 1..], host)
    ensures secret in Run(steps[..n + 1]).t.secrets
  {
    hide Run, Do, Takes, Gives, Authenticates;
    assert steps[..n + 1] == steps[..n] + [steps[n]];
    RunMore(steps[..n], [steps[n]]);
    assert steps[..n] + [] == steps[..n];
    RunKeeps(steps[..n]);
    TokenStep(Run(steps[..n]), steps[n], host, secret);
    OpensWithASecret(steps[..n + 1], host, secret);
    TokensOpenUntilTaken(steps[..n + 1], steps[n + 1..], host, secret);
    assert steps[..n + 1] + steps[n + 1..] == steps;
  }

  lemma {:induction false} LastGiven(steps: seq<Step>, host: nat, presented: nat) returns (n: nat)
    requires Authenticates(Run(steps).t, host, presented)
    ensures n < |steps| && Gives(Run(steps[..n]), steps[n], host, presented)
  {
    hide Do, Takes, Gives;
    if steps == [] {
      NobodyOpens(host, presented);
    } else {
      var last := |steps| - 1;
      RunKeeps(steps[..last]);
      TokenStep(Run(steps[..last]), steps[last], host, presented);
      n := last;
      if !Gives(Run(steps[..last]), steps[last], host, presented) {
        n := LastGiven(steps[..last], host, presented);
        assert steps[..last][..n] == steps[..n];
      }
    }
  }

  lemma NobodyOpens(host: nat, presented: nat)
    ensures !Authenticates(Run([]).t, host, presented)
  {
  }

  /** In every run a token opens a host exactly if it is the one last given to it, and nothing
      has taken it since. */
  lemma HostsOpenToTheirLastToken(steps: seq<Step>, host: nat, presented: nat)
    ensures Authenticates(Run(steps).t, host, presented) <==> exists n: nat :: GivenAt(steps, n, host, presented)
  {
    hide Run, Gives, Takes, Authenticates;
    if Authenticates(Run(steps).t, host, presented) {
      var n := LastGiven(steps, host, presented);
      GivenOpens(steps, n, host, presented);
      assert GivenAt(steps, n, host, presented);
    }
    if n: nat :| GivenAt(steps, n, host, presented) {
      GivenOpens(steps, n, host, presented);
    }
  }

  /** What a call that stored a host remembers of it. */
  predicate Stored(at: Option<Call>, host: nat, secret: nat)
  {
    match at
    case Some(Spending(_, _, _, h, s)) => h == host && s == secret
    case Some(Linking(_, _, h, s)) => h == host && s == secret
    case Some(Enrolled(_, h, s)) => h == host && s == secret
    case _ => false
  }

  lemma StoredStep(w: World, step: Step, c: nat, host: nat, secret: nat)
    requires Stored(At(Do(w, step), c), host, secret)
    ensures Stored(At(w, c), host, secret) || (step == InsertHost(c, host, secret) && Gives(w, step, host, secret))
  {
  }

  lemma {:induction false} StoredOnce(steps: seq<Step>, c: nat, host: nat, secret: nat) returns (n: nat)
    requires Stored(At(Run(steps), c), host, secret)
    ensures n < |steps| && steps[n] == InsertHost(c, host, secret) && Gives(Run(steps[..n]), steps[n], host, secret)
  {
    hide Do, Gives, Stored;
    if steps == [] {
      NothingStored(c, host, secret);
    } else {
      n := |steps| - 1;
      StoredStep(Run(steps[..n]), steps[n], c, host, secret);
      if Stored(At(Run(steps[..n]), c), host, secret) {
        var m := StoredOnce(steps[..n], c, host, secret);
        assert steps[..n][..m] == steps[..m];
        n := m;
      }
    }
  }

  lemma NothingStored(c: nat, host: nat, secret: nat)
    ensures !Stored(At(Run([]), c), host, secret)
  {
  }

  /** So the token a call that enrolled was answered opens the machine's host until it is
      rotated away, or a removal clears it. */
  lemma EnrolledTokensOpen(steps: seq<Step>, c: nat, token: nat, host: nat, secret: nat) returns (n: nat)
    requires c in Run(steps).calls && Run(steps).calls[c] == Enrolled(token, host, secret)
    ensures n < |steps| && steps[n] == InsertHost(c, host, secret)
    ensures Authenticates(Run(steps).t, host, secret) <==> NeverTaken(steps[..n + 1], steps[n + 1..], host)
  {
    hide Run, Do, Gives, Takes, Authenticates;
    n := StoredOnce(steps, c, host, secret);
    GivenOpens(steps, n, host, secret);
  }
}
