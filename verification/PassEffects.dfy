/** What a delivery pass does to whom, and in which order (crates/api/src/metering.rs,
    sessions.rs): every signal is commanded once and marked right after, and a pause is commanded
    only once its session is paused. */
module PassEffects {
  import opened Prelude
  import opened BudgetEngine
  import opened BudgetTables
  import opened Delivery

  /** The commands among some effects, in order. */
  function Commands(done: seq<Effect>): seq<SignalRow>
  {
    if done == [] then []
    else
      var last := done[|done| - 1];
      Commands(done[..|done| - 1]) + if last.Commanding? then [last.row] else []
  }

  predicate PausesFor(rows: seq<SignalRow>, session: nat)
  {
    exists i :: 0 <= i < |rows| && rows[i].signal == Signal.Pause && rows[i].session == session
  }

  /** Sessions a pause came up for go from active to paused, and nothing else happens to any. */
  predicate OnlyPaused(sessions: map<nat, SessionState>, rows: seq<SignalRow>, after: map<nat, SessionState>)
  {
    && after.Keys == sessions.Keys
    && forall s :: s in sessions ==>
         after[s] == if sessions[s] == Active && PausesFor(rows, s) then Paused else sessions[s]
  }

  /** At `k`, counting from where the pass began: a mark follows its own command, a pause's
      command follows the pausing of its session unless that was paused before, and only an
      active session is paused. */
  predicate InOrderAt(sessions: map<nat, SessionState>, done: seq<Effect>, from: nat, k: nat)
    requires from <= k < |done|
  {
    match done[k]
    case Marking(id) => k > from && done[k - 1].Commanding? && done[k - 1].row.id == id
    case Commanding(row) =>
      row.signal == Signal.Pause ==>
        (row.session in sessions && sessions[row.session] == Paused) || PausedSince(done, from, k, row.session)
    case Pausing(session) => session in sessions && sessions[session] == Active
  }

  predicate PausedSince(done: seq<Effect>, from: nat, k: nat, session: nat)
    requires k <= |done|
  {
    exists j :: from <= j < k && done[j] == Pausing(session)
  }

  predicate InOrder(sessions: map<nat, SessionState>, done: seq<Effect>, from: nat)
  {
    forall k: nat :: from <= k < |done| ==> InOrderAt(sessions, done, from, k)
  }

  /** What is so far true of a pass that began with `sessions` after `from` effects. */
  predicate SoFar(sessions: map<nat, SessionState>, from: nat, paused: seq<SignalRow>, p: Place)
  {
    && from <= |p.done| && OnlyPaused(sessions, paused, p.sessions) && InOrder(sessions, p.done, from)
    && forall s :: s in sessions && sessions[s] == Active && PausesFor(paused, s) ==> PausedSince(p.done, from, |p.done|, s)
  }

  lemma LongerDone(sessions: map<nat, SessionState>, done: seq<Effect>, from: nat, effect: Effect)
    requires from <= |done| && InOrder(sessions, done, from)
    requires InOrderAt(sessions, done + [effect], from, |done|)
    ensures InOrder(sessions, done + [effect], from)
    ensures forall s :: PausedSince(done, from, |done|, s) ==> PausedSince(done + [effect], from, |done| + 1, s)
  {
    var longer := done + [effect];
    forall s | PausedSince(done, from, |done|, s) ensures PausedSince(longer, from, |longer|, s) {
      var j :| from <= j < |done| && done[j] == Pausing(s);
      assert longer[j] == Pausing(s);
    }
    forall k: nat | from <= k < |longer| ensures InOrderAt(sessions, longer, from, k) {
      if k < |done| {
        assert InOrderAt(sessions, done, from, k);
        if done[k].Commanding? && PausedSince(done, from, k, done[k].row.session) {
          var j :| from <= j < k && done[j] == Pausing(done[k].row.session);
          assert longer[j] == done[j];
        }
      }
    }
  }

  lemma MorePauses(rows: seq<SignalRow>, row: SignalRow)
    ensures forall s :: PausesFor(rows + [row], s) <==> PausesFor(rows, s) || (row.signal == Signal.Pause && row.session == s)
  {
    var more := rows + [row];
    forall s ensures PausesFor(more, s) <==> PausesFor(rows, s) || (row.signal == Signal.Pause && row.session == s) {
      if PausesFor(rows, s) {
        var i :| 0 <= i < |rows| && rows[i].signal == Signal.Pause && rows[i].session == s;
        assert more[i] == rows[i];
      }
      assert more[|rows|] == row;
    }
  }

  lemma PausingGoesOn(sessions: map<nat, SessionState>, from: nat, rows: seq<SignalRow>, p: Place, row: SignalRow)
    requires SoFar(sessions, from, rows, p)
    ensures SoFar(sessions, from, rows + [row], if row.signal == Signal.Pause then Paused1(p, row.session) else p)
  {
    hide InOrder, PausedSince;
    MorePauses(rows, row);
    hide PausesFor;
    if row.signal == Signal.Pause && row.session in p.sessions && p.sessions[row.session] == Active {
      var done := p.done + [Pausing(row.session)];
      LongerDone(sessions, p.done, from, Pausing(row.session));
      JustPaused(p.done, from, row.session);
    }
  }

  lemma JustPaused(done: seq<Effect>, from: nat, session: nat)
    requires from <= |done|
    ensures PausedSince(done + [Pausing(session)], from, |done| + 1, session)
  {
    assert (done + [Pausing(session)])[|done|] == Pausing(session);
  }

  lemma SendingGoesOn(sessions: map<nat, SessionState>, from: nat, rows: seq<SignalRow>, p: Place, row: SignalRow)
    requires SoFar(sessions, from, rows, p) && row in rows
    requires row.signal == Signal.Pause ==> row.session in sessions && sessions[row.session] in {Active, Paused}
    ensures SoFar(sessions, from, rows, p.(done := p.done + [Commanding(row), Marking(row.id)]))
  {
    hide InOrder;
    assert row.signal == Signal.Pause ==> PausesFor(rows, row.session);
    var commanded := p.done + [Commanding(row)];
    if row.signal == Signal.Pause && sessions[row.session] == Active {
      var j :| from <= j < |p.done| && p.done[j] == Pausing(row.session);
      assert commanded[j] == p.done[j];
    }
    LongerDone(sessions, p.done, from, Commanding(row));
    LongerDone(sessions, commanded, from, Marking(row.id));
    assert commanded + [Marking(row.id)] == p.done + [Commanding(row), Marking(row.id)];
    hide PausedSince, PausesFor;
  }

  lemma CommandsOfTwo(done: seq<Effect>, row: SignalRow)
    ensures Commands(done + [Commanding(row), Marking(row.id)]) == Commands(done) + [row]
  {
    var commanded := done + [Commanding(row)];
    assert commanded[..|done|] == done;
    var all := done + [Commanding(row), Marking(row.id)];
    assert all[..|all| - 1] == commanded;
    assert Commands(commanded) + [] == Commands(commanded);
  }

  lemma CommandsOfPause(done: seq<Effect>, session: nat)
    ensures Commands(done + [Pausing(session)]) == Commands(done)
  {
    assert (done + [Pausing(session)])[..|done|] == done;
    assert Commands(done) + [] == Commands(done);
  }

  lemma {:induction false} SendingAll(p: Place, rows: seq<SignalRow>)
    requires forall i :: 0 <= i < |rows| && rows[i].signal == Signal.Pause ==>
      rows[i].session in p.sessions && p.sessions[rows[i].session] in {Active, Paused}
    ensures SoFar(p.sessions, |p.done|, rows, SentAll(p, rows))
    ensures Commands(SentAll(p, rows).done) == Commands(p.done) + rows
  {
    hide InOrder, OnlyPaused, PausedSince, PausesFor;
    if rows == [] {
      NothingSent(p);
    } else {
      var init, row := rows[..|rows| - 1], rows[|rows| - 1];
      SendingAll(p, init);
      var before := SentAll(p, init);
      assert init + [row] == rows;
      PausingGoesOn(p.sessions, |p.done|, init, before, row);
      var paused := if row.signal == Signal.Pause then Paused1(before, row.session) else before;
      SendingGoesOn(p.sessions, |p.done|, rows, paused, row);
      CommandsOfTwo(paused.done, row);
      CommandsOfPause(before.done, row.session);
    }
  }

  lemma NothingSent(p: Place)
    ensures SoFar(p.sessions, |p.done|, [], p)
  {
  }

  /** A pass from start to end: it commands the listed rows up to the first whose session's room
      cannot be reached or, for a pause, is neither active nor paused, in the order listed; each
      is marked right after its command; the active sessions of the pauses that came up end
      paused, the one that ended the pass among them, and no other session is touched. */
  lemma PassComesTo(post: Post, pending: seq<SignalRow>, reachable: set<nat>) returns (n: nat)
    ensures n <= |pending|
    ensures forall i :: 0 <= i < |pending| && i <= n ==>
      var row, sessions := pending[i], post.place.sessions;
      (i < n) == (row.session in reachable
        && (row.signal == Signal.Pause ==> row.session in sessions && sessions[row.session] in {Active, Paused}))
    ensures var after := Passed(post, pending, reachable);
      && Commands(after.place.done) == Commands(post.place.done) + pending[..n]
      && |post.place.done| <= |after.place.done| && InOrder(post.place.sessions, after.place.done, |post.place.done|)
      && OnlyPaused(post.place.sessions, pending[..Min(n + 1, |pending|)], after.place.sessions)
  {
    var sessions, done := post.place.sessions, post.place.done;
    n := FirstRefusal(pending, sessions, reachable);
    SendingAll(post.place, pending[..n]);
    hide InOrder, OnlyPaused, PausedSince, PausesFor, SentAll;
    var before := SentAll(post.place, pending[..n]);
    if n < |pending| {
      assert pending[..n + 1] == pending[..n] + [pending[n]];
      PausingGoesOn(sessions, |done|, pending[..n], before, pending[n]);
      CommandsOfPause(before.done, pending[n].session);
    }
  }
}
