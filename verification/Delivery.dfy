/** Delivering the budget outbox (`deliver` of crates/api/src/metering.rs, with
    `pending_signals` and `mark_delivered` of crates/api/src/budgets.rs and
    `pause_for_budget` of crates/api/src/sessions.rs). */
module Delivery {
  import opened Prelude
  import opened BudgetEngine
  import opened BudgetTables
  import opened BudgetRuns
  import opened BudgetStore

  datatype SessionState = Provisioning | Active | Paused | Interrupted | Failed | Archived

  /** What a pass does, in the order it does it. */
  datatype Effect = Pausing(session: nat) | Commanding(row: SignalRow) | Marking(id: nat)

  function Pending(outbox: seq<SignalRow>): seq<SignalRow>
  {
    if outbox == [] then []
    else
      Pending(outbox[..|outbox| - 1])
        + if outbox[|outbox| - 1].delivered then [] else [outbox[|outbox| - 1]]
  }

  /** The pending rows in some order: the store sorts them by creation time, ordinal and
      identifier, and nothing below depends on which order it is. */
  predicate Lists(rows: seq<SignalRow>, outbox: seq<SignalRow>)
  {
    multiset(rows) == multiset(Pending(outbox))
  }

  predicate DistinctIds(rows: seq<SignalRow>)
  {
    forall i, j :: 0 <= i < j < |rows| ==> rows[i].id != rows[j].id
  }

  /** Whether a pass cannot get past this row: the room does not answer, or the lifecycle
      will not pause the session from where it is. */
  predicate Refuses(row: SignalRow, sessions: map<nat, SessionState>, reachable: set<nat>)
  {
    || row.session !in reachable
    || (row.signal == Signal.Pause
        && (row.session !in sessions || sessions[row.session] !in {Active, Paused}))
  }

  function Marked(outbox: seq<SignalRow>, rows: seq<SignalRow>): (r: seq<SignalRow>)
    ensures |r| == |outbox|
  {
    if rows == [] then outbox else Delivered(Marked(outbox, rows[..|rows| - 1]), rows[|rows| - 1].id)
  }

  /** The sessions, and everything a pass has done to anybody. */
  datatype Place = Place(sessions: map<nat, SessionState>, done: seq<Effect>)

  /** A pause that lands. */
  function Paused1(p: Place, session: nat): Place
  {
    if session in p.sessions && p.sessions[session] == Active
    then Place(p.sessions[session := Paused], p.done + [Pausing(session)]) else p
  }

  /** Delivering one row: the pause first, then the command, then the mark. */
  function Sent(p: Place, row: SignalRow): Place
  {
    var paused := if row.signal == Signal.Pause then Paused1(p, row.session) else p;
    paused.(done := paused.done + [Commanding(row), Marking(row.id)])
  }

  function SentAll(p: Place, rows: seq<SignalRow>): Place
  {
    if rows == [] then p else Sent(SentAll(p, rows[..|rows| - 1]), rows[|rows| - 1])
  }

  /** Delivering some rows changes nobody's mind about another: pausing only moves a
      session between two states a pause is accepted from. */
  lemma {:induction false} SendingKeepsRefusals(p: Place, rows: seq<SignalRow>, row: SignalRow, reachable: set<nat>)
    ensures Refuses(row, SentAll(p, rows).sessions, reachable) <==> Refuses(row, p.sessions, reachable)
  {
    if rows != [] {
      SendingKeepsRefusals(p, rows[..|rows| - 1], row, reachable);
    }
  }

  /** The position of the first row that refuses; the length if none does. */
  function FirstRefusal(rows: seq<SignalRow>, sessions: map<nat, SessionState>, reachable: set<nat>): (n: nat)
    ensures n <= |rows|
    ensures forall i :: 0 <= i < n ==> !Refuses(rows[i], sessions, reachable)
    ensures n < |rows| ==> Refuses(rows[n], sessions, reachable)
  {
    if rows == [] then 0
    else
      var n := FirstRefusal(rows[..|rows| - 1], sessions, reachable);
      if n == |rows| - 1 && !Refuses(rows[n], sessions, reachable) then n + 1 else n
  }

  lemma FirstRefusalIs(rows: seq<SignalRow>, sessions: map<nat, SessionState>, reachable: set<nat>, n: nat)
    requires n <= |rows|
    requires forall i :: 0 <= i < n ==> !Refuses(rows[i], sessions, reachable)
    requires n < |rows| ==> Refuses(rows[n], sessions, reachable)
    ensures FirstRefusal(rows, sessions, reachable) == n
  {
  }

  /** The outbox, the sessions, and everything passes have done. */
  datatype Post = Post(outbox: seq<SignalRow>, place: Place)

  /** A whole pass over the pending rows as they were listed. A pause that landed before its
      room turned out not to answer stays landed. */
  function Passed(post: Post, pending: seq<SignalRow>, reachable: set<nat>): Post
  {
    var n := FirstRefusal(pending, post.place.sessions, reachable);
    var before := SentAll(post.place, pending[..n]);
    Post(Marked(post.outbox, pending[..n]),
         if n < |pending| && pending[n].signal == Signal.Pause then Paused1(before, pending[n].session) else before)
  }

  class Courier {
    const store: Store
    var sessions: map<nat, SessionState>
    var reachable: set<nat>
    var done: seq<Effect>

    function Where(): Place
      reads this
    {
      Place(sessions, done)
    }

    constructor (store: Store, sessions: map<nat, SessionState>, reachable: set<nat>)
      ensures this.store == store && this.reachable == reachable && Where() == Place(sessions, [])
    {
      this.store, this.sessions, this.reachable, done := store, sessions, reachable, [];
    }

    /** `pause_for_budget`. */
    method PauseForBudget(session: nat) returns (ok: bool)
      modifies this
      ensures reachable == old(reachable)
      ensures ok <==> session in old(sessions) && old(sessions)[session] in {Active, Paused}
      ensures Where() == Paused1(old(Where()), session)
    {
      if session !in sessions { return false; }
      if sessions[session] == Paused { return true; }
      if sessions[session] != Active { return false; }
      sessions := sessions[session := Paused];
      done := done + [Pausing(session)];
      ok := true;
    }

    /** One turn of `deliver`'s loop. A refusal sends and marks nothing. */
    method DeliverOne(row: SignalRow) returns (ok: bool)
      modifies this, store
      ensures reachable == old(reachable)
      ensures store.budgets == old(store.budgets) && store.ledger == old(store.ledger)
      ensures ok <==> !Refuses(row, old(sessions), reachable)
      ensures ok ==> Where() == Sent(old(Where()), row)
      ensures ok ==> store.outbox == Delivered(old(store.outbox), row.id)
      ensures !ok ==> store.outbox == old(store.outbox)
      ensures !ok ==>
        Where() == if row.signal == Signal.Pause then Paused1(old(Where()), row.session) else old(Where())
    {
      if row.signal == Signal.Pause {
        var paused := PauseForBudget(row.session);
        if !paused { return false; }
      }
      if row.session !in reachable { return false; }
      label sending:
      done := done + [Commanding(row)];
      store.outbox := Delivered(store.outbox, row.id);
      done := done + [Marking(row.id)];
      assert done == old@sending(done) + [Commanding(row), Marking(row.id)];
      ok := true;
    }

    /** `deliver`, over the pending rows in the order the store gave them: it stops at the
        first that refuses. What came before it was paused for, sent and marked, in that
        order; what comes after it is untouched. */
    method Deliver(pending: seq<SignalRow>) returns (ok: bool, sent: nat)
      requires Lists(pending, store.outbox)
      modifies this, store
      ensures reachable == old(reachable)
      ensures store.budgets == old(store.budgets) && store.ledger == old(store.ledger)
      ensures sent == FirstRefusal(pending, old(sessions), reachable)
      ensures ok <==> sent == |pending|
      ensures Post(store.outbox, Where()) == Passed(Post(old(store.outbox), old(Where())), pending, reachable)
    {
      hide Refuses, Sent, Delivered, Paused1, Lists;
      sent := 0;
      while sent < |pending|
        invariant sent <= |pending| && reachable == old(reachable)
        invariant store.budgets == old(store.budgets) && store.ledger == old(store.ledger)
        invariant forall i :: 0 <= i < sent ==> !Refuses(pending[i], old(sessions), reachable)
        invariant store.outbox == Marked(old(store.outbox), pending[..sent])
        invariant Where() == SentAll(old(Where()), pending[..sent])
      {
        assert pending[..sent + 1][..sent] == pending[..sent];
        SendingKeepsRefusals(old(Where()), pending[..sent], pending[sent], reachable);
        var delivered := DeliverOne(pending[sent]);
        if !delivered {
          FirstRefusalIs(pending, old(sessions), reachable, sent);
          return false, sent;
        }
        sent := sent + 1;
      }
      assert pending[..|pending|] == pending;
      FirstRefusalIs(pending, old(sessions), reachable, sent);
      ok := true;
    }
  }

  /** Two rows share no place in a listing of distinct identifiers. */
  lemma ListedOnce(outbox: seq<SignalRow>, pending: seq<SignalRow>)
    requires DistinctIds(outbox) && Lists(pending, outbox)
    ensures DistinctIds(pending)
    ensures forall row :: row in pending <==> row in outbox && !row.delivered
  {
    hide Pending;
    PendingRows(outbox);
    PendingDistinct(outbox);
    forall row ensures row in pending <==> row in Pending(outbox) {
      assert row in pending <==> row in multiset(pending);
      assert row in Pending(outbox) <==> row in multiset(Pending(outbox));
    }
    PermutedDistinct(Pending(outbox), pending);
  }

  lemma PermutedDistinct(rows: seq<SignalRow>, listed: seq<SignalRow>)
    requires DistinctIds(rows) && multiset(rows) == multiset(listed)
    ensures DistinctIds(listed)
  {
    forall i, j | 0 <= i < j < |listed| ensures listed[i].id != listed[j].id {
      var a, b := listed[i], listed[j];
      assert a in multiset(listed) && b in multiset(listed);
      if a == b {
        TwoPlacesTwoCopies(listed, i, j);
        OnePlaceOneCopy(rows, a);
      } else {
        var k :| 0 <= k < |rows| && rows[k] == a;
        var l :| 0 <= l < |rows| && rows[l] == b;
      }
    }
  }

  lemma TwoPlacesTwoCopies(rows: seq<SignalRow>, i: nat, j: nat)
    requires i < j < |rows| && rows[i] == rows[j]
    ensures multiset(rows)[rows[i]] >= 2
  {
    assert rows == rows[..j] + [rows[j]] + rows[j + 1..];
    assert rows[i] in rows[..j];
    assert rows[i] in multiset(rows[..j]);
  }

  lemma {:induction false} OnePlaceOneCopy(rows: seq<SignalRow>, row: SignalRow)
    requires DistinctIds(rows)
    ensures multiset(rows)[row] <= 1
  {
    if rows != [] {
      var n := |rows| - 1;
      OnePlaceOneCopy(rows[..n], row);
      assert rows == rows[..n] + [rows[n]];
      assert row == rows[n] ==> row !in multiset(rows[..n]);
    }
  }

  lemma {:induction false} PendingDistinct(outbox: seq<SignalRow>)
    requires DistinctIds(outbox)
    ensures DistinctIds(Pending(outbox))
  {
    if outbox != [] {
      var n := |outbox| - 1;
      PendingDistinct(outbox[..n]);
      PendingRows(outbox[..n]);
      var earlier := Pending(outbox[..n]);
      forall i | 0 <= i < |earlier| ensures earlier[i].id != outbox[n].id {
        assert earlier[i] in earlier;
      }
    }
  }

  /** After a pass, what is left pending is what was listed from the first refusal on. */
  lemma PassLeaves(post: Post, pending: seq<SignalRow>, reachable: set<nat>)
    requires DistinctIds(post.outbox) && Lists(pending, post.outbox)
    ensures var n, after := FirstRefusal(pending, post.place.sessions, reachable), Passed(post, pending, reachable);
      && DistinctIds(after.outbox)
      && (forall row :: row in Pending(after.outbox) <==> row in pending[n..])
      && (forall row :: Refuses(row, after.place.sessions, reachable) <==> Refuses(row, post.place.sessions, reachable))
  {
    hide Refuses, Pending, Marked, FirstRefusal, Lists;
    var n, after := FirstRefusal(pending, post.place.sessions, reachable), Passed(post, pending, reachable);
    ListedOnce(post.outbox, pending);
    MarkedRows(post.outbox, pending[..n]);
    PendingRows(after.outbox);
    forall row ensures row in Pending(after.outbox) <==> row in pending[n..] {
      LeftRow(post.outbox, pending, n, row);
    }
    forall row ensures Refuses(row, after.place.sessions, reachable) <==> Refuses(row, post.place.sessions, reachable) {
      SendingKeepsRefusals(post.place, pending[..n], row, reachable);
      PausingKeepsRefusals(SentAll(post.place, pending[..n]), if n < |pending| then pending[n].session else 0, row, reachable);
    }
  }

  lemma PausingKeepsRefusals(p: Place, session: nat, row: SignalRow, reachable: set<nat>)
    ensures Refuses(row, Paused1(p, session).sessions, reachable) <==> Refuses(row, p.sessions, reachable)
  {
  }

  lemma LeftRow(outbox: seq<SignalRow>, pending: seq<SignalRow>, n: nat, row: SignalRow)
    requires DistinctIds(outbox) && DistinctIds(pending) && n <= |pending|
    requires forall r :: r in pending <==> r in outbox && !r.delivered
    requires forall i :: 0 <= i < |outbox| ==> Marked(outbox, pending[..n])[i] == MarkedRow(outbox[i], pending[..n])
    ensures row in Marked(outbox, pending[..n]) && !row.delivered <==> row in pending[n..]
  {
    hide Marked, MarkedRow, DistinctIds;
    var after := Marked(outbox, pending[..n]);
    if row in after && !row.delivered {
      var i: nat :| i < |after| && after[i] == row;
      UnmarkedIsBehind(outbox[i], pending, n);
    }
    if row in pending[n..] {
      var k: nat :| n <= k < |pending| && pending[k] == row;
      BehindIsUnmarked(pending, n, k);
      assert row in pending;
      var i: nat :| i < |outbox| && outbox[i] == row;
      assert after[i] == row;
    }
  }

  lemma UnmarkedIsBehind(row: SignalRow, pending: seq<SignalRow>, n: nat)
    requires n <= |pending| && !MarkedRow(row, pending[..n]).delivered
    requires !row.delivered ==> row in pending
    ensures MarkedRow(row, pending[..n]) == row && row in pending[n..]
  {
    assert row !in pending[..n];
    assert pending == pending[..n] + pending[n..];
  }

  lemma BehindIsUnmarked(pending: seq<SignalRow>, n: nat, k: nat)
    requires DistinctIds(pending) && n <= k < |pending|
    ensures MarkedRow(pending[k], pending[..n]) == pending[k]
  {
    forall marked | marked in pending[..n] ensures marked.id != pending[k].id {
      var i: nat :| i < n && pending[i] == marked;
    }
  }

  /** A pass empties the outbox of pending signals exactly when none of them refuses, in
      whatever order it takes them. */
  lemma PassDeliversAllUnlessOneRefuses(post: Post, pending: seq<SignalRow>, reachable: set<nat>)
    requires DistinctIds(post.outbox) && Lists(pending, post.outbox)
    ensures Pending(Passed(post, pending, reachable).outbox) == []
       <==> forall row :: row in Pending(post.outbox) ==> !Refuses(row, post.place.sessions, reachable)
  {
    hide Refuses, Pending, Passed, FirstRefusal;
    var n, after := FirstRefusal(pending, post.place.sessions, reachable), Passed(post, pending, reachable);
    ListedOnce(post.outbox, pending);
    PassLeaves(post, pending, reachable);
    PendingRows(post.outbox);
    if n < |pending| {
      assert pending[n] in pending && pending[n] in pending[n..];
      assert pending[n] in Pending(post.outbox) && pending[n] in Pending(after.outbox);
    } else {
      SomeRow(Pending(after.outbox));
      forall row | row in Pending(post.outbox) ensures !Refuses(row, post.place.sessions, reachable) {
        var i: nat :| i < |pending| && pending[i] == row;
      }
    }
  }

  lemma SomeRow(rows: seq<SignalRow>)
    ensures rows == [] || exists row :: row in rows
  {
    if rows != [] {
      assert rows[0] in rows;
    }
  }

  // ── Pass after pass ──

  /** Where a row comes in the store's order. A row's creation time, ordinal and identifier
      never change, so neither does its rank. */
  ghost predicate Ranked(rows: seq<SignalRow>, rank: nat -> nat)
  {
    forall i, j :: 0 <= i < j < |rows| ==> rank(rows[i].id) < rank(rows[j].id)
  }

  /** One pass after another, each over the pending rows as it found them. */
  function Passes(post: Post, listings: seq<seq<SignalRow>>, reachable: set<nat>): Post
  {
    if listings == [] then post
    else Passed(Passes(post, listings[..|listings| - 1], reachable), listings[|listings| - 1], reachable)
  }

  ghost predicate ListedInTurn(post: Post, listings: seq<seq<SignalRow>>, reachable: set<nat>, rank: nat -> nat)
  {
    forall n: nat :: n < |listings| ==> ListedAt(Passes(post, listings[..n], reachable), listings[n], rank)
  }

  ghost predicate ListedAt(post: Post, pending: seq<SignalRow>, rank: nat -> nat)
  {
    Lists(pending, post.outbox) && Ranked(pending, rank)
  }

  /** A pending row that refuses, ranked at or before this one. */
  ghost predicate HeldUp(row: SignalRow, post: Post, reachable: set<nat>, rank: nat -> nat)
  {
    exists first :: first in Pending(post.outbox) && Refuses(first, post.place.sessions, reachable) && rank(first.id) <= rank(row.id)
  }

  lemma OnePass(post: Post, pending: seq<SignalRow>, reachable: set<nat>, rank: nat -> nat, row: SignalRow)
    requires DistinctIds(post.outbox) && ListedAt(post, pending, rank) && row in Pending(post.outbox)
    ensures row in Pending(Passed(post, pending, reachable).outbox) <==> HeldUp(row, post, reachable, rank)
    ensures HeldUp(row, post, reachable, rank) ==> HeldUp(row, Passed(post, pending, reachable), reachable, rank)
  {
    hide Refuses, Pending, Passed, FirstRefusal;
    var sessions := post.place.sessions;
    var n := FirstRefusal(pending, sessions, reachable);
    ListedOnce(post.outbox, pending);
    PassLeaves(post, pending, reachable);
    PendingRows(post.outbox);
    var i: nat :| i < |pending| && pending[i] == row;
    if n <= i {
      assert pending[n] in pending && pending[n] in pending[n..] && row in pending[n..];
      assert HeldUp(row, post, reachable, rank);
    } else {
      RefusalsAreBehind(post, pending, reachable, rank);
      assert !HeldUp(row, post, reachable, rank);
      NotBehind(pending, n, i);
    }
  }

  lemma RefusalsAreBehind(post: Post, pending: seq<SignalRow>, reachable: set<nat>, rank: nat -> nat)
    requires Ranked(pending, rank) && forall row :: row in Pending(post.outbox) ==> row in pending
    ensures var n := FirstRefusal(pending, post.place.sessions, reachable);
      forall first :: first in Pending(post.outbox) && Refuses(first, post.place.sessions, reachable)
        ==> n < |pending| && rank(pending[n].id) <= rank(first.id)
  {
    hide Refuses, Pending, FirstRefusal;
    var n := FirstRefusal(pending, post.place.sessions, reachable);
    forall first | first in Pending(post.outbox) && Refuses(first, post.place.sessions, reachable)
      ensures n < |pending| && rank(pending[n].id) <= rank(first.id)
    {
      var k: nat :| k < |pending| && pending[k] == first;
      assert n <= k;
    }
  }

  lemma NotBehind(pending: seq<SignalRow>, n: nat, i: nat)
    requires DistinctIds(pending) && i < n <= |pending|
    ensures pending[i] !in pending[n..]
  {
  }

  /** On every pass: a row pending before any number of passes is still pending after them
      exactly if some pending row at or before it in the store's order refuses. One pause of a
      session that is neither active nor paused holds up every signal behind it, of every
      session, for as long as it refuses. */
  lemma {:induction false} HeldUpOnEveryPass(post: Post, listings: seq<seq<SignalRow>>, reachable: set<nat>, rank: nat -> nat, row: SignalRow)
    requires DistinctIds(post.outbox) && ListedInTurn(post, listings, reachable, rank)
    requires listings != [] && row in Pending(post.outbox)
    ensures row in Pending(Passes(post, listings, reachable).outbox) <==> HeldUp(row, post, reachable, rank)
  {
    hide Pending, Passed, ListedAt, HeldUp;
    PassesKeep(post, listings, reachable, rank, row);
  }

  lemma {:induction false} PassesKeep(post: Post, listings: seq<seq<SignalRow>>, reachable: set<nat>, rank: nat -> nat, row: SignalRow)
    requires DistinctIds(post.outbox) && ListedInTurn(post, listings, reachable, rank) && row in Pending(post.outbox)
    ensures DistinctIds(Passes(post, listings, reachable).outbox)
    ensures HeldUp(row, post, reachable, rank) ==>
      row in Pending(Passes(post, listings, reachable).outbox) && HeldUp(row, Passes(post, listings, reachable), reachable, rank)
    ensures listings != [] && !HeldUp(row, post, reachable, rank) ==> row !in Pending(Passes(post, listings, reachable).outbox)
  {
    hide Pending, Passed, ListedAt, HeldUp, DistinctIds, Refuses;
    if listings != [] {
      var n := |listings| - 1;
      forall m: nat | m < n ensures ListedAt(Passes(post, listings[..n][..m], reachable), listings[..n][m], rank) {
        assert listings[..n][..m] == listings[..m];
        assert ListedAt(Passes(post, listings[..m], reachable), listings[m], rank);
      }
      PassesKeep(post, listings[..n], reachable, rank, row);
      var before := Passes(post, listings[..n], reachable);
      assert ListedAt(before, listings[n], rank);
      PassKeepsDistinct(before, listings[n], reachable, rank);
      if row in Pending(before.outbox) {
        assert n == 0 ==> before == post;
        OnePass(before, listings[n], reachable, rank, row);
      } else {
        OnlyLeft(before, listings[n], reachable, rank, row);
      }
    }
  }

  lemma PassKeepsDistinct(post: Post, pending: seq<SignalRow>, reachable: set<nat>, rank: nat -> nat)
    requires DistinctIds(post.outbox) && ListedAt(post, pending, rank)
    ensures DistinctIds(Passed(post, pending, reachable).outbox)
  {
    hide Pending, Passed, DistinctIds, Refuses;
    PassLeaves(post, pending, reachable);
  }

  lemma OnlyLeft(post: Post, pending: seq<SignalRow>, reachable: set<nat>, rank: nat -> nat, row: SignalRow)
    requires DistinctIds(post.outbox) && ListedAt(post, pending, rank) && row !in Pending(post.outbox)
    ensures row !in Pending(Passed(post, pending, reachable).outbox)
  {
    hide Pending, Passed, DistinctIds, Refuses;
    PassLeaves(post, pending, reachable);
    ListedOnce(post.outbox, pending);
    PendingRows(post.outbox);
    var n := FirstRefusal(pending, post.place.sessions, reachable);
    assert row in pending[n..] ==> row in pending;
  }

  lemma {:induction false} PendingRows(outbox: seq<SignalRow>)
    ensures forall row :: row in Pending(outbox) <==> row in outbox && !row.delivered
  {
    if outbox != [] {
      PendingRows(outbox[..|outbox| - 1]);
    }
  }

  function MarkedRow(row: SignalRow, rows: seq<SignalRow>): SignalRow
  {
    if exists marked :: marked in rows && marked.id == row.id then row.(delivered := true) else row
  }

  /** Marking delivers exactly the rows with the marked identifiers and changes nothing else. */
  lemma {:induction false} MarkedRows(outbox: seq<SignalRow>, rows: seq<SignalRow>)
    ensures forall i :: 0 <= i < |outbox| ==> Marked(outbox, rows)[i] == MarkedRow(outbox[i], rows)
  {
    if rows != [] {
      var n := |rows| - 1;
      MarkedRows(outbox, rows[..n]);
      assert rows == rows[..n] + [rows[n]];
    }
  }
}
