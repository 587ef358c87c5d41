/** Tree memory (crates/api/src/memory.rs): nodes that name their parent, and the recursive
    statement that forgets a node with everything under it. */
module MemoryTree {
  import opened Prelude

  datatype Node = Node(user: nat, parent: Option<nat>, repo: Option<string>, title: string, content: string, updated: nat)

  type Nodes = map<nat, Node>

  /** `Refused` is a statement the database would not execute. */
  datatype Result = Found(node: Node) | MemoryNodeNotFound | Forgotten | Refused

  /** `WHERE id = … AND user_id = …`. */
  predicate Owned(nodes: Nodes, user: nat, id: nat)
  {
    id in nodes && nodes[id].user == user
  }

  function Loaded(nodes: Nodes, user: nat, id: nat): Result
  {
    if Owned(nodes, user, id) then Found(nodes[id]) else MemoryNodeNotFound
  }

  /** The fields a patch carries, over the ones read before. */
  function Patched(current: Node, title: Option<string>, content: Option<string>, now: nat): Node
  {
    current.(title := if title.Some? then title.value else current.title,
             content := if content.Some? then content.value else current.content,
             updated := now)
  }

  /** `UPDATE … WHERE id = … AND user_id = …`. */
  function Updated(nodes: Nodes, user: nat, id: nat, patched: Node): Nodes
  {
    if !Owned(nodes, user, id) then nodes
    else nodes[id := nodes[id].(title := patched.title, content := patched.content, updated := patched.updated)]
  }

  // ── What is under what ──

  /** The `k`th ancestor of a node, while there is one. */
  function Up(nodes: Nodes, id: nat, k: nat): Option<nat>
  {
    if k == 0 then (if id in nodes then Some(id) else None)
    else
      match Up(nodes, id, k - 1)
      case None => None
      case Some(below) =>
        if below in nodes && nodes[below].parent.Some? && nodes[below].parent.value in nodes then nodes[below].parent else None
  }

  ghost predicate Under(nodes: Nodes, id: nat, root: nat)
  {
    exists k: nat :: Up(nodes, id, k) == Some(root)
  }

  /** What forgetting a node leaves. */
  ghost function Pruned(nodes: Nodes, root: nat): Nodes
  {
    map id | id in nodes && !Under(nodes, id, root) :: nodes[id]
  }

  /** Parents come first in `born`, and a parent that exists is the same user's. */
  predicate Founded(nodes: Nodes, born: map<nat, nat>)
  {
    forall id :: id in nodes ==> FoundedAt(nodes, born, id)
  }

  predicate FoundedAt(nodes: Nodes, born: map<nat, nat>, id: nat)
    requires id in nodes
  {
    && id in born
    && (nodes[id].parent.Some? ==>
         && nodes[id].parent.value in born && born[nodes[id].parent.value] < born[id]
         && (nodes[id].parent.value in nodes ==> nodes[nodes[id].parent.value].user == nodes[id].user))
  }

  predicate Orphan(nodes: Nodes, id: nat)
  {
    id in nodes && nodes[id].parent.Some? && nodes[id].parent.value !in nodes
  }

  /** Every parent is there: the foreign key of `parent_id`. */
  predicate Intact(nodes: Nodes)
  {
    forall id :: id in nodes ==> !Orphan(nodes, id)
  }

  /** A forest: founded, and every parent there. */
  predicate Forest(nodes: Nodes, born: map<nat, nat>)
  {
    Founded(nodes, born) && Intact(nodes)
  }

  lemma {:induction false} UpStep(nodes: Nodes, id: nat, k: nat)
    requires id in nodes
    ensures Up(nodes, id, k + 1) ==
      if nodes[id].parent.Some? && nodes[id].parent.value in nodes then Up(nodes, nodes[id].parent.value, k) else None
  {
    if k > 0 {
      UpStep(nodes, id, k - 1);
    }
  }

  lemma {:induction false} UpIsOlder(nodes: Nodes, born: map<nat, nat>, id: nat, k: nat)
    requires Founded(nodes, born) && Up(nodes, id, k).Some?
    ensures id in nodes && Up(nodes, id, k).value in nodes
    ensures nodes[Up(nodes, id, k).value].user == nodes[id].user
    ensures born[Up(nodes, id, k).value] + k <= born[id]
  {
    if k > 0 {
      UpIsOlder(nodes, born, id, k - 1);
      assert FoundedAt(nodes, born, Up(nodes, id, k - 1).value);
    } else {
      assert FoundedAt(nodes, born, id);
    }
  }

  /** Whatever is under a node is the node itself, or under it through its parent. */
  lemma UnderByParent(nodes: Nodes, id: nat, root: nat)
    requires id in nodes
    ensures Under(nodes, id, root) <==>
      id == root || (nodes[id].parent.Some? && nodes[id].parent.value in nodes && Under(nodes, nodes[id].parent.value, root))
  {
    if Under(nodes, id, root) && id != root {
      var k: nat :| Up(nodes, id, k) == Some(root);
      UpStep(nodes, id, k - 1);
      assert Up(nodes, nodes[id].parent.value, k - 1) == Some(root);
    }
    if id == root {
      assert Up(nodes, id, 0) == Some(root);
    }
    if nodes[id].parent.Some? && nodes[id].parent.value in nodes && Under(nodes, nodes[id].parent.value, root) {
      var k: nat :| Up(nodes, nodes[id].parent.value, k) == Some(root);
      UpStep(nodes, id, k);
      assert Up(nodes, id, k + 1) == Some(root);
    }
  }

  /** No node is its own ancestor, and everything under a node is its owner's. */
  lemma UnderIsOwned(nodes: Nodes, born: map<nat, nat>, id: nat, root: nat)
    requires Founded(nodes, born) && Under(nodes, id, root)
    ensures id in nodes && root in nodes && nodes[id].user == nodes[root].user
    ensures born[root] <= born[id] && (id != root ==> born[root] < born[id] && !Under(nodes, root, id))
  {
    var k: nat :| Up(nodes, id, k) == Some(root);
    UpIsOlder(nodes, born, id, k);
    if Under(nodes, root, id) {
      var j: nat :| Up(nodes, root, j) == Some(id);
      UpIsOlder(nodes, born, root, j);
    }
  }

  /** Forgetting makes no orphan: what stays keeps the parent it had. */
  lemma PruningOrphansNothing(nodes: Nodes, root: nat, id: nat)
    requires id in Pruned(nodes, root)
    ensures Orphan(Pruned(nodes, root), id) <==> Orphan(nodes, id)
  {
    UnderByParent(nodes, id, root);
  }

  lemma PruningKeepsFounded(nodes: Nodes, born: map<nat, nat>, root: nat)
    requires Founded(nodes, born)
    ensures Founded(Pruned(nodes, root), born)
    ensures Forest(nodes, born) ==> Forest(Pruned(nodes, root), born)
  {
    var after := Pruned(nodes, root);
    forall id | id in after ensures FoundedAt(after, born, id) && Orphan(after, id) == Orphan(nodes, id) {
      assert FoundedAt(nodes, born, id);
      PruningOrphansNothing(nodes, root, id);
    }
  }

  // ── The recursive statement ──

  function Children(nodes: Nodes, id: nat): set<nat>
  {
    set child | child in nodes && nodes[child].parent == Some(id)
  }

  predicate Distinct(rows: seq<nat>)
  {
    forall i, j :: 0 <= i < j < |rows| ==> rows[i] != rows[j]
  }

  /** The rows of a set, in an order of the database's choosing. */
  method Listed(ids: set<nat>) returns (rows: seq<nat>)
    ensures Distinct(rows) && forall id :: id in rows <==> id in ids
  {
    rows := [];
    var left := ids;
    while left != {}
      invariant forall id :: id in ids <==> id in rows || id in left
      invariant forall id :: id in rows ==> id !in left
      invariant Distinct(rows)
      decreases |left|
    {
      var id :| id in left;
      rows := rows + [id];
      left := left - {id};
    }
  }

  lemma {:induction false} DistinctFits(rows: seq<nat>, ids: set<nat>)
    requires Distinct(rows) && forall id :: id in rows ==> id in ids
    ensures |rows| <= |ids|
  {
    if rows != [] {
      var last := rows[|rows| - 1];
      DistinctFits(rows[..|rows| - 1], ids - {last});
    }
  }

  /** A row under the root, its parent among the rows already done. */
  ghost predicate Met(nodes: Nodes, root: nat, done: seq<nat>, id: nat)
  {
    && id in nodes && Under(nodes, id, root)
    && (id == root || (nodes[id].parent.Some? && nodes[id].parent.value in done))
  }

  predicate Expanded(nodes: Nodes, rows: seq<nat>, id: nat)
  {
    forall child :: child in Children(nodes, id) ==> child in rows
  }

  /** Where the recursion stands: `done` and `queue` hold no row twice, and every child of a
      done row. */
  ghost predicate Walking(nodes: Nodes, root: nat, done: seq<nat>, queue: seq<nat>)
  {
    && Distinct(done + queue)
    && root in done + queue
    && (forall id :: id in done + queue ==> Met(nodes, root, done, id))
    && (forall id :: id in done ==> Expanded(nodes, done + queue, id))
  }

  lemma NotDone(done: seq<nat>, queue: seq<nat>)
    requires queue != [] && Distinct(done + queue)
    ensures queue[0] !in done
    ensures Distinct(done)
  {
    forall i | 0 <= i < |done| ensures done[i] != queue[0] {
      assert (done + queue)[i] == done[i] && (done + queue)[|done|] == queue[0];
    }
    forall i, j | 0 <= i < j < |done| ensures done[i] != done[j] {
      assert (done + queue)[i] == done[i] && (done + queue)[j] == done[j];
    }
  }

  /** A child of a row not yet done has not been met. */
  lemma ChildIsNew(nodes: Nodes, born: map<nat, nat>, root: nat, done: seq<nat>, queue: seq<nat>, child: nat)
    requires Founded(nodes, born) && Walking(nodes, root, done, queue) && queue != []
    requires child in Children(nodes, queue[0])
    ensures child !in done + queue && child != root && Under(nodes, child, root)
  {
    hide Under, Children, Distinct;
    var id := queue[0];
    assert id in done + queue && Met(nodes, root, done, id);
    ChildOf(nodes, child, id);
    UnderByParent(nodes, child, root);
    assert FoundedAt(nodes, born, child);
    UnderIsOwned(nodes, born, id, root);
    NotDone(done, queue);
    assert child in done + queue ==> Met(nodes, root, done, child);
  }

  lemma ChildOf(nodes: Nodes, child: nat, id: nat)
    ensures child in Children(nodes, id) <==> child in nodes && nodes[child].parent == Some(id)
  {
  }

  lemma WalkStep(nodes: Nodes, born: map<nat, nat>, root: nat, done: seq<nat>, queue: seq<nat>, children: seq<nat>)
    requires Founded(nodes, born) && Walking(nodes, root, done, queue) && queue != []
    requires Distinct(children) && forall id :: id in children <==> id in Children(nodes, queue[0])
    ensures Walking(nodes, root, done + [queue[0]], queue[1..] + children)
  {
    hide Under, Children, Founded;
    var id := queue[0];
    var before, after := done + queue, done + [id] + (queue[1..] + children);
    assert after == before + children;
    forall child | child in children ensures child !in before && Met(nodes, root, done + [id], child) {
      ChildIsNew(nodes, born, root, done, queue, child);
      ChildOf(nodes, child, id);
    }
    forall i, j | 0 <= i < j < |after| ensures after[i] != after[j] {
      if i < |before| <= j {
        assert after[i] in before && after[j] in children;
      }
    }
    forall row | row in after ensures Met(nodes, root, done + [id], row) {
      if row in before { assert Met(nodes, root, done, row); }
    }
    forall row | row in done + [id] ensures Expanded(nodes, after, row) {
      if row in done { assert Expanded(nodes, before, row); }
    }
  }

  /** The recursion ends with each row of the subtree listed once, in any order the database
      joins children: no row is met twice, though nothing in the statement removes doubles. */
  method Subtree(nodes: Nodes, ghost born: map<nat, nat>, user: nat, root: nat) returns (rows: seq<nat>)
    requires Founded(nodes, born)
    ensures Distinct(rows)
    ensures forall id :: id in rows <==> Owned(nodes, user, root) && Under(nodes, id, root)
  {
    hide Under, Children, Walking, Founded, Distinct;
    rows := [];
    NoneDistinct();
    if root !in nodes || nodes[root].user != user { return; }
    var queue := [root];
    WalkStarts(nodes, root);
    while queue != []
      invariant Walking(nodes, root, rows, queue) && Distinct(rows)
      invariant |rows| <= |nodes|
      decreases |nodes| - |rows|
    {
      var children := Listed(Children(nodes, queue[0]));
      WalkStep(nodes, born, root, rows, queue, children);
      rows, queue := rows + [queue[0]], queue[1..] + children;
      WalkFits(nodes, root, rows, queue);
    }
    WalkEnds(nodes, root, rows);
  }

  lemma NoneDistinct()
    ensures Distinct([])
  {
  }

  lemma WalkStarts(nodes: Nodes, root: nat)
    requires root in nodes
    ensures Walking(nodes, root, [], [root])
  {
    assert Up(nodes, root, 0) == Some(root);
  }

  lemma WalkFits(nodes: Nodes, root: nat, done: seq<nat>, queue: seq<nat>)
    requires Walking(nodes, root, done, queue)
    ensures Distinct(done) && |done| <= |nodes|
  {
    hide Under;
    forall i, j | 0 <= i < j < |done| ensures done[i] != done[j] {
      assert (done + queue)[i] == done[i] && (done + queue)[j] == done[j];
    }
    forall id | id in done ensures id in nodes.Keys {
      assert Met(nodes, root, done, id);
    }
    DistinctFits(done, nodes.Keys);
  }

  lemma {:induction false} WalkReaches(nodes: Nodes, root: nat, rows: seq<nat>, id: nat, k: nat)
    requires Walking(nodes, root, rows, []) && id in nodes && Up(nodes, id, k) == Some(root)
    ensures id in rows
    decreases k
  {
    hide Under;
    assert rows + [] == rows;
    if k > 0 {
      UpStep(nodes, id, k - 1);
      var parent := nodes[id].parent.value;
      WalkReaches(nodes, root, rows, parent, k - 1);
      assert Expanded(nodes, rows + [], parent);
    }
  }

  lemma WalkEnds(nodes: Nodes, root: nat, rows: seq<nat>)
    requires Walking(nodes, root, rows, [])
    ensures forall id :: id in rows <==> Under(nodes, id, root)
  {
    assert rows + [] == rows;
    forall id | id in rows ensures Under(nodes, id, root) {
      assert Met(nodes, root, rows, id);
    }
    forall id | Under(nodes, id, root) ensures id in rows {
      var k: nat :| Up(nodes, id, k) == Some(root);
      UpStarts(nodes, id, k);
      WalkReaches(nodes, root, rows, id, k);
    }
  }

  lemma {:induction false} UpStarts(nodes: Nodes, id: nat, k: nat)
    ensures Up(nodes, id, k).Some? ==> id in nodes
  {
    if k > 0 { UpStarts(nodes, id, k - 1); }
  }
}
