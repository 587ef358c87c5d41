/** The memory handlers over a mutable table, each run to its end before the next
    (crates/api/src/memory.rs). */
module MemoryStore {
  import opened Prelude
  import opened MemoryTree

  class Memory {
    var nodes: Nodes
    ghost var born: map<nat, nat>

    ghost predicate Valid()
      reads this
    {
      Forest(nodes, born) && forall id :: id in born ==> born[id] < |born|
    }

    constructor ()
      ensures Valid() && nodes == map[] && born == map[]
    {
      nodes, born := map[], map[];
    }

    method Load(user: nat, id: nat) returns (result: Result)
      ensures result == Loaded(nodes, user, id)
    {
      if id !in nodes || nodes[id].user != user { return MemoryNodeNotFound; }
      result := Found(nodes[id]);
    }

    /** `create`, under a fresh identifier: refused exactly when it names a parent the user
        does not own. */
    method Create(id: nat, node: Node) returns (result: Result)
      requires Valid() && id !in born
      modifies this
      ensures Valid()
      ensures result == if node.parent.Some? && !Owned(old(nodes), node.user, node.parent.value) then MemoryNodeNotFound else Found(node)
      ensures nodes == if result.Found? then old(nodes)[id := node] else old(nodes)
    {
      if node.parent.Some? {
        var parent := Load(node.user, node.parent.value);
        if parent.MemoryNodeNotFound? { return MemoryNodeNotFound; }
        assert FoundedAt(nodes, born, node.parent.value);
      }
      assert id !in nodes by { assert id in nodes ==> FoundedAt(nodes, born, id); }
      InsertKeepsForest(nodes, born, id, node, |born|);
      nodes := nodes[id := node];
      born := born[id := |born|];
      result := Load(node.user, id);
    }

    /** `update`: restamps the node even when the patch names nothing. */
    method Update(user: nat, id: nat, title: Option<string>, content: Option<string>, now: nat) returns (result: Result)
      requires Valid()
      modifies this
      ensures Valid() && born == old(born)
      ensures !Owned(old(nodes), user, id) ==> result == MemoryNodeNotFound && nodes == old(nodes)
      ensures Owned(old(nodes), user, id) ==>
        var was := old(nodes)[id];
        && nodes == old(nodes)[id := Node(was.user, was.parent, was.repo,
             match title { case Some(text) => text case None => was.title },
             match content { case Some(text) => text case None => was.content }, now)]
        && result == Found(nodes[id])
    {
      var current := Load(user, id);
      if current.MemoryNodeNotFound? { return MemoryNodeNotFound; }
      var patched := Patched(current.node, title, content, now);
      forall other | other in nodes ensures FoundedAt(nodes[id := patched], born, other) && !Orphan(nodes[id := patched], other) {
        assert FoundedAt(nodes, born, other) && !Orphan(nodes, other);
      }
      nodes := nodes[id := nodes[id].(title := patched.title, content := patched.content, updated := patched.updated)];
      result := Load(user, id);
    }

    /** `forget`: removes the node and everything under it, all of it the user's, and
        nothing else; what stays is still a forest. */
    method Forget(user: nat, id: nat) returns (result: Result)
      requires Valid()
      modifies this
      ensures Valid() && born == old(born)
      ensures result == if Owned(old(nodes), user, id) then Forgotten else MemoryNodeNotFound
      ensures nodes == if result.Forgotten? then Pruned(old(nodes), id) else old(nodes)
      ensures forall gone :: gone in old(nodes) && gone !in nodes ==> old(nodes)[gone].user == user
    {
      var found := Load(user, id);
      if found.MemoryNodeNotFound? { return MemoryNodeNotFound; }
      var rows := Subtree(nodes, born, user, id);
      PruningKeepsFounded(nodes, born, id);
      forall row | row in rows ensures row in nodes && nodes[row].user == user {
        UnderIsOwned(nodes, born, row, id);
      }
      hide Under;
      nodes := map row | row in nodes && row !in rows :: nodes[row];
      assert nodes == Pruned(old(nodes), id);
      result := Forgotten;
    }
  }

  lemma InsertKeepsForest(nodes: Nodes, born: map<nat, nat>, id: nat, node: Node, n: nat)
    requires Forest(nodes, born) && id !in born && id !in nodes
    requires forall other :: other in born ==> born[other] < n
    requires node.parent.Some? ==> Owned(nodes, node.user, node.parent.value) && node.parent.value in born
    ensures Forest(nodes[id := node], born[id := n])
  {
    var nodes', born' := nodes[id := node], born[id := n];
    forall other | other in nodes' ensures FoundedAt(nodes', born', other) && !Orphan(nodes', other) {
      if other != id { assert FoundedAt(nodes, born, other) && !Orphan(nodes, other); }
    }
  }
}
