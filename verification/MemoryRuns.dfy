/** The memory handlers among each other (crates/api/src/memory.rs): D1 has no transactions,
    so every statement is one step and requests interleave between them.

    `parent_id` references another node (migrations/0004_registry.sql:80). The migrations say D1
    enforces such keys (0020, 0027, 0028); the comment above `create` says it does not. So a run
    is given which: `enforced` refuses a statement that would leave a node without its parent. */
module MemoryRuns {
  import opened Prelude
  import opened MemoryTree

  datatype Call =
    | Inserting(user: nat, node: Node)
    | Writing(user: nat, id: nat, patched: Node)
    | Deleting(user: nat, id: nat)
    | Loading(user: nat, id: nat)
    | Over(result: Result)

  /** `born` numbers the identifiers generated, in order; `late` remembers the nodes whose
      parent was already gone when they were inserted. */
  datatype World = World(nodes: Nodes, calls: map<nat, Call>, born: map<nat, nat>, late: set<nat>)

  datatype Step =
    | Create(call: nat, node: Node)
    | Insert(call: nat, id: nat)
    | Update(call: nat, user: nat, id: nat, title: Option<string>, content: Option<string>, now: nat)
    | Write(call: nat)
    | Forget(call: nat, user: nat, id: nat)
    | Delete(call: nat)
    | Load(call: nat)

  function Next(w: World, call: nat, to: Call): World
  {
    w.(calls := w.calls[call := to])
  }

  function At(w: World, call: nat): Option<Call>
  {
    if call in w.calls then Some(w.calls[call]) else None
  }

  ghost function Do(w: World, step: Step, enforced: bool): World
  {
    match (step, At(w, step.call))
    case (Create(c, node), None) =>
      Next(w, c, if node.parent.Some? && !Owned(w.nodes, node.user, node.parent.value) then Over(MemoryNodeNotFound)
        else Inserting(node.user, node))
    case (Insert(c, id), Some(Inserting(_, node))) =>
      if id in w.born then w
      else if enforced && !Intact(w.nodes[id := node]) then Next(w, c, Over(Refused))
      else Next(w, c, Loading(node.user, id)).(
        nodes := w.nodes[id := node],
        born := w.born[id := |w.born|],
        late := w.late + if node.parent.Some? && node.parent.value !in w.nodes then {id} else {})
    case (Update(c, user, id, title, content, now), None) =>
      Next(w, c, if Owned(w.nodes, user, id) then Writing(user, id, Patched(w.nodes[id], title, content, now))
        else Over(MemoryNodeNotFound))
    case (Write(c), Some(Writing(user, id, patched))) =>
      Next(w, c, Loading(user, id)).(nodes := Updated(w.nodes, user, id, patched))
    case (Forget(c, user, id), None) =>
      Next(w, c, if Owned(w.nodes, user, id) then Deleting(user, id) else Over(MemoryNodeNotFound))
    case (Delete(c), Some(Deleting(user, id))) =>
      var after := if Owned(w.nodes, user, id) then Pruned(w.nodes, id) else w.nodes;
      if enforced && !Intact(after) then Next(w, c, Over(Refused)) else Next(w, c, Over(Forgotten)).(nodes := after)
    case (Load(c), Some(Loading(user, id))) => Next(w, c, Over(Loaded(w.nodes, user, id)))
    case _ => w
  }

  ghost function Run(steps: seq<Step>, enforced: bool): World
  {
    if steps == [] then World(map[], map[], map[], {}) else Do(Run(steps[..|steps| - 1], enforced), steps[|steps| - 1], enforced)
  }

  // ── The invariant ──

  predicate NumberedBelow(born: map<nat, nat>)
  {
    forall id :: id in born ==> born[id] < |born|
  }

  /** A parent that was checked was the user's, and no other node ever takes its identifier. */
  predicate CheckedParent(w: World, user: nat, parent: nat)
  {
    parent in w.born && (parent in w.nodes ==> w.nodes[parent].user == user)
  }

  predicate CallInv(w: World, c: nat)
    requires c in w.calls
  {
    w.calls[c].Inserting? && w.calls[c].node.parent.Some? ==>
      CheckedParent(w, w.calls[c].node.user, w.calls[c].node.parent.value)
  }

  predicate NodeInv(w: World, id: nat)
    requires id in w.nodes
  {
    FoundedAt(w.nodes, w.born, id) && (Orphan(w.nodes, id) <==> id in w.late)
  }

  ghost predicate Inv(w: World, enforced: bool)
  {
    && (enforced ==> w.late == {})
    && NumberedBelow(w.born)
    && (forall c :: c in w.calls ==> CallInv(w, c))
    && (forall id :: id in w.nodes ==> NodeInv(w, id))
    && (forall id :: id in w.late ==> id in w.born)
  }

  lemma InsertKeeps(w: World, c: nat, id: nat, enforced: bool)
    requires Inv(w, enforced)
    ensures Inv(Do(w, Insert(c, id), enforced), enforced)
  {
    var after := Do(w, Insert(c, id), enforced);
    if after != w {
      assert CallInv(w, c);
      assert id !in w.nodes by { assert id in w.nodes ==> NodeInv(w, id); }
      if enforced && after.late != {} {
        assert Orphan(w.nodes[id := w.calls[c].node], id);
      }
      forall other | other in after.nodes ensures NodeInv(after, other) {
        if other != id {
          assert NodeInv(w, other);
          assert w.nodes[other].parent != Some(id);
        }
      }
      forall d | d in after.calls ensures CallInv(after, d) {
        if d != c { assert CallInv(w, d); }
      }
    }
  }

  lemma DeleteKeeps(w: World, c: nat, enforced: bool)
    requires Inv(w, enforced)
    ensures Inv(Do(w, Delete(c), enforced), enforced)
  {
    hide Under;
    var after := Do(w, Delete(c), enforced);
    if after != w {
      var root := w.calls[c].id;
      forall id | id in after.nodes ensures NodeInv(after, id) {
        assert NodeInv(w, id);
        if after.nodes != w.nodes { PruningOrphansNothing(w.nodes, root, id); }
      }
      forall d | d in after.calls ensures CallInv(after, d) {
        if d != c { assert CallInv(w, d); }
      }
    }
  }

  lemma WriteKeeps(w: World, c: nat, enforced: bool)
    requires Inv(w, enforced)
    ensures Inv(Do(w, Write(c), enforced), enforced)
  {
    var after := Do(w, Write(c), enforced);
    forall id | id in after.nodes ensures NodeInv(after, id) {
      assert NodeInv(w, id);
    }
    forall d | d in after.calls ensures CallInv(after, d) {
      assert CallInv(w, d);
    }
  }

  lemma AskKeeps(w: World, step: Step, enforced: bool)
    requires Inv(w, enforced) && (step.Create? || step.Update? || step.Forget? || step.Load?)
    ensures Inv(Do(w, step, enforced), enforced)
  {
    var after := Do(w, step, enforced);
    forall id | id in after.nodes ensures NodeInv(after, id) {
      assert NodeInv(w, id);
    }
    forall d | d in after.calls ensures CallInv(after, d) {
      if d in w.calls {
        assert CallInv(w, d);
        assert after.calls[d] == w.calls[d] || after.calls[d].Over?;
      } else if step.Create? && step.node.parent.Some? && step.node.parent.value in w.nodes {
        assert NodeInv(w, step.node.parent.value);
      }
    }
  }

  lemma {:induction false} RunKeeps(steps: seq<Step>, enforced: bool)
    ensures Inv(Run(steps, enforced), enforced)
  {
    hide Do, Inv;
    if steps == [] {
      Empty(enforced);
    } else {
      var w, step := Run(steps[..|steps| - 1], enforced), steps[|steps| - 1];
      RunKeeps(steps[..|steps| - 1], enforced);
      match step
      case Insert(c, id) => InsertKeeps(w, c, id, enforced);
      case Delete(c) => DeleteKeeps(w, c, enforced);
      case Write(c) => WriteKeeps(w, c, enforced);
      case _ => AskKeeps(w, step, enforced);
    }
  }

  lemma Empty(enforced: bool)
    ensures Inv(World(map[], map[], map[], {}), enforced)
  {
  }

  // ── What every run keeps ──

  /** However handlers interleave, parents come before their children, so no node is above
      itself; a node's parent, if it is there, is the same user's; and everything under a
      node is its owner's. */
  lemma TreesStayFounded(steps: seq<Step>, enforced: bool, id: nat, root: nat)
    ensures var w := Run(steps, enforced);
      && Founded(w.nodes, w.born)
      && (Under(w.nodes, id, root) ==>
           && id in w.nodes && root in w.nodes && w.nodes[id].user == w.nodes[root].user
           && (id != root ==> !Under(w.nodes, root, id)))
  {
    hide Run, Under;
    RunKeeps(steps, enforced);
    FoundedFrom(Run(steps, enforced), enforced);
    if Under(Run(steps, enforced).nodes, id, root) {
      UnderIsOwned(Run(steps, enforced).nodes, Run(steps, enforced).born, id, root);
    }
  }

  /** With the foreign key, however handlers interleave, the nodes are a forest: every parent
      is there, is the same user's, and came first. */
  lemma TreesStayAForest(steps: seq<Step>)
    ensures Forest(Run(steps, true).nodes, Run(steps, true).born)
  {
    hide Run, Orphan;
    RunKeeps(steps, true);
    var w := Run(steps, true);
    FoundedFrom(w, true);
    forall id | id in w.nodes ensures !Orphan(w.nodes, id) {
      assert NodeInv(w, id);
    }
  }

  /** The foreign key refuses exactly a create whose parent was forgotten since it checked: it
      inserts nothing, and every other statement is as without the key. */
  lemma OnlyLateInsertsAreRefused(steps: seq<Step>, step: Step)
    ensures var w := Run(steps, true);
      var after := Do(w, step, true);
      if step.Insert? && step.call in w.calls && w.calls[step.call].Inserting? && step.id !in w.born
         && w.calls[step.call].node.parent.Some? && w.calls[step.call].node.parent.value !in w.nodes
      then after == Next(w, step.call, Over(Refused))
      else after == Do(w, step, false)
  {
    hide Run, Under, Orphan;
    RunKeeps(steps, true);
    var w := Run(steps, true);
    TreesStayAForest(steps);
    if step.Insert? && step.call in w.calls && w.calls[step.call].Inserting? && step.id !in w.born {
      InsertIntact(w, step.id, w.calls[step.call].node);
    }
    if step.Delete? && step.call in w.calls && w.calls[step.call].Deleting? {
      PrunedIntact(w.nodes, w.born, w.calls[step.call].id);
    }
  }

  lemma InsertIntact(w: World, id: nat, node: Node)
    requires Inv(w, true) && Intact(w.nodes) && id !in w.born
    requires node.parent.Some? ==> node.parent.value in w.born
    ensures Intact(w.nodes[id := node]) <==> node.parent.None? || node.parent.value in w.nodes
  {
    var after := w.nodes[id := node];
    assert Orphan(after, id) <==> node.parent.Some? && node.parent.value !in after;
    forall other | other in w.nodes && other != id ensures !Orphan(after, other) {
      assert !Orphan(w.nodes, other);
    }
  }

  lemma PrunedIntact(nodes: Nodes, born: map<nat, nat>, root: nat)
    requires Forest(nodes, born)
    ensures Intact(Pruned(nodes, root))
  {
    PruningKeepsFounded(nodes, born, root);
  }

  /** Whatever the other handlers did since it looked, and whether or not the key is enforced, a
      forget is not refused: it removes exactly the node, if it is still there, with everything
      under it: all its own user's, orphaning nothing. */
  lemma ForgetTakesTheSubtree(steps: seq<Step>, enforced: bool, c: nat, id: nat)
    requires c in Run(steps, enforced).calls && Run(steps, enforced).calls[c].Deleting?
    ensures var w, after := Run(steps, enforced), Do(Run(steps, enforced), Delete(c), enforced);
      var root, user := w.calls[c].id, w.calls[c].user;
      && after.calls[c] == Over(Forgotten)
      && (id in after.nodes <==> id in w.nodes && !(Owned(w.nodes, user, root) && Under(w.nodes, id, root)))
      && (id in after.nodes ==> after.nodes[id] == w.nodes[id] && (Orphan(after.nodes, id) <==> Orphan(w.nodes, id)))
      && (id in w.nodes && id !in after.nodes ==> w.nodes[id].user == user)
  {
    hide Run, Under;
    RunKeeps(steps, enforced);
    var w := Run(steps, enforced);
    var root := w.calls[c].id;
    FoundedFrom(w, enforced);
    if enforced {
      TreesStayAForest(steps);
      PrunedIntact(w.nodes, w.born, root);
    }
    hide Intact;
    if Owned(w.nodes, w.calls[c].user, root) && id in w.nodes {
      if Under(w.nodes, id, root) {
        UnderIsOwned(w.nodes, w.born, id, root);
      } else {
        PruningOrphansNothing(w.nodes, root, id);
      }
    }
  }

  lemma FoundedFrom(w: World, enforced: bool)
    requires Inv(w, enforced)
    ensures Founded(w.nodes, w.born)
  {
    forall id | id in w.nodes ensures FoundedAt(w.nodes, w.born, id) {
      assert NodeInv(w, id);
    }
  }

  // ── Without the foreign key ──

  /** Were the key not enforced, a node's parent would be missing exactly when it was already
      gone as the node was inserted: forgetting orphans nothing. So the tree would be a forest
      exactly when no insert came after its parent was forgotten. */
  lemma OrphansAreTheLate(steps: seq<Step>, id: nat)
    ensures var w := Run(steps, false);
      && (id in w.nodes ==> (Orphan(w.nodes, id) <==> id in w.late))
      && (Forest(w.nodes, w.born) <==> forall late :: late in w.late ==> late !in w.nodes)
  {
    hide Run, Orphan;
    RunKeeps(steps, false);
    var w := Run(steps, false);
    FoundedFrom(w, false);
    forall other | other in w.nodes ensures Orphan(w.nodes, other) <==> other in w.late {
      assert NodeInv(w, other);
    }
  }

  lemma Then(steps: seq<Step>, step: Step) returns (more: seq<Step>)
    ensures more == steps + [step] && Run(more, false) == Do(Run(steps, false), step, false)
  {
    more := steps + [step];
    assert more[..|steps|] == steps;
  }

  const ROOT: Node := Node(7, None, None, "", "", 0)
  const CHILD: Node := Node(7, Some(0), None, "", "", 0)

  lemma ParentThenChild() returns (steps: seq<Step>)
    ensures Run(steps, false) == World(map[0 := ROOT], map[1 := Loading(7, 0), 2 := Inserting(7, CHILD)], map[0 := 0], {})
  {
    hide Run, Pruned;
    assert Run([], false) == World(map[], map[], map[], {}) by { NoSteps(); }
    steps := Then([], Create(1, ROOT));
    steps := Then(steps, Insert(1, 0));
    steps := Then(steps, Create(2, CHILD));
  }

  lemma NoSteps()
    ensures Run([], false) == World(map[], map[], map[], {})
  {
  }

  lemma OnlyTheRoot()
    ensures Pruned(map[0 := ROOT], 0) == map[]
  {
    assert Up(map[0 := ROOT], 0, 0) == Some(0);
  }

  /** It would happen: a create that checked its parent inserts under one just forgotten. */
  lemma RacingForgetOrphans() returns (steps: seq<Step>)
    ensures Orphan(Run(steps, false).nodes, 1)
  {
    hide Run, Pruned;
    steps := ParentThenChild();
    OnlyTheRoot();
    steps := Then(steps, Forget(3, 7, 0));
    steps := Then(steps, Delete(3));
    steps := Then(steps, Insert(2, 1));
  }
}
