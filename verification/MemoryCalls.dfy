/** What creating and updating a memory node come to among other handlers
    (crates/api/src/memory.rs). An update reads the node, fills in the fields it was not given,
    and writes them all: whatever another update wrote to those in between is undone. */
module MemoryCalls {
  import opened Prelude
  import opened MemoryTree
  import opened MemoryRuns

  function Given(field: Option<string>, otherwise: string): string
  {
    match field
    case Some(text) => text
    case None => otherwise
  }

  predicate Spares(more: seq<Step>, c: nat)
  {
    forall step :: step in more ==> step.call != c
  }

  lemma {:induction false} CallStays(steps: seq<Step>, more: seq<Step>, c: nat, enforced: bool)
    requires c in Run(steps, enforced).calls && Spares(more, c)
    ensures c in Run(steps + more, enforced).calls && Run(steps + more, enforced).calls[c] == Run(steps, enforced).calls[c]
  {
    hide Do;
    if more == [] {
      assert steps + more == steps;
    } else {
      var init := more[..|more| - 1];
      CallStays(steps, init, c, enforced);
      assert (steps + more)[..|steps + more| - 1] == steps + init;
      StepSpares(Run(steps + init, enforced), more[|more| - 1], c, enforced);
    }
  }

  lemma OneMore(steps: seq<Step>, step: Step, enforced: bool)
    ensures Run(steps + [step], enforced) == Do(Run(steps, enforced), step, enforced)
  {
    assert (steps + [step])[..|steps|] == steps;
  }

  lemma StepSpares(w: World, step: Step, c: nat, enforced: bool)
    requires c in w.calls && step.call != c
    ensures c in Do(w, step, enforced).calls && Do(w, step, enforced).calls[c] == w.calls[c]
  {
    hide Under, Orphan;
  }

  lemma BeginsUpdate(w: World, c: nat, user: nat, id: nat, title: Option<string>, content: Option<string>, now: nat, enforced: bool)
    requires c !in w.calls && Owned(w.nodes, user, id)
    ensures Do(w, Update(c, user, id, title, content, now), enforced)
         == w.(calls := w.calls[c := Writing(user, id, Patched(w.nodes[id], title, content, now))])
  {
    hide Under, Orphan;
  }

  lemma Writes(w: World, c: nat, user: nat, id: nat, patched: Node, enforced: bool)
    requires c in w.calls && w.calls[c] == Writing(user, id, patched)
    ensures Do(w, Write(c), enforced) == w.(calls := w.calls[c := Loading(user, id)], nodes := Updated(w.nodes, user, id, patched))
  {
    hide Under, Orphan;
  }

  /** What a create leaves when its insert lands: the node as it was asked for, under a parent
      that was the user's when the call looked, unless that was forgotten since and the foreign key
      is enforced. */
  lemma CreateComesTo(steps: seq<Step>, more: seq<Step>, enforced: bool, c: nat, node: Node, id: nat)
    requires c !in Run(steps, enforced).calls && Spares(more, c)
    requires id !in Run(steps + [Create(c, node)] + more, enforced).born
    ensures var w := Run(steps + [Create(c, node)] + more, enforced);
      var after := Do(w, Insert(c, id), enforced);
      c in after.calls &&
      if node.parent.Some? && !Owned(Run(steps, enforced).nodes, node.user, node.parent.value) then
        after == w && after.calls[c] == Over(MemoryNodeNotFound)
      else if enforced && node.parent.Some? && node.parent.value !in w.nodes then
        after.nodes == w.nodes && after.calls[c] == Over(Refused)
      else after.nodes == w.nodes[id := node] && after.calls[c] == Loading(node.user, id)
  {
    hide Do, Run;
    var create := Create(c, node);
    OneMore(steps, create, enforced);
    BeginsCreate(Run(steps, enforced), c, node, enforced);
    CallStays(steps + [create], more, c, enforced);
    var asked := steps + [create] + more;
    if enforced { OnlyLateInsertsAreRefused(asked, Insert(c, id)); }
    Inserts(Run(asked, enforced), c, id);
  }

  lemma BeginsCreate(w: World, c: nat, node: Node, enforced: bool)
    requires c !in w.calls
    ensures Do(w, Create(c, node), enforced) == w.(calls := w.calls[c :=
      if node.parent.Some? && !Owned(w.nodes, node.user, node.parent.value) then Over(MemoryNodeNotFound) else Inserting(node.user, node)])
  {
    hide Under, Orphan;
  }

  lemma Inserts(w: World, c: nat, id: nat)
    requires c in w.calls && id !in w.born
    ensures w.calls[c].Inserting? ==>
      var node, after := w.calls[c].node, Do(w, Insert(c, id), false);
      after.nodes == w.nodes[id := node] && after.calls == w.calls[c := Loading(node.user, id)]
    ensures w.calls[c].Over? ==> Do(w, Insert(c, id), true) == Do(w, Insert(c, id), false) == w
  {
    hide Under, Orphan;
  }

  /** What an update leaves when its write lands: the fields it was given as given, the others as
      it had read them, whoever wrote to them since, and the rest of every node as it was. So it
      spares a field it was not given exactly if that reads as it did before. */
  lemma UpdateComesTo(steps: seq<Step>, more: seq<Step>, enforced: bool, c: nat, user: nat, id: nat,
    title: Option<string>, content: Option<string>, now: nat)
    requires c !in Run(steps, enforced).calls && Owned(Run(steps, enforced).nodes, user, id) && Spares(more, c)
    ensures var read := Run(steps, enforced).nodes[id];
      var w := Run(steps + [Update(c, user, id, title, content, now)] + more, enforced);
      var after := Do(w, Write(c), enforced);
      if !Owned(w.nodes, user, id) then after.nodes == w.nodes
      else
        var node := w.nodes[id];
        && after.nodes == w.nodes[id := Node(node.user, node.parent, node.repo, Given(title, read.title), Given(content, read.content), now)]
        && (title.None? ==> (after.nodes[id].title == node.title <==> node.title == read.title))
        && (content.None? ==> (after.nodes[id].content == node.content <==> node.content == read.content))
  {
    hide Do, Run;
    var update := Update(c, user, id, title, content, now);
    OneMore(steps, update, enforced);
    BeginsUpdate(Run(steps, enforced), c, user, id, title, content, now, enforced);
    CallStays(steps + [update], more, c, enforced);
    Writes(Run(steps + [update] + more, enforced), c, user, id, Patched(Run(steps, enforced).nodes[id], title, content, now), enforced);
  }

  /** Both answer with the node as it then stands, if it is still there. */
  lemma LoadComesTo(w: World, c: nat, user: nat, id: nat, enforced: bool)
    requires c in w.calls && w.calls[c] == Loading(user, id)
    ensures Do(w, Load(c), enforced) == w.(calls := w.calls[c :=
      Over(if id in w.nodes && w.nodes[id].user == user then Found(w.nodes[id]) else MemoryNodeNotFound)])
  {
    hide Under, Orphan;
  }

  /** Two updates of one node that both read before either writes, one given a title and the
      other a content: the title is lost, though both answer that they were made. */
  lemma RacingUpdatesLoseOne(steps: seq<Step>, enforced: bool, c: nat, d: nat, user: nat, id: nat, title: string, content: string, now: nat)
    requires c != d && c !in Run(steps, enforced).calls && d !in Run(steps, enforced).calls
    requires Owned(Run(steps, enforced).nodes, user, id)
    ensures var read := Run(steps, enforced).nodes[id];
      var after := Run(steps + [Update(c, user, id, Some(title), None, now)] + [Update(d, user, id, None, Some(content), now)]
                        + [Write(c)] + [Write(d)], enforced);
      && id in after.nodes && after.nodes[id] == read.(title := read.title, content := content, updated := now)
      && c in after.calls && d in after.calls && after.calls[c] == after.calls[d] == Loading(user, id)
  {
    var one, two := Update(c, user, id, Some(title), None, now), Update(d, user, id, None, Some(content), now);
    OneMore(steps, one, enforced);
    OneMore(steps + [one], two, enforced);
    OneMore(steps + [one] + [two], Write(c), enforced);
    OneMore(steps + [one] + [two] + [Write(c)], Write(d), enforced);
    hide Do, Run;
    var w := Run(steps, enforced);
    var first, second := Patched(w.nodes[id], Some(title), None, now), Patched(w.nodes[id], None, Some(content), now);
    BeginsUpdate(w, c, user, id, Some(title), None, now, enforced);
    BeginsUpdate(Run(steps + [one], enforced), d, user, id, None, Some(content), now, enforced);
    Writes(Run(steps + [one] + [two], enforced), c, user, id, first, enforced);
    Writes(Run(steps + [one] + [two] + [Write(c)], enforced), d, user, id, second, enforced);
  }
}
