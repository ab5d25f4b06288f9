/**
 Roots that are lists. Looking up a key in a list turns the list into a map whose keys are the positions,
 so a configuration that is a list becomes a map when the first entry is merged into it.
 */
module YamlRoots {
  import opened Numerals
  import opened YamlMerge
  import opened YamlTrees

  ghost function IndexKids(items: seq<Tree>): (r: seq<Kid>)
    ensures |r| == |items| && forall i :: 0 <= i < |items| ==> r[i] == Kid(Digits(i), items[i])
  {
    seq(|items|, i requires 0 <= i < |items| => Kid(Digits(i), items[i]))
  }

  /** The tree as a merge finds it. */
  ghost function RootTree(t: Tree): Tree {
    if t.TSeq? then TMap(t.node, IndexKids(t.items)) else t
  }

  /** The nodes a merge into the tree may write to. */
  ghost function Own(t: Tree): set<Node> {
    Mut(RootTree(t))
  }

  lemma RootNodes(t: Tree)
    ensures All(RootTree(t)) == All(t) && t.node in All(t)
  {
    if t.TSeq? {
      IndexNodes(t.items);
      hide AllKids, AllItems, IndexKids;
    }
  }

  lemma IndexNodes(items: seq<Tree>)
    ensures AllKids(IndexKids(items)) == AllItems(items)
  {
    var kids := IndexKids(items);
    hide All, IndexKids;
    forall n ensures n in AllKids(kids) <==> n in AllItems(items) {
      if n in AllKids(kids) {
        var i :| 0 <= i < |kids| && n in All(kids[i].tree);
        assert All(items[i]) <= AllItems(items);
      }
      if n in AllItems(items) {
        var i :| 0 <= i < |items| && n in All(items[i]);
        assert All(kids[i].tree) <= AllKids(kids);
      }
    }
  }

  lemma OwnInAll(t: Tree)
    ensures Own(t) <= All(t)
  {
    RootNodes(t);
    MutInAll(RootTree(t));
  }

  lemma RootVal(t: Tree)
    ensures Val(RootTree(t)) == Rooted(Val(t))
  {
    if t.TSeq? {
      assert ValKids(IndexKids(t.items)) == Positions(ValItems(t.items));
    }
  }

  lemma RootHolds(t: Tree, m: map<Node, Shape>)
    requires t.TSeq? && Holds(t, m) && Distinct(RootTree(t))
    ensures Holds(RootTree(t), m[t.node := ShapeOf(RootTree(t))])
  {
    var m', kids := m[t.node := ShapeOf(RootTree(t))], IndexKids(t.items);
    forall i | 0 <= i < |kids| ensures Holds(kids[i].tree, m') {
      assert All(kids[i].tree) <= AllKids(kids);
      HoldsFrame(kids[i].tree, m, m');
    }
  }

  lemma ListShape(t: Tree)
    requires t.TSeq? && Realizes(t)
    ensures t.node.shape == SSeq(NodesOf(t.items))
  {
  }

  /** A list becomes a map by position, in place. */
  method IndexByPosition(node: Node, ghost t: Tree)
    requires t.TSeq? && t.node == node && Realizes(t) && Distinct(RootTree(t))
    modifies node
    ensures Realizes(RootTree(t))
  {
    hide *;
    ListShape(t);
    ghost var m: map<Node, Shape> := map n | n in All(t) :: n.shape;
    RealizesIsHolds(t, m);
    RootHolds(t, m);
    RootNodes(t);
    var items := node.shape.items;
    var slots := seq(|items|, i requires 0 <= i < |items| => Slot(Digits(i), items[i]));
    IndexShape(t, slots);
    node.shape := SMap(slots);
    RealizesIsHolds(RootTree(t), m[node := SMap(slots)]);
  }

  lemma IndexShape(t: Tree, slots: seq<Slot>)
    requires t.TSeq? && |slots| == |t.items|
    requires forall i :: 0 <= i < |slots| ==> slots[i] == Slot(Digits(i), t.items[i].node)
    ensures ShapeOf(RootTree(t)) == SMap(slots)
  {
    assert slots == SlotsOf(IndexKids(t.items));
  }
}
