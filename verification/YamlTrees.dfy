/**
 YAML nodes on the heap. A node is shared, not copied, when it is assigned into another node, so a
 merged configuration holds nodes of the files merged into it. A `Tree` records which nodes make up a
 configuration and what each holds; it exists only for the proof.
 */
module YamlTrees {
  import opened YamlMerge

  datatype Slot = Slot(key: string, node: Node)

  datatype Shape = SNull | SScalar(text: string) | SSeq(items: seq<Node>) | SMap(slots: seq<Slot>)

  class Node {
    var shape: Shape

    constructor (shape: Shape)
      ensures this.shape == shape
    {
      this.shape := shape;
    }
  }

  datatype Tree =
    | TNull(node: Node)
    | TScalar(node: Node, text: string)
    | TSeq(node: Node, items: seq<Tree>)
    | TMap(node: Node, kids: seq<Kid>)

  datatype Kid = Kid(key: string, tree: Tree)

  // ----- what a tree stands for -----

  ghost function Val(t: Tree): Yaml
    decreases t, 1
  {
    match t
    case TNull(_) => Null
    case TScalar(_, text) => Scalar(text)
    case TSeq(_, items) => Seq(ValItems(items))
    case TMap(_, kids) => Map(ValKids(kids))
  }

  ghost function ValItems(items: seq<Tree>): (r: seq<Yaml>)
    ensures |r| == |items|
    ensures forall i :: 0 <= i < |items| ==> r[i] == Val(items[i])
    decreases items, 0
  {
    seq(|items|, i requires 0 <= i < |items| => Val(items[i]))
  }

  ghost function ValKids(kids: seq<Kid>): (r: seq<Pair>)
    ensures |r| == |kids|
    ensures forall i :: 0 <= i < |kids| ==> r[i] == Pair(kids[i].key, Val(kids[i].tree))
    decreases kids, 0
  {
    seq(|kids|, i requires 0 <= i < |kids| => Pair(kids[i].key, Val(kids[i].tree)))
  }

  ghost function ShapeOf(t: Tree): Shape {
    match t
    case TNull(_) => SNull
    case TScalar(_, text) => SScalar(text)
    case TSeq(_, items) => SSeq(NodesOf(items))
    case TMap(_, kids) => SMap(SlotsOf(kids))
  }

  ghost function NodesOf(items: seq<Tree>): (r: seq<Node>)
    ensures |r| == |items|
    ensures forall i :: 0 <= i < |items| ==> r[i] == items[i].node
  {
    seq(|items|, i requires 0 <= i < |items| => items[i].node)
  }

  ghost function SlotsOf(kids: seq<Kid>): (r: seq<Slot>)
    ensures |r| == |kids|
    ensures forall i :: 0 <= i < |kids| ==> r[i] == Slot(kids[i].key, kids[i].tree.node)
  {
    seq(|kids|, i requires 0 <= i < |kids| => Slot(kids[i].key, kids[i].tree.node))
  }

  // ----- which nodes it is made of -----

  /** Every node of the tree. */
  ghost function All(t: Tree): set<Node>
    decreases t, 1
  {
    match t
    case TSeq(node, items) => {node} + AllItems(items)
    case TMap(node, kids) => {node} + AllKids(kids)
    case _ => {t.node}
  }

  ghost function AllItems(items: seq<Tree>): (r: set<Node>)
    ensures forall i :: 0 <= i < |items| ==> All(items[i]) <= r
    ensures forall n :: n in r ==> exists i :: 0 <= i < |items| && n in All(items[i])
    decreases items, 0
  {
    set i, n | 0 <= i < |items| && n in All(items[i]) :: n
  }

  ghost function AllKids(kids: seq<Kid>): (r: set<Node>)
    ensures forall i :: 0 <= i < |kids| ==> All(kids[i].tree) <= r
    ensures forall n :: n in r ==> exists i :: 0 <= i < |kids| && n in All(kids[i].tree)
    decreases kids, 0
  {
    set i, n | 0 <= i < |kids| && n in All(kids[i].tree) :: n
  }

  /** The nodes on paths of maps: the only ones a merge assigns to. */
  ghost function Mut(t: Tree): set<Node>
    decreases t, 1
  {
    if t.TMap? then {t.node} + MutKids(t.kids) else {t.node}
  }

  ghost function MutKids(kids: seq<Kid>): (r: set<Node>)
    ensures forall i :: 0 <= i < |kids| ==> Mut(kids[i].tree) <= r
    ensures forall n :: n in r ==> exists i :: 0 <= i < |kids| && n in Mut(kids[i].tree)
    decreases kids, 0
  {
    set i, n | 0 <= i < |kids| && n in Mut(kids[i].tree) :: n
  }

  /** Every node holds what the tree says. */
  ghost predicate Realizes(t: Tree)
    reads All(t)
    decreases t
  {
    && t.node.shape == ShapeOf(t)
    && (t.TSeq? ==> forall i :: 0 <= i < |t.items| ==> Realizes(t.items[i]))
    && (t.TMap? ==> forall i :: 0 <= i < |t.kids| ==> Realizes(t.kids[i].tree))
  }

  /** A node that a merge may assign to occurs once in the tree. */
  ghost predicate Distinct(t: Tree)
    decreases t, 1
  {
    t.TMap? ==> t.node !in AllKids(t.kids) && DistinctKids(t.kids)
  }

  ghost predicate DistinctKids(kids: seq<Kid>)
    decreases kids, 0
  {
    && (forall i :: 0 <= i < |kids| ==> Distinct(kids[i].tree))
    && (forall i, j :: 0 <= i < |kids| && 0 <= j < |kids| && i != j ==> Mut(kids[i].tree) !! All(kids[j].tree))
  }

  // ----- a tree with merges still to be done -----

  /** What the tree will stand for once every node in `pend` has become what `pend` says. */
  ghost function Abs(t: Tree, pend: map<Node, Yaml>): Yaml
    decreases t, 1
  {
    if t.TMap? then
      if t.node in pend then pend[t.node] else Map(AbsKids(t.kids, pend))
    else Val(t)
  }

  ghost function AbsKids(kids: seq<Kid>, pend: map<Node, Yaml>): (r: seq<Pair>)
    ensures |r| == |kids|
    ensures forall i :: 0 <= i < |kids| ==> r[i] == Pair(kids[i].key, Abs(kids[i].tree, pend))
    decreases kids, 0
  {
    seq(|kids|, i requires 0 <= i < |kids| => Pair(kids[i].key, Abs(kids[i].tree, pend)))
  }

  ghost predicate Agree(p: map<Node, Yaml>, p': map<Node, Yaml>, nodes: set<Node>) {
    forall n :: n in nodes ==> (n in p <==> n in p') && (n in p ==> p[n] == p'[n])
  }

  lemma AgreeOn(p: map<Node, Yaml>, p': map<Node, Yaml>, nodes: set<Node>, some: set<Node>)
    requires Agree(p, p', nodes) && some <= nodes
    ensures Agree(p, p', some)
  {
  }

  lemma MutInAll(t: Tree)
    ensures Mut(t) <= All(t)
    decreases t
  {
    if t.TMap? {
      forall n | n in Mut(t) ensures n in All(t) {
        if n != t.node {
          assert n in MutKids(t.kids);
          var i :| 0 <= i < |t.kids| && n in Mut(t.kids[i].tree);
          MutInAll(t.kids[i].tree);
        }
      }
    }
  }

  lemma {:induction false} AbsCong(t: Tree, p: map<Node, Yaml>, p': map<Node, Yaml>)
    requires Agree(p, p', Mut(t))
    ensures Abs(t, p) == Abs(t, p')
    decreases t, 1
  {
    if t.TMap? && t.node !in p {
      AbsKidsCong(t.kids, p, p');
    }
  }

  lemma {:induction false} AbsKidsCong(kids: seq<Kid>, p: map<Node, Yaml>, p': map<Node, Yaml>)
    requires Agree(p, p', MutKids(kids))
    ensures AbsKids(kids, p) == AbsKids(kids, p')
    decreases kids, 0
  {
    forall i | 0 <= i < |kids| ensures Abs(kids[i].tree, p) == Abs(kids[i].tree, p') {
      AbsCong(kids[i].tree, p, p');
    }
  }

  lemma {:induction false} AbsIsVal(t: Tree, pend: map<Node, Yaml>)
    requires Mut(t) !! pend.Keys
    ensures Abs(t, pend) == Val(t)
    decreases t
  {
    if t.TMap? {
      forall i | 0 <= i < |t.kids| ensures Abs(t.kids[i].tree, pend) == Val(t.kids[i].tree) {
        AbsIsVal(t.kids[i].tree, pend);
      }
      assert AbsKids(t.kids, pend) == ValKids(t.kids);
    }
  }

  // ----- subtrees on paths of maps -----

  ghost predicate Sub(g: Tree, h: Tree)
    decreases g
  {
    g == h || (g.TMap? && exists i :: 0 <= i < |g.kids| && Sub(g.kids[i].tree, h))
  }

  lemma {:induction false} SubFacts(g: Tree, h: Tree)
    requires Sub(g, h)
    ensures All(h) <= All(g) && Mut(h) <= Mut(g)
    ensures Distinct(g) ==> Distinct(h)
    decreases g
  {
    if g != h {
      var i :| 0 <= i < |g.kids| && Sub(g.kids[i].tree, h);
      SubFacts(g.kids[i].tree, h);
      assert Distinct(g) ==> DistinctKids(g.kids);
    }
  }

  lemma KidFacts(t: Tree, q: nat)
    requires t.TMap? && q < |t.kids|
    ensures Sub(t, t.kids[q].tree)
    ensures All(t.kids[q].tree) <= All(t) && Mut(t.kids[q].tree) <= Mut(t)
    ensures Distinct(t) ==> Distinct(t.kids[q].tree) && t.node !in All(t.kids[q].tree) && t.node !in Mut(t.kids[q].tree)
  {
    MutInAll(t.kids[q].tree);
    assert Sub(t.kids[q].tree, t.kids[q].tree);
    assert Distinct(t) ==> DistinctKids(t.kids);
  }

  lemma OwnNodes(t: Tree)
    requires t.TMap?
    ensures All(t) == {t.node} + AllKids(t.kids) && Mut(t) == {t.node} + MutKids(t.kids)
    ensures Distinct(t) <==> t.node !in AllKids(t.kids) && DistinctKids(t.kids)
  {
  }

  lemma {:induction false} SubTrans(f: Tree, g: Tree, h: Tree)
    requires Sub(f, g) && Sub(g, h)
    ensures Sub(f, h)
    decreases f
  {
    if f != g {
      var i :| 0 <= i < |f.kids| && Sub(f.kids[i].tree, g);
      SubTrans(f.kids[i].tree, g, h);
    }
  }

  /** The tree with the map at node `b` replaced. */
  ghost function Subst(g: Tree, b: Node, h: Tree): Tree
    decreases g, 1
  {
    if !g.TMap? then g
    else if g.node == b then h
    else TMap(g.node, SubstKids(g.kids, b, h))
  }

  ghost function SubstKids(kids: seq<Kid>, b: Node, h: Tree): (r: seq<Kid>)
    ensures |r| == |kids|
    ensures forall i :: 0 <= i < |kids| ==> r[i] == Kid(kids[i].key, Subst(kids[i].tree, b, h))
    decreases kids, 0
  {
    seq(|kids|, i requires 0 <= i < |kids| => Kid(kids[i].key, Subst(kids[i].tree, b, h)))
  }

  lemma {:induction false} SubstAbsent(g: Tree, b: Node, h: Tree)
    requires b !in Mut(g)
    ensures Subst(g, b, h) == g
    decreases g
  {
    if g.TMap? {
      forall i | 0 <= i < |g.kids| ensures Subst(g.kids[i].tree, b, h) == g.kids[i].tree {
        assert b !in Mut(g.kids[i].tree);
        SubstAbsent(g.kids[i].tree, b, h);
      }
      assert SubstKids(g.kids, b, h) == g.kids;
    }
  }

  /** In a tree with distinct map nodes, the node of a subtree is found only at that subtree: either at
      the root, or below exactly one kid. */
  lemma WhereIs(g: Tree, h: Tree) returns (i: nat)
    requires Sub(g, h) && h.TMap? && Distinct(g) && g != h
    ensures g.TMap? && i < |g.kids| && Sub(g.kids[i].tree, h) && g.node != h.node
    ensures g.node !in Mut(h)
    ensures forall j :: 0 <= j < |g.kids| && j != i ==> h.node !in Mut(g.kids[j].tree) && Mut(g.kids[j].tree) !! Mut(h)
  {
    i :| 0 <= i < |g.kids| && Sub(g.kids[i].tree, h);
    SubFacts(g.kids[i].tree, h);
    MutInAll(h);
    assert h.node in All(g.kids[i].tree);
    assert All(g.kids[i].tree) <= AllKids(g.kids);
  }

  /** A kid away from the subtree stands for the same as before. */
  lemma AbsElsewhere(g: Tree, h: Tree, h': Tree, p: map<Node, Yaml>, p': map<Node, Yaml>, j: nat)
    requires g.TMap? && j < |g.kids| && h.node !in Mut(g.kids[j].tree) && Mut(g.kids[j].tree) !! Mut(h)
    requires Agree(p, p', Mut(g) - Mut(h))
    ensures Abs(Subst(g.kids[j].tree, h.node, h'), p') == Abs(g.kids[j].tree, p)
  {
    hide Abs, Subst;
    SubstAbsent(g.kids[j].tree, h.node, h');
    AbsCong(g.kids[j].tree, p, p');
  }

  /** A map stands for the same when its kids do. */
  lemma AbsAgain(g: Tree, h: Tree, h': Tree, p: map<Node, Yaml>, p': map<Node, Yaml>)
    requires g.TMap? && g.node != h.node && Agree(p, p', {g.node})
    requires g.node !in p ==>
             forall j :: 0 <= j < |g.kids| ==> Abs(Subst(g.kids[j].tree, h.node, h'), p') == Abs(g.kids[j].tree, p)
    ensures Abs(Subst(g, h.node, h'), p') == Abs(g, p)
  {
    var kids := SubstKids(g.kids, h.node, h');
    assert g.node !in p ==> AbsKids(kids, p') == AbsKids(g.kids, p);
  }

  /** Finishing the merge pending at a subtree leaves the meaning of the whole tree unchanged. */
  lemma {:induction false} AbsSubst(g: Tree, h: Tree, h': Tree, p: map<Node, Yaml>, p': map<Node, Yaml>)
    requires Sub(g, h) && h.TMap? && Distinct(g)
    requires h.node in p && Abs(h', p') == p[h.node]
    requires Agree(p, p', Mut(g) - Mut(h))
    ensures Abs(Subst(g, h.node, h'), p') == Abs(g, p)
    decreases g
  {
    if g != h {
      var i := WhereIs(g, h);
      hide Abs, Subst, All, Mut, Distinct, Sub, Agree;
      OwnNodes(g);
      KidFacts(g, i);
      AgreeOn(p, p', Mut(g) - Mut(h), {g.node});
      AgreeOn(p, p', Mut(g) - Mut(h), Mut(g.kids[i].tree) - Mut(h));
      AbsSubst(g.kids[i].tree, h, h', p, p');
      forall j | 0 <= j < |g.kids| ensures Abs(Subst(g.kids[j].tree, h.node, h'), p') == Abs(g.kids[j].tree, p) {
        if j != i {
          AbsElsewhere(g, h, h', p, p', j);
        }
      }
      AbsAgain(g, h, h', p, p');
    }
  }

  /** The nodes of the tree after the replacement. */
  lemma {:induction false} SubstNodes(g: Tree, b: Node, h: Tree)
    ensures All(Subst(g, b, h)) <= All(g) + All(h)
    ensures Mut(Subst(g, b, h)) <= Mut(g) + Mut(h)
    decreases g
  {
    if g.TMap? && g.node != b {
      var kids := SubstKids(g.kids, b, h);
      forall n | n in AllKids(kids) ensures n in AllKids(g.kids) + All(h) {
        var i :| 0 <= i < |kids| && n in All(kids[i].tree);
        SubstNodes(g.kids[i].tree, b, h);
      }
      forall n | n in MutKids(kids) ensures n in MutKids(g.kids) + Mut(h) {
        var i :| 0 <= i < |kids| && n in Mut(kids[i].tree);
        SubstNodes(g.kids[i].tree, b, h);
      }
    }
  }

  /** Like `SubstNodes`, but what the replacement shares with the subtree it replaces was there before. */
  lemma SubstKidNodes(kids: seq<Kid>, h: Tree, h': Tree)
    requires All(h) <= AllKids(kids)
    ensures AllKids(SubstKids(kids, h.node, h')) <= AllKids(kids) + (All(h') - All(h))
  {
    var kids' := SubstKids(kids, h.node, h');
    forall n | n in AllKids(kids') ensures n in AllKids(kids) + (All(h') - All(h)) {
      var i :| 0 <= i < |kids'| && n in All(kids'[i].tree);
      SubstNodes(kids[i].tree, h.node, h');
    }
  }

  /** Replacing one kid keeps the kids apart when the new kid brings in only foreign nodes. */
  lemma ReplaceKid(kids: seq<Kid>, kids': seq<Kid>, i: nat)
    requires DistinctKids(kids) && i < |kids| == |kids'|
    requires forall j :: 0 <= j < |kids| && j != i ==> kids'[j] == kids[j]
    requires Distinct(kids'[i].tree)
    requires (All(kids'[i].tree) - All(kids[i].tree)) !! MutKids(kids)
    requires (Mut(kids'[i].tree) - Mut(kids[i].tree)) !! AllKids(kids)
    ensures DistinctKids(kids')
  {
    forall j | 0 <= j < |kids'| && j != i
      ensures Mut(kids'[i].tree) !! All(kids'[j].tree) && Mut(kids'[j].tree) !! All(kids'[i].tree)
    {
      assert Mut(kids[j].tree) <= MutKids(kids) && All(kids[j].tree) <= AllKids(kids);
    }
  }

  /** The replacement keeps map nodes distinct when what it brings in is foreign to the tree. */
  lemma {:induction false} SubstDistinct(g: Tree, h: Tree, h': Tree)
    requires Sub(g, h) && h.TMap? && Distinct(g) && Distinct(h')
    requires (All(h') - All(h)) !! Mut(g)
    requires (Mut(h') - Mut(h)) !! All(g)
    ensures Distinct(Subst(g, h.node, h'))
    decreases g
  {
    if g != h {
      var i := WhereIs(g, h);
      var t := g.kids[i].tree;
      var kids := SubstKids(g.kids, h.node, h');
      SubFacts(t, h);
      assert All(t) <= AllKids(g.kids) && Mut(t) <= MutKids(g.kids);
      SubstKidNodes(g.kids, h, h');
      SubstDistinct(t, h, h');
      SubstNodes(t, h.node, h');
      forall j | 0 <= j < |kids| && j != i ensures kids[j] == g.kids[j] {
        SubstAbsent(g.kids[j].tree, h.node, h');
      }
      ReplaceKid(g.kids, kids, i);
    }
  }

  lemma {:induction false} SubstHas(g: Tree, h: Tree, h': Tree)
    requires Sub(g, h) && h.TMap? && Distinct(g)
    ensures Sub(Subst(g, h.node, h'), h')
    decreases g
  {
    if g != h {
      var i := WhereIs(g, h);
      SubstHas(g.kids[i].tree, h, h');
      assert Sub(SubstKids(g.kids, h.node, h')[i].tree, h');
    }
  }

  /** A subtree apart from the one replaced stays. */
  lemma {:induction false} SubstKeeps(g: Tree, h: Tree, h': Tree, k: Tree)
    requires Sub(g, h) && h.TMap? && Distinct(g)
    requires Sub(g, k) && k.TMap? && Mut(k) !! Mut(h)
    ensures Sub(Subst(g, h.node, h'), k)
    decreases g
  {
    if g == k {
      SubstAbsent(g, h.node, h');
    } else {
      var j := WhereIs(g, k);
      if g == h {
        SubFacts(g, k);
        assert false;
      }
      var i := WhereIs(g, h);
      if i == j {
        SubstKeeps(g.kids[i].tree, h, h', k);
      } else {
        SubstAbsent(g.kids[j].tree, h.node, h');
      }
      assert Sub(SubstKids(g.kids, h.node, h')[j].tree, k);
    }
  }

  // ----- the heap at a moment -----

  /** The tree is realized by the shapes recorded in `m`. */
  ghost predicate Holds(t: Tree, m: map<Node, Shape>)
    decreases t
  {
    && t.node in m && m[t.node] == ShapeOf(t)
    && (t.TSeq? ==> forall i :: 0 <= i < |t.items| ==> Holds(t.items[i], m))
    && (t.TMap? ==> forall i :: 0 <= i < |t.kids| ==> Holds(t.kids[i].tree, m))
  }

  lemma {:induction false} RealizesIsHolds(t: Tree, m: map<Node, Shape>)
    requires forall n :: n in All(t) ==> n in m && m[n] == n.shape
    ensures Realizes(t) <==> Holds(t, m)
    decreases t
  {
    if t.TSeq? {
      forall i | 0 <= i < |t.items| ensures Realizes(t.items[i]) <==> Holds(t.items[i], m) {
        RealizesIsHolds(t.items[i], m);
      }
    } else if t.TMap? {
      forall i | 0 <= i < |t.kids| ensures Realizes(t.kids[i].tree) <==> Holds(t.kids[i].tree, m) {
        RealizesIsHolds(t.kids[i].tree, m);
      }
    }
  }

  lemma {:induction false} HoldsFrame(t: Tree, m: map<Node, Shape>, m': map<Node, Shape>)
    requires Holds(t, m)
    requires forall n :: n in All(t) && n in m ==> n in m' && m'[n] == m[n]
    ensures Holds(t, m')
    decreases t
  {
    if t.TSeq? {
      forall i | 0 <= i < |t.items| ensures Holds(t.items[i], m') {
        HoldsFrame(t.items[i], m, m');
      }
    } else if t.TMap? {
      forall i | 0 <= i < |t.kids| ensures Holds(t.kids[i].tree, m') {
        HoldsFrame(t.kids[i].tree, m, m');
      }
    }
  }

  /** Writing to one map node realizes the tree with that map replaced. */
  lemma {:induction false} HoldsSubst(g: Tree, h: Tree, h': Tree, m: map<Node, Shape>, m': map<Node, Shape>)
    requires Sub(g, h) && h.TMap? && Distinct(g)
    requires Holds(g, m) && Holds(h', m') && h'.node == h.node
    requires forall n :: n in All(g) && n != h.node && n in m ==> n in m' && m'[n] == m[n]
    ensures Holds(Subst(g, h.node, h'), m')
    decreases g
  {
    if g != h {
      var i := WhereIs(g, h);
      HeldKid(g, i, m);
      hide Sub, Distinct, All, Mut, Holds;
      HoldsSubst(g.kids[i].tree, h, h', m, m');
      var kids := SubstKids(g.kids, h.node, h');
      forall j | 0 <= j < |kids| ensures Holds(kids[j].tree, m') {
        if j != i {
          HoldsElsewhere(g, h, h', m, m', i, j);
        }
      }
      SubstSlots(g, h, h');
      HoldsAgain(g, kids, m, m');
    }
  }

  lemma HeldKid(g: Tree, i: nat, m: map<Node, Shape>)
    requires g.TMap? && i < |g.kids| && Distinct(g) && Holds(g, m)
    ensures Distinct(g.kids[i].tree) && Holds(g.kids[i].tree, m) && All(g.kids[i].tree) <= All(g) && g.node in All(g)
  {
    assert DistinctKids(g.kids);
  }

  /** Putting a tree with the same node in place of another keeps the node of every tree around it. */
  lemma SubstSlots(g: Tree, h: Tree, h': Tree)
    requires g.TMap? && h'.node == h.node
    ensures SlotsOf(SubstKids(g.kids, h.node, h')) == SlotsOf(g.kids)
  {
  }

  lemma HoldsAgain(g: Tree, kids: seq<Kid>, m: map<Node, Shape>, m': map<Node, Shape>)
    requires g.TMap? && Holds(g, m) && SlotsOf(kids) == SlotsOf(g.kids)
    requires g.node in m && g.node in m' && m'[g.node] == m[g.node]
    requires forall j :: 0 <= j < |kids| ==> Holds(kids[j].tree, m')
    ensures Holds(TMap(g.node, kids), m')
  {
  }

  lemma HoldsElsewhere(g: Tree, h: Tree, h': Tree, m: map<Node, Shape>, m': map<Node, Shape>, i: nat, j: nat)
    requires g.TMap? && h.TMap? && Distinct(g) && i < |g.kids| && j < |g.kids| && i != j && Sub(g.kids[i].tree, h)
    requires Holds(g, m) && forall n :: n in All(g) && n != h.node && n in m ==> n in m' && m'[n] == m[n]
    ensures Subst(g.kids[j].tree, h.node, h') == g.kids[j].tree && Holds(g.kids[j].tree, m')
  {
    SubFacts(g.kids[i].tree, h);
    assert DistinctKids(g.kids);
    SubstAbsent(g.kids[j].tree, h.node, h');
    assert h.node in Mut(g.kids[i].tree);
    assert All(g.kids[j].tree) <= All(g);
    HoldsFrame(g.kids[j].tree, m, m');
  }

  /** Nodes at hand exist. Calling this before nodes are created tells that they are not the new ones. */
  lemma Exist(nodes: set<Node>)
    ensures forall n :: n in nodes ==> allocated(n)
  {
  }
}
