/**
 The in-place merge: a worklist of pairs of map nodes, each base node written slot by slot. Whatever
 order the pairs are taken in, the base ends up as the recursive merge of the two configurations.
 */
module YamlWorklist {
  import opened YamlMerge
  import opened YamlTrees
  import opened YamlSequences
  import opened YamlSteps
  import opened YamlRounds

  /** The first slot with the key, or the number of slots. */
  function FindSlot(slots: seq<Slot>, key: string): (p: nat)
    ensures p <= |slots|
    ensures p < |slots| ==> slots[p].key == key
    ensures forall i :: 0 <= i < p ==> slots[i].key != key
  {
    if slots == [] || slots[0].key == key then 0 else 1 + FindSlot(slots[1..], key)
  }

  /** The heap outside `b` is as recorded in `m`. */
  ghost predicate Recorded(m: map<Node, Shape>, b: Node)
    reads m.Keys
  {
    forall n :: n in m && n != b ==> n.shape == m[n]
  }

  ghost predicate KidsHold(kids: seq<Kid>, m: map<Node, Shape>) {
    forall p :: 0 <= p < |kids| ==> Holds(kids[p].tree, m)
  }

  /** The record `m'` is `m` with new nodes added. */
  ghost predicate Extends(m: map<Node, Shape>, m': map<Node, Shape>) {
    forall n :: n in m ==> n in m' && m'[n] == m[n]
  }

  lemma KidsHoldFrame(kids: seq<Kid>, m: map<Node, Shape>, m': map<Node, Shape>)
    requires KidsHold(kids, m) && Extends(m, m')
    ensures KidsHold(kids, m')
  {
    forall p | 0 <= p < |kids| ensures Holds(kids[p].tree, m') {
      HoldsFrame(kids[p].tree, m, m');
    }
  }

  lemma {:induction false} HeldNodes(t: Tree, m: map<Node, Shape>)
    requires Holds(t, m)
    ensures All(t) <= m.Keys
    decreases t
  {
    if t.TSeq? {
      forall i | 0 <= i < |t.items| ensures All(t.items[i]) <= m.Keys {
        HeldNodes(t.items[i], m);
      }
    } else if t.TMap? {
      forall i | 0 <= i < |t.kids| ensures All(t.kids[i].tree) <= m.Keys {
        HeldNodes(t.kids[i].tree, m);
      }
    }
  }

  lemma HeldIsRealized(t: Tree, m: map<Node, Shape>, b: Node)
    requires Holds(t, m) && Recorded(m, b) && b !in All(t)
    ensures Realizes(t)
  {
    HeldNodes(t, m);
    RealizesIsHolds(t, m);
  }

  /** The slot's own tree fits, unless both it and the kid are maps or both are sequences. */
  lemma FitsOverwrite(s: Progress, hb: Tree, ha: Tree, i: nat, fr: set<Node>, p: nat)
    requires Good(s, hb, ha, i, fr) && i < |ha.kids| && p <= |s.kids|
    requires p < |s.kids| ==> !(s.kids[p].tree.TMap? && ha.kids[i].tree.TMap?)
    requires p < |s.kids| ==> !(s.kids[p].tree.TSeq? && ha.kids[i].tree.TSeq?)
    ensures Fits(s, hb, ha, i, fr, p, ha.kids[i].tree, fr)
  {
    hide JobsOk, ValueOk, All, Mut, Distinct, WellFormed;
    SlotOfMap(hb, ha, i);
  }

  lemma FitsSequence(s: Progress, hb: Tree, ha: Tree, i: nat, fr: set<Node>, p: nat, t: Tree)
    requires Good(s, hb, ha, i, fr) && i < |ha.kids| && p < |s.kids|
    requires t.TSeq? && t.node !in All(hb) && t.node !in All(ha) && t.node !in fr
    requires Val(t) == Combine(Val(s.kids[p].tree), Val(ha.kids[i].tree))
    requires All(t) <= {t.node} + All(s.kids[p].tree) + All(ha.kids[i].tree)
    ensures Fits(s, hb, ha, i, fr, p, t, fr + {t.node})
  {
    hide JobsOk, ValueOk, Apart, All, AllKids, MutKids, DistinctKids, Val, Combine;
    SequenceNode(t);
  }

  lemma SequenceNode(t: Tree)
    requires t.TSeq?
    ensures Distinct(t) && Mut(t) == {t.node}
  {
  }

  /** What stays true of the heap between slots. */
  ghost predicate Ready(b: Node, s: Progress, hb: Tree, ha: Tree, i: nat, fr: set<Node>, m: map<Node, Shape>)
    reads b, m.Keys
  {
    && hb.TMap? && ha.TMap? && i <= |ha.kids| && Good(s, hb, ha, i, fr) && hb.node == b
    && b.shape == SMap(SlotsOf(s.kids))
    && Recorded(m, b) && KidsHold(s.kids, m) && KidsHold(ha.kids, m)
    && fr <= m.Keys && All(hb) <= m.Keys && All(ha) <= m.Keys
  }

  lemma SlotOut(s: Progress, hb: Tree, ha: Tree, i: nat, fr: set<Node>, p: nat)
    requires Good(s, hb, ha, i, fr) && i < |ha.kids|
    ensures hb.node !in All(ha.kids[i].tree)
    ensures p < |s.kids| ==> hb.node !in All(s.kids[p].tree)
  {
    hide JobsOk, ValueOk;
    SlotApart(s, hb, ha, i, fr);
  }

  lemma FoundFirst(s: Progress, key: string)
    ensures FirstAt(s.kids, key, FindSlot(SlotsOf(s.kids), key))
  {
    var slots := SlotsOf(s.kids);
    assert forall r :: 0 <= r < |s.kids| ==> slots[r].key == s.kids[r].key;
  }

  /** A new or changed slot: the base node is written, and the slot's node shared. */
  method WriteSlot(b: Node, p: nat, key: string, node: Node, ghost t: Tree, ghost fr': set<Node>,
                   ghost s: Progress, ghost hb: Tree, ghost ha: Tree, ghost i: nat, ghost fr: set<Node>, ghost m: map<Node, Shape>)
    returns (ghost s': Progress)
    requires b.shape == SMap(SlotsOf(s.kids)) && hb.node == b && t.node == node && hb.TMap? && ha.TMap?
    requires Good(s, hb, ha, i, fr) && i < |ha.kids| && key == ha.kids[i].key && FirstAt(s.kids, key, p)
    requires Fits(s, hb, ha, i, fr, p, t, fr')
    requires Recorded(m, b) && KidsHold(s.kids, m) && KidsHold(ha.kids, m) && Holds(t, m)
    requires fr' <= m.Keys && All(hb) <= m.Keys && All(ha) <= m.Keys
    modifies b
    ensures Ready(b, s', hb, ha, i + 1, fr', m) && s'.jobs == s.jobs
  {
    hide Good, Fits, Holds, Mut, All, Val, Combine;
    s' := Placed(s, key, p, t);
    StepPlace(s, hb, ha, i, fr, p, t, fr');
    if p < |b.shape.slots| {
      b.shape := SMap(b.shape.slots[p := Slot(key, node)]);
    } else {
      b.shape := SMap(b.shape.slots + [Slot(key, node)]);
    }
    assert SlotsOf(s'.kids) == b.shape.slots;
  }

  lemma SlotKinds(b: Node, s: Progress, hb: Tree, ha: Tree, i: nat, fr: set<Node>, m: map<Node, Shape>, p: nat)
    requires Ready(b, s, hb, ha, i, fr, m) && i < |ha.kids| && p < |s.kids|
    ensures Realizes(ha.kids[i].tree) && Realizes(s.kids[p].tree)
    ensures ha.kids[i].tree.node.shape == ShapeOf(ha.kids[i].tree)
    ensures s.kids[p].tree.node.shape == ShapeOf(s.kids[p].tree)
  {
    hide Good, Holds, Mut, All, Val, Combine;
    SlotOut(s, hb, ha, i, fr, p);
    HeldIsRealized(ha.kids[i].tree, m, b);
    HeldIsRealized(s.kids[p].tree, m, b);
  }

  /** Two sequences: the merged sequence can become the slot. */
  method NewSequence(b: Node, child: Node, value: Node, ghost p: nat,
                     ghost s: Progress, ghost hb: Tree, ghost ha: Tree, ghost i: nat, ghost fr: set<Node>, ghost m: map<Node, Shape>)
    returns (node: Node, ghost t: Tree, ghost m': map<Node, Shape>)
    requires Ready(b, s, hb, ha, i, fr, m) && i < |ha.kids| && p < |s.kids|
    requires child == s.kids[p].tree.node && value == ha.kids[i].tree.node
    requires s.kids[p].tree.TSeq? && ha.kids[i].tree.TSeq?
    requires Realizes(s.kids[p].tree) && Realizes(ha.kids[i].tree)
    ensures t.node == node && fresh(node) && m' == m[node := node.shape] && Extends(m, m')
    ensures Fits(s, hb, ha, i, fr, p, t, fr + {node}) && Holds(t, m') && Recorded(m', b)
  {
    Exist(m.Keys);
    hide Good, Holds, Mut, All, Val, Combine, Realizes, KidsHold;
    node, t := MergeSequences(child, value, s.kids[p].tree, ha.kids[i].tree);
    m' := m[node := node.shape];
    FitsSequence(s, hb, ha, i, fr, p, t);
    SlotOut(s, hb, ha, i, fr, p);
    KidHolds(s.kids, m, p);
    KidHolds(ha.kids, m, i);
    SequenceHeld(t, s.kids[p].tree, ha.kids[i].tree, m, m', b);
  }

  lemma KidHolds(kids: seq<Kid>, m: map<Node, Shape>, p: nat)
    requires KidsHold(kids, m) && p < |kids|
    ensures Holds(kids[p].tree, m)
  {
  }

  lemma SequenceHeld(t: Tree, tb: Tree, ta: Tree, m: map<Node, Shape>, m': map<Node, Shape>, b: Node)
    requires Realizes(t) && All(t) <= {t.node} + All(tb) + All(ta) && Holds(tb, m) && Holds(ta, m)
    requires m' == m[t.node := t.node.shape] && Recorded(m, b) && b !in All(tb) && b !in All(ta)
    ensures Holds(t, m')
  {
    HeldNodes(tb, m);
    HeldNodes(ta, m);
    RealizesIsHolds(t, m');
  }

  /** One slot of the additional map. `more` is the pair of maps to be merged later, if both are maps. */
  method MergeSlot(b: Node, key: string, value: Node,
                   ghost s: Progress, ghost hb: Tree, ghost ha: Tree, ghost i: nat, ghost fr: set<Node>, ghost m: map<Node, Shape>)
    returns (more: seq<(Node, Node)>, ghost s': Progress, ghost fr': set<Node>, ghost m': map<Node, Shape>)
    requires Ready(b, s, hb, ha, i, fr, m) && i < |ha.kids|
    requires key == ha.kids[i].key && value == ha.kids[i].tree.node
    modifies b
    ensures Ready(b, s', hb, ha, i + 1, fr', m')
    ensures Extends(m, m') && (forall n :: n in m' && n !in m ==> fresh(n)) && fr' <= fr + (m'.Keys - m.Keys)
    ensures Pairs(s'.jobs) == Pairs(s.jobs) + more
  {
    hide Good, Holds, Mut, All, Val, Combine, Realizes;
    more, s', fr', m' := [], s, fr, m;
    var p := FindSlot(b.shape.slots, key);
    FoundFirst(s, key);
    if p < |b.shape.slots| {
      SlotKinds(b, s, hb, ha, i, fr, m, p);
      var child := b.shape.slots[p].node;
      if value.shape.SMap? && child.shape.SMap? {
        more := [(child, value)];
        s' := PutOff(s, ha, i, p);
        StepPutOff(s, hb, ha, i, fr, p);
      } else if value.shape.SSeq? && child.shape.SSeq? {
        ghost var t;
        var node;
        node, t, m' := NewSequence(b, child, value, p, s, hb, ha, i, fr, m);
        fr' := fr + {node};
        KidsHoldFrame(s.kids, m, m');
        KidsHoldFrame(ha.kids, m, m');
        s' := WriteSlot(b, p, key, node, t, fr', s, hb, ha, i, fr, m');
      } else {
        FitsOverwrite(s, hb, ha, i, fr, p);
        s' := WriteSlot(b, p, key, value, ha.kids[i].tree, fr, s, hb, ha, i, fr, m);
      }
    } else {
      FitsOverwrite(s, hb, ha, i, fr, p);
      s' := WriteSlot(b, p, key, value, ha.kids[i].tree, fr, s, hb, ha, i, fr, m);
    }
  }

  ghost function Pairs(jobs: seq<Job>): (r: seq<(Node, Node)>)
    ensures |r| == |jobs|
    ensures forall j :: 0 <= j < |jobs| ==> r[j] == (jobs[j].gb.node, jobs[j].ga.node)
  {
    seq(|jobs|, j requires 0 <= j < |jobs| => (jobs[j].gb.node, jobs[j].ga.node))
  }

  /** The heap is as recorded in `m`. */
  ghost predicate Now(m: map<Node, Shape>)
    reads m.Keys
  {
    forall n :: n in m ==> n.shape == m[n]
  }

  lemma StartReady(b: Node, hb: Tree, ha: Tree, m: map<Node, Shape>)
    requires Apart(hb, ha) && hb.node == b && Holds(hb, m) && Holds(ha, m) && Now(m)
    ensures Ready(b, Progress(hb.kids, [], map[], [], []), hb, ha, 0, {}, m)
  {
    Start(hb, ha);
    HeldNodes(hb, m);
    HeldNodes(ha, m);
  }

  /** The finished base map is held by the heap, and has no old nodes but those of the two maps. */
  lemma FinishReady(b: Node, s: Progress, hb: Tree, ha: Tree, fr: set<Node>, m: map<Node, Shape>)
    requires hb.TMap? && ha.TMap? && Ready(b, s, hb, ha, |ha.kids|, fr, m)
    ensures Merged(hb, ha, TMap(b, s.kids), s.jobs, s.pend)
    ensures Holds(TMap(b, s.kids), m[b := b.shape])
    ensures All(TMap(b, s.kids)) <= All(hb) + All(ha) + fr
  {
    Finished(s, hb, ha, fr);
    hide JobsOk, ValueOk, Merged;
    FinishNodes(b, s, hb, ha, fr);
    var m' := m[b := b.shape];
    forall p | 0 <= p < |s.kids| ensures Holds(s.kids[p].tree, m') {
      SlotOutside(s, hb, ha, fr, p);
      HoldsFrame(s.kids[p].tree, m, m');
    }
    hide NodesOk;
  }

  lemma FinishNodes(b: Node, s: Progress, hb: Tree, ha: Tree, fr: set<Node>)
    requires hb.TMap? && ha.TMap? && Good(s, hb, ha, |ha.kids|, fr) && hb.node == b
    ensures All(TMap(b, s.kids)) <= All(hb) + All(ha) + fr
  {
    hide JobsOk, ValueOk;
    OwnNodes(hb);
    OwnNodes(ha);
    OwnNodes(TMap(b, s.kids));
    assert ha.kids[..|ha.kids|] == ha.kids;
  }

  lemma SlotOutside(s: Progress, hb: Tree, ha: Tree, fr: set<Node>, p: nat)
    requires hb.TMap? && ha.TMap? && Good(s, hb, ha, |ha.kids|, fr) && p < |s.kids|
    ensures hb.node !in All(s.kids[p].tree)
  {
  }

  /** One pair of maps: every slot of `a` is merged into `b`. */
  method MergeInto(b: Node, a: Node, ghost hb: Tree, ghost ha: Tree, ghost m: map<Node, Shape>)
    returns (more: seq<(Node, Node)>, ghost hb': Tree, ghost jobs: seq<Job>, ghost pend: map<Node, Yaml>, ghost m': map<Node, Shape>)
    requires Apart(hb, ha) && hb.node == b && ha.node == a
    requires Holds(hb, m) && Holds(ha, m) && Now(m)
    modifies b
    ensures Merged(hb, ha, hb', jobs, pend) && Pairs(jobs) == more
    ensures Holds(hb', m') && Now(m')
    ensures m.Keys <= m'.Keys && forall n :: n in m && n != b ==> m'[n] == m[n]
    ensures forall n :: n in m' && n !in m ==> fresh(n)
    ensures forall n :: n in All(hb') - All(hb) - All(ha) ==> n !in m && fresh(n)
  {
    hide Good, Holds, Mut, All, Val, Combine, Merged, Distinct, WellFormed;
    ghost var s := Progress(hb.kids, [], map[], [], []);
    ghost var fr: set<Node> := {};
    ghost var m1: map<Node, Shape> := m;
    StartReady(b, hb, ha, m);
    ShapeIs(ha, m);
    ShapeIs(hb, m);
    Exist(m.Keys);
    more := [];
    var slots := a.shape.slots;
    for i := 0 to |slots|
      invariant Ready(b, s, hb, ha, i, fr, m1) && Pairs(s.jobs) == more
      invariant Extends(m, m1) && (forall n :: n in m1 && n !in m ==> fresh(n)) && fr !! m.Keys
    {
      var next;
      next, s, fr, m1 := MergeSlot(b, slots[i].key, slots[i].node, s, hb, ha, i, fr, m1);
      more := more + next;
    }
    FinishReady(b, s, hb, ha, fr, m1);
    hb', jobs, pend, m' := TMap(b, s.kids), s.jobs, s.pend, m1[b := b.shape];
  }

  lemma ShapeIs(t: Tree, m: map<Node, Shape>)
    requires Holds(t, m) && Now(m)
    ensures t.node in m && t.node.shape == ShapeOf(t)
  {
  }

  /** What stays true between rounds: `g` is the base as it is, `jobs` the merges still to be done,
      `p` what they will make of it, `m` the heap. */
  ghost predicate Between(g: Tree, jobs: seq<Job>, p: map<Node, Yaml>, m: map<Node, Shape>) {
    && Distinct(g) && JobsIn(g, jobs) && Tracks(p, jobs)
    && Holds(g, m) && forall j :: 0 <= j < |jobs| ==> Holds(jobs[j].ga, m)
  }

  lemma FirstPair(tb: Tree, ta: Tree, m: map<Node, Shape>)
    requires Apart(tb, ta) && Holds(tb, m) && Holds(ta, m)
    ensures var v := Combine(Val(tb), Val(ta));
            Between(tb, [Job(tb, ta)], map[tb.node := v], m) && Abs(tb, map[tb.node := v]) == v
  {
    hide Holds, Distinct, WellFormed, Mut, All, Val, Combine;
    var jobs := [Job(tb, ta)];
    assert Sub(tb, tb);
    assert JobIn(tb, jobs[0]);
    assert jobs[0].gb.node == tb.node;
  }

  /** The new nodes of a round are in nothing that was there. */
  lemma NewNodes(g: Tree, jobs: seq<Job>, p: map<Node, Yaml>, m: map<Node, Shape>, c: nat, hb': Tree)
    requires Between(g, jobs, p, m) && c < |jobs|
    requires forall n :: n in All(hb') - All(jobs[c].gb) - All(jobs[c].ga) ==> n !in m
    ensures OnlyNew(g, jobs, jobs[c].gb, jobs[c].ga, hb')
  {
    hide Holds, JobsIn, Tracks, Distinct, Mut, All;
    HeldNodes(g, m);
    forall j | 0 <= j < |jobs| ensures All(jobs[j].ga) <= m.Keys {
      HeldNodes(jobs[j].ga, m);
    }
  }

  /** A round leads from one state between rounds to the next, and uses up the additional map taken. */
  lemma NextBetween(g: Tree, jobs: seq<Job>, p: map<Node, Yaml>, m: map<Node, Shape>, c: nat,
                    hb': Tree, more: seq<Job>, p0: map<Node, Yaml>, m': map<Node, Shape>)
    requires Between(g, jobs, p, m) && c < |jobs|
    requires Merged(jobs[c].gb, jobs[c].ga, hb', more, p0) && Holds(hb', m')
    requires forall n :: n in m && n != jobs[c].gb.node ==> n in m' && m'[n] == m[n]
    requires forall n :: n in All(hb') - All(jobs[c].gb) - All(jobs[c].ga) ==> n !in m
    ensures var g', jobs', p' := Subst(g, jobs[c].gb.node, hb'), Rest(jobs, c) + more, NextPend(p, jobs[c].gb.node, p0);
            Between(g', jobs', p', m') && Abs(g', p') == Abs(g, p)
  {
    NewNodes(g, jobs, p, m, c, hb');
    Round(g, jobs, c, hb', more, p, p0);
    RoundHolds(g, jobs, c, hb', more, p0, m, m');
    RoundHoldsJobs(g, jobs, c, hb', more, p0, m, m');
  }

  /** The additional map taken is in no merge that remains. */
  lemma UsedUp(g: Tree, jobs: seq<Job>, c: nat, hb': Tree, more: seq<Job>, p0: map<Node, Yaml>, todo: set<Node>, j: nat)
    requires JobsIn(g, jobs) && c < |jobs| && Merged(jobs[c].gb, jobs[c].ga, hb', more, p0)
    requires forall k :: 0 <= k < |jobs| ==> Mut(jobs[k].ga) <= todo
    requires j < |Rest(jobs, c) + more|
    ensures jobs[c].ga.node in todo
    ensures Mut((Rest(jobs, c) + more)[j].ga) <= todo - {jobs[c].ga.node}
    ensures j >= |Rest(jobs, c)| ==> Mut((Rest(jobs, c) + more)[j].gb) <= Mut(jobs[c].gb)
  {
    hide Abs, Val, Combine, Tracks, Distinct, All, Mut, JobIn, Sub;
    var rest := Rest(jobs, c);
    MapNode(jobs[c].ga);
    MutInAll(jobs[c].ga);
    if j < |rest| {
      var k := if j < c then j else j + 1;
      assert (rest + more)[j] == jobs[k];
      assert Mut(jobs[k].ga) !! All(jobs[c].ga);
    } else {
      assert (rest + more)[j] == more[j - |rest|];
      assert PartOf(jobs[c].gb, jobs[c].ga, more[j - |rest|]);
    }
  }

  lemma PairsRest(jobs: seq<Job>, c: nat, more: seq<Job>)
    requires c < |jobs|
    ensures Pairs(Rest(jobs, c) + more) == Pairs(jobs)[..c] + Pairs(jobs)[c + 1..] + Pairs(more)
  {
  }

  /** Nothing is left to do: the base stands for what was to be reached. */
  lemma AllDone(g: Tree, p: map<Node, Yaml>, m: map<Node, Shape>)
    requires Between(g, [], p, m) && Now(m)
    ensures Realizes(g) && Abs(g, p) == Val(g)
  {
    assert p.Keys == {};
    AbsIsVal(g, p);
    HeldNodes(g, m);
    RealizesIsHolds(g, m);
  }

  /**
   The merge of a configuration into another, in place. The pairs may be taken in any order (the source
   takes the oldest first); the base becomes the recursive merge, and only nodes on its own paths of maps
   are written to.
   */
  method MergeYamlNodes(base: Node, additional: Node, ghost tb: Tree, ghost ta: Tree) returns (ghost t: Tree)
    requires Apart(tb, ta) && tb.node == base && ta.node == additional && Realizes(tb) && Realizes(ta)
    modifies Mut(tb)
    ensures Realizes(t) && t.node == base && Distinct(t)
    ensures Val(t) == Combine(Val(tb), Val(ta))
    ensures forall n :: n in Mut(t) ==> n in Mut(tb) || n in Mut(ta) || fresh(n)
    ensures forall n :: n in All(t) ==> n in All(tb) || n in All(ta) || fresh(n)
  {
    hide Apart, Holds, Mut, All, Val, Combine, Merged, Between, Abs, Subst, NextPend, Rest, Distinct, JobsIn, Tracks;
    ghost var known, own := All(tb) + All(ta), Mut(tb) + Mut(ta);
    ghost var m: map<Node, Shape> := map n | n in known :: n.shape;
    RealizesIsHolds(tb, m);
    RealizesIsHolds(ta, m);
    Exist(m.Keys);
    FirstPair(tb, ta, m);
    var work := [(base, additional)];
    ghost var p: map<Node, Yaml> := map[base := Combine(Val(tb), Val(ta))];
    ghost var jobs := [Job(tb, ta)];
    ghost var todo := Mut(ta);
    t := tb;
    while work != []
      invariant Between(t, jobs, p, m) && Now(m) && Pairs(jobs) == work
      invariant Abs(t, p) == Combine(Val(tb), Val(ta)) && t.node == base
      invariant forall j :: 0 <= j < |jobs| ==> Mut(jobs[j].gb) <= Mut(tb) && Mut(jobs[j].ga) <= todo <= Mut(ta)
      invariant known <= m.Keys && forall n :: n in Mut(t) && n in known ==> n in own
      invariant forall n :: n in m ==> n in known || fresh(n)
      decreases todo
    {
      var c: nat :| c < |work|;
      var (b, a) := work[c];
      OneRoundFacts(t, jobs, p, m, c);
      var more, hb', found, p0, m' := MergeInto(b, a, jobs[c].gb, jobs[c].ga, m);
      NextBetween(t, jobs, p, m, c, hb', found, p0, m');
      RoundNodes(t, jobs, c, hb', found, p0, known, own);
      UsedUpAll(t, jobs, c, hb', found, p0, todo, Mut(tb));
      PairsRest(jobs, c, found);
      work := work[..c] + work[c + 1..] + more;
      t, p, m, todo, jobs := Subst(t, b, hb'), NextPend(p, b, p0), m', todo - {a}, Rest(jobs, c) + found;
    }
    assert jobs == [];
    AllDone(t, p, m);
    HeldNodes2(t, jobs, p, m);
    MutInAll(t);
  }

  lemma OneRoundFacts(g: Tree, jobs: seq<Job>, p: map<Node, Yaml>, m: map<Node, Shape>, c: nat)
    requires Between(g, jobs, p, m) && c < |jobs|
    ensures Apart(jobs[c].gb, jobs[c].ga) && Holds(jobs[c].gb, m) && Holds(jobs[c].ga, m)
    ensures JobsIn(g, jobs) && Distinct(g)
    ensures jobs[c].gb.node in Mut(jobs[c].gb) && jobs[c].ga.node in Mut(jobs[c].ga)
  {
    assert JobIn(g, jobs[c]);
    JobApart(g, jobs[c]);
    SubHolds(g, jobs[c].gb, m);
  }

  /** Of the nodes known at the start, a round makes none assignable that was not. */
  lemma RoundNodes(g: Tree, jobs: seq<Job>, c: nat, hb': Tree, more: seq<Job>, p0: map<Node, Yaml>, known: set<Node>, own: set<Node>)
    requires c < |jobs| && Merged(jobs[c].gb, jobs[c].ga, hb', more, p0)
    requires (forall n :: n in Mut(g) && n in known ==> n in own) && Mut(jobs[c].gb) <= own && Mut(jobs[c].ga) <= own
    requires (All(hb') - All(jobs[c].gb) - All(jobs[c].ga)) !! known
    ensures Subst(g, jobs[c].gb.node, hb').node == g.node
    ensures forall n :: n in Mut(Subst(g, jobs[c].gb.node, hb')) && n in known ==> n in own
  {
    hide Abs, Val, Combine, Tracks, Distinct, All, Mut, JobsIn, PartOf;
    SubstNodes(g, jobs[c].gb.node, hb');
  }

  /** The merges that remain bring in what is still to be done, and write to what the base had. */
  lemma UsedUpAll(g: Tree, jobs: seq<Job>, c: nat, hb': Tree, more: seq<Job>, p0: map<Node, Yaml>, todo: set<Node>, base: set<Node>)
    requires JobsIn(g, jobs) && c < |jobs| && Merged(jobs[c].gb, jobs[c].ga, hb', more, p0)
    requires forall k :: 0 <= k < |jobs| ==> Mut(jobs[k].gb) <= base && Mut(jobs[k].ga) <= todo
    ensures var jobs' := Rest(jobs, c) + more;
            forall j :: 0 <= j < |jobs'| ==> Mut(jobs'[j].gb) <= base && Mut(jobs'[j].ga) <= todo - {jobs[c].ga.node}
  {
    hide Mut, JobsIn, Merged, Rest;
    var jobs' := Rest(jobs, c) + more;
    forall j | 0 <= j < |jobs'| ensures Mut(jobs'[j].gb) <= base && Mut(jobs'[j].ga) <= todo - {jobs[c].ga.node} {
      UsedUp(g, jobs, c, hb', more, p0, todo, j);
    }
  }

  lemma HeldNodes2(g: Tree, jobs: seq<Job>, p: map<Node, Yaml>, m: map<Node, Shape>)
    requires Between(g, jobs, p, m)
    ensures Distinct(g) && All(g) <= m.Keys
  {
    HeldNodes(g, m);
  }
}
