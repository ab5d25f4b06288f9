/**
 One map merged into another, slot by slot, on trees: what each slot of the additional map does to the
 base map and to the list of merges still to be done.
 */
module YamlSteps {
  import opened YamlMerge
  import opened YamlTrees

  /** A merge still to be done: the map `ga` into the map `gb`. */
  datatype Job = Job(gb: Tree, ga: Tree)

  /** `pend` says of each base node in `jobs`, and of no other, what it will become. */
  ghost predicate Tracks(pend: map<Node, Yaml>, jobs: seq<Job>) {
    && (forall j :: 0 <= j < |jobs| ==>
          jobs[j].gb.node in pend && pend[jobs[j].gb.node] == Combine(Val(jobs[j].gb), Val(jobs[j].ga)))
    && (forall n :: n in pend ==> exists j :: 0 <= j < |jobs| && jobs[j].gb.node == n)
  }

  /** Two maps that can be merged: no node that may be written to is shared between them, and the
      additional map has no key twice. */
  ghost predicate Apart(hb: Tree, ha: Tree) {
    && hb.TMap? && ha.TMap? && Distinct(hb) && Distinct(ha) && WellFormed(Val(ha))
    && Mut(hb) !! All(ha) && Mut(ha) !! All(hb)
  }

  /** The base map part-way through: its slots, the merges put off, and where they come from (`ps` are
      positions in the base map, `qs` in the additional map). */
  datatype Progress = Progress(kids: seq<Kid>, jobs: seq<Job>, pend: map<Node, Yaml>, ps: seq<nat>, qs: seq<nat>)


  ghost predicate JobOk(s: Progress, hb: Tree, ha: Tree, i: nat, j: nat)
    requires ha.TMap? && hb.TMap? && i <= |ha.kids|
    requires |s.ps| == |s.qs| == |s.jobs| && j < |s.jobs|
  {
    var p, q, job := s.ps[j], s.qs[j], s.jobs[j];
    && p < |s.kids| && q < i
    && s.kids[p].tree == job.gb && ha.kids[q].tree == job.ga && s.kids[p].key == ha.kids[q].key
    && job.gb.TMap? && job.ga.TMap? && Mut(job.gb) <= MutKids(hb.kids)
    && MutKids(s.kids) !! All(job.ga) && Mut(job.ga) !! AllKids(s.kids)
  }

  ghost predicate KeyDone(ha: Tree, i: nat, key: string)
    requires ha.TMap? && i <= |ha.kids|
  {
    exists q :: 0 <= q < i && ha.kids[q].key == key
  }

  /** The base map is made of its own nodes, of slots already seen, and of the new sequence nodes `fr`. */
  ghost predicate NodesOk(s: Progress, hb: Tree, ha: Tree, i: nat, fr: set<Node>)
    requires ha.TMap? && hb.TMap? && i <= |ha.kids|
  {
    && fr !! All(hb) && fr !! All(ha)
    && DistinctKids(s.kids) && hb.node !in AllKids(s.kids)
    && AllKids(s.kids) <= AllKids(hb.kids) + AllKids(ha.kids[..i]) + fr
    && MutKids(s.kids) <= MutKids(hb.kids) + MutKids(ha.kids[..i]) + fr
  }

  /** The merges put off come from different slots; a kid whose key was not seen is still the original. */
  ghost predicate JobsOk(s: Progress, hb: Tree, ha: Tree, i: nat)
    requires ha.TMap? && hb.TMap? && i <= |ha.kids|
  {
    && |s.ps| == |s.qs| == |s.jobs|
    && (forall j :: 0 <= j < |s.jobs| ==> JobOk(s, hb, ha, i, j))
    && (forall j, k :: 0 <= j < k < |s.jobs| ==> s.qs[j] < s.qs[k])
    && (forall p :: 0 <= p < |s.kids| && !KeyDone(ha, i, s.kids[p].key) ==> p < |hb.kids| && s.kids[p] == hb.kids[p])
  }

  /** Merging the remaining slots gives what merging all of them into the original would have given. */
  ghost predicate ValueOk(s: Progress, hb: Tree, ha: Tree, i: nat)
    requires ha.TMap? && hb.TMap? && i <= |ha.kids|
  {
    && Tracks(s.pend, s.jobs) && s.pend.Keys <= MutKids(hb.kids)
    && MergeEntries(AbsKids(s.kids, s.pend), ValKids(ha.kids)[i..]) == MergeEntries(ValKids(hb.kids), ValKids(ha.kids))
  }

  /** After `i` slots. */
  ghost predicate Good(s: Progress, hb: Tree, ha: Tree, i: nat, fr: set<Node>) {
    && Apart(hb, ha) && i <= |ha.kids|
    && NodesOk(s, hb, ha, i, fr) && JobsOk(s, hb, ha, i) && ValueOk(s, hb, ha, i)
  }

  lemma Start(hb: Tree, ha: Tree)
    requires Apart(hb, ha)
    ensures Good(Progress(hb.kids, [], map[], [], []), hb, ha, 0, {})
  {
    forall i | 0 <= i < |hb.kids| ensures Abs(hb.kids[i].tree, map[]) == Val(hb.kids[i].tree) {
      AbsIsVal(hb.kids[i].tree, map[]);
    }
    assert AbsKids(hb.kids, map[]) == ValKids(hb.kids);
    assert ValKids(ha.kids)[0..] == ValKids(ha.kids);
  }

  /** A slot is apart from the slots before it. */
  lemma EarlierSlots(kids: seq<Kid>, i: nat)
    requires DistinctKids(kids) && i < |kids|
    ensures AllKids(kids[..i]) !! Mut(kids[i].tree) && MutKids(kids[..i]) !! All(kids[i].tree)
  {
    hide All, Mut, Distinct;
    forall n | n in AllKids(kids[..i]) ensures n !in Mut(kids[i].tree) {
      var q :| 0 <= q < i && n in All(kids[..i][q].tree);
      assert Mut(kids[i].tree) !! All(kids[q].tree);
    }
    forall n | n in MutKids(kids[..i]) ensures n !in All(kids[i].tree) {
      var q :| 0 <= q < i && n in Mut(kids[..i][q].tree);
      assert Mut(kids[q].tree) !! All(kids[i].tree);
    }
  }

  /** A slot is apart from the base map as it was. */
  lemma SlotOfMap(hb: Tree, ha: Tree, i: nat)
    requires Apart(hb, ha) && i < |ha.kids|
    ensures var v := ha.kids[i].tree;
            && Mut(v) !! AllKids(hb.kids) && MutKids(hb.kids) !! All(v) && hb.node !in All(v)
            && All(v) <= All(ha) && Mut(v) <= All(ha) && Distinct(v) && DistinctKids(ha.kids)
  {
    hide All, Mut, Distinct, Val, WellFormed;
    KidFacts(ha, i);
    OwnNodes(ha);
    OwnNodes(hb);
    MutInAll(ha);
  }

  /** A slot is apart from the slots whose merges were put off. */
  lemma SlotJobs(s: Progress, hb: Tree, ha: Tree, i: nat)
    requires hb.TMap? && ha.TMap? && i < |ha.kids| && DistinctKids(ha.kids) && JobsOk(s, hb, ha, i)
    ensures forall j :: 0 <= j < |s.jobs| ==>
              Mut(s.jobs[j].ga) !! All(ha.kids[i].tree) && Mut(ha.kids[i].tree) !! All(s.jobs[j].ga)
  {
    hide All, Mut, Distinct, KeyDone;
    forall j | 0 <= j < |s.jobs|
      ensures Mut(s.jobs[j].ga) !! All(ha.kids[i].tree) && Mut(ha.kids[i].tree) !! All(s.jobs[j].ga)
    {
      assert JobOk(s, hb, ha, i, j);
    }
  }

  /** The slot's tree is apart from everything already in the base map. */
  lemma SlotApart(s: Progress, hb: Tree, ha: Tree, i: nat, fr: set<Node>)
    requires Good(s, hb, ha, i, fr) && i < |ha.kids|
    ensures var v := ha.kids[i].tree;
            && Mut(v) !! AllKids(s.kids) && MutKids(s.kids) !! All(v) && hb.node !in All(v)
            && Mut(v) !! MutKids(hb.kids) && Distinct(v)
            && forall j :: 0 <= j < |s.jobs| ==> Mut(s.jobs[j].ga) !! All(v) && Mut(v) !! All(s.jobs[j].ga)
  {
    hide ValueOk, JobsOk, All, Mut, AllKids, MutKids, Distinct, DistinctKids;
    SlotOfMap(hb, ha, i);
    EarlierSlots(ha.kids, i);
    SlotJobs(s, hb, ha, i);
    MutInAll(ha.kids[i].tree);
  }

  /** `p` is the first kid with the key, or the number of kids. */
  ghost predicate FirstAt(kids: seq<Kid>, key: string, p: nat) {
    && p <= |kids| && (p < |kids| ==> kids[p].key == key)
    && forall r :: 0 <= r < p ==> kids[r].key != key
  }

  lemma FirstAtIsFind(kids: seq<Kid>, pend: map<Node, Yaml>, key: string, p: nat)
    requires FirstAt(kids, key, p)
    ensures Find(AbsKids(kids, pend), key) == p
  {
    var es := AbsKids(kids, pend);
    assert forall r :: 0 <= r < |kids| ==> es[r].key == kids[r].key;
  }

  lemma AllKidsAppend(kids: seq<Kid>, k: Kid)
    ensures AllKids(kids + [k]) == AllKids(kids) + All(k.tree)
  {
    hide All;
    var b := kids + [k];
    forall n | n in AllKids(b) ensures n in AllKids(kids) + All(k.tree) {
      var j :| 0 <= j < |b| && n in All(b[j].tree);
    }
    forall n | n in AllKids(kids) ensures n in AllKids(b) {
      var j :| 0 <= j < |kids| && n in All(kids[j].tree);
      assert kids[j] == b[j];
    }
    assert b[|kids|] == k;
  }

  lemma MutKidsAppend(kids: seq<Kid>, k: Kid)
    ensures MutKids(kids + [k]) == MutKids(kids) + Mut(k.tree)
  {
    hide Mut;
    var b := kids + [k];
    forall n | n in MutKids(b) ensures n in MutKids(kids) + Mut(k.tree) {
      var j :| 0 <= j < |b| && n in Mut(b[j].tree);
    }
    forall n | n in MutKids(kids) ensures n in MutKids(b) {
      var j :| 0 <= j < |kids| && n in Mut(kids[j].tree);
      assert kids[j] == b[j];
    }
    assert b[|kids|] == k;
  }

  /** The nodes of the slots up to and including the next one. */
  lemma OneMore(kids: seq<Kid>, i: nat)
    requires i < |kids|
    ensures AllKids(kids[..i + 1]) == AllKids(kids[..i]) + All(kids[i].tree)
    ensures MutKids(kids[..i + 1]) == MutKids(kids[..i]) + Mut(kids[i].tree)
  {
    assert kids[..i + 1] == kids[..i] + [kids[i]];
    AllKidsAppend(kids[..i], kids[i]);
    MutKidsAppend(kids[..i], kids[i]);
  }

  /** The next key is new to the additional map so far, so no job sits at its position. */
  lemma NextKey(s: Progress, hb: Tree, ha: Tree, i: nat, p: nat)
    requires Apart(hb, ha) && i < |ha.kids| && JobsOk(s, hb, ha, i) && FirstAt(s.kids, ha.kids[i].key, p)
    ensures !KeyDone(ha, i, ha.kids[i].key)
    ensures forall j :: 0 <= j < |s.jobs| ==> s.ps[j] != p
    ensures p < |s.kids| ==> p < |hb.kids| && s.kids[p] == hb.kids[p]
  {
    var entries := ValKids(ha.kids);
    assert UniqueKeys(entries);
    hide All, Mut, Distinct, Val, WellFormed;
    forall q | 0 <= q < i ensures ha.kids[q].key != ha.kids[i].key {
      assert entries[q].key != entries[i].key;
    }
    forall j | 0 <= j < |s.jobs| ensures s.ps[j] != p {
      assert JobOk(s, hb, ha, i, j);
    }
  }

  lemma MapNode(t: Tree)
    requires t.TMap?
    ensures t.node in Mut(t)
  {
  }

  /** Nothing is pending inside a kid where no job sits. */
  lemma NothingPending(s: Progress, hb: Tree, ha: Tree, i: nat, p: nat)
    requires ha.TMap? && hb.TMap? && i <= |ha.kids| && JobsOk(s, hb, ha, i) && DistinctKids(s.kids)
    requires Tracks(s.pend, s.jobs) && p < |s.kids| && forall j :: 0 <= j < |s.jobs| ==> s.ps[j] != p
    ensures Mut(s.kids[p].tree) !! s.pend.Keys
  {
    MutInAll(s.kids[p].tree);
    hide All, Mut, Distinct, Val, Combine;
    forall n | n in s.pend ensures n !in Mut(s.kids[p].tree) {
      var j :| 0 <= j < |s.jobs| && s.jobs[j].gb.node == n;
      assert JobOk(s, hb, ha, i, j);
      MapNode(s.jobs[j].gb);
      assert Mut(s.kids[s.ps[j]].tree) !! All(s.kids[p].tree);
    }
  }

  lemma NextSuffix(entries: seq<Pair>, base: seq<Pair>, i: nat)
    requires i < |entries|
    ensures MergeEntries(base, entries[i..]) == MergeEntries(Put(base, entries[i]), entries[i + 1..])
  {
    assert entries[i..][0] == entries[i] && entries[i..][1..] == entries[i + 1..];
  }

  /** Both are maps: the merge of the slot is put off. */
  ghost function PutOff(s: Progress, ha: Tree, i: nat, p: nat): Progress
    requires ha.TMap? && i < |ha.kids| && p < |s.kids|
  {
    s.(jobs := s.jobs + [Job(s.kids[p].tree, ha.kids[i].tree)], ps := s.ps + [p], qs := s.qs + [i],
       pend := s.pend[s.kids[p].tree.node := Combine(Val(s.kids[p].tree), Val(ha.kids[i].tree))])
  }

  lemma TracksMore(pend: map<Node, Yaml>, jobs: seq<Job>, job: Job)
    requires Tracks(pend, jobs) && job.gb.node !in pend
    ensures Tracks(pend[job.gb.node := Combine(Val(job.gb), Val(job.ga))], jobs + [job])
  {
    hide Combine, Val;
    var jobs', pend' := jobs + [job], pend[job.gb.node := Combine(Val(job.gb), Val(job.ga))];
    forall j | 0 <= j < |jobs'|
      ensures jobs'[j].gb.node in pend' && pend'[jobs'[j].gb.node] == Combine(Val(jobs'[j].gb), Val(jobs'[j].ga))
    {
      if j < |jobs| {
        assert jobs'[j] == jobs[j] && jobs[j].gb.node in pend;
      }
    }
    assert jobs'[|jobs|] == job;
    forall n | n in pend ensures exists j :: 0 <= j < |jobs'| && jobs'[j].gb.node == n {
      var j :| 0 <= j < |jobs| && jobs[j].gb.node == n;
      assert jobs'[j].gb.node == n;
    }
  }

  /** Making one kid pending changes what the kids stand for at that kid only. */
  lemma PendOne(kids: seq<Kid>, pend: map<Node, Yaml>, p: nat, v: Yaml)
    requires DistinctKids(kids) && p < |kids| && kids[p].tree.TMap?
    ensures var node := kids[p].tree.node;
            AbsKids(kids, pend[node := v]) == AbsKids(kids, pend)[p := Pair(kids[p].key, v)]
  {
    var node := kids[p].tree.node;
    var before, after := AbsKids(kids, pend), AbsKids(kids, pend[node := v]);
    MapNode(kids[p].tree);
    forall r | 0 <= r < |kids| && r != p ensures after[r] == before[r] {
      assert Mut(kids[p].tree) !! All(kids[r].tree);
      MutInAll(kids[r].tree);
      AbsCong(kids[r].tree, pend, pend[node := v]);
    }
  }

  lemma PutOffValue(s: Progress, hb: Tree, ha: Tree, i: nat, p: nat)
    requires Apart(hb, ha) && i < |ha.kids| && DistinctKids(s.kids) && ValueOk(s, hb, ha, i)
    requires p < |s.kids| && FirstAt(s.kids, ha.kids[i].key, p)
    requires s.kids[p].tree.TMap? && Mut(s.kids[p].tree) !! s.pend.Keys
    requires Mut(s.kids[p].tree) <= MutKids(hb.kids)
    ensures ValueOk(PutOff(s, ha, i, p), hb, ha, i + 1)
  {
    hide Mut, MutKids, All, AllKids, Distinct, DistinctKids, Abs, Tracks, MergeEntries, Combine, Val, WellFormed;
    var s' := PutOff(s, ha, i, p);
    var entries := ValKids(ha.kids);
    var t := s.kids[p].tree;
    MapNode(t);
    AbsIsVal(t, s.pend);
    TracksMore(s.pend, s.jobs, Job(t, ha.kids[i].tree));
    PendOne(s.kids, s.pend, p, Combine(Val(t), Val(ha.kids[i].tree)));
    FirstAtIsFind(s.kids, s.pend, ha.kids[i].key, p);
    NextSuffix(entries, AbsKids(s.kids, s.pend), i);
  }

  /** A slot seen more does not disturb the jobs already there. */
  lemma JobsStay(s: Progress, s': Progress, hb: Tree, ha: Tree, i: nat, i': nat)
    requires ha.TMap? && hb.TMap? && i <= i' <= |ha.kids| && JobsOk(s, hb, ha, i)
    requires |s.jobs| <= |s'.jobs| == |s'.ps| == |s'.qs| && |s.kids| <= |s'.kids|
    requires forall j :: 0 <= j < |s.jobs| ==> s'.jobs[j] == s.jobs[j] && s'.ps[j] == s.ps[j] && s'.qs[j] == s.qs[j]
    requires forall j :: 0 <= j < |s.jobs| && s.ps[j] < |s.kids| ==> s'.kids[s.ps[j]] == s.kids[s.ps[j]]
    requires forall j :: 0 <= j < |s.jobs| ==>
      MutKids(s'.kids) !! All(s.jobs[j].ga) && Mut(s.jobs[j].ga) !! AllKids(s'.kids)
    ensures forall j :: 0 <= j < |s.jobs| ==> JobOk(s', hb, ha, i', j)
  {
    hide All, Mut, AllKids, MutKids;
    forall j | 0 <= j < |s.jobs| ensures JobOk(s', hb, ha, i', j) {
      assert JobOk(s, hb, ha, i, j);
    }
  }

  lemma KeysStay(ha: Tree, i: nat, key: string)
    requires ha.TMap? && i < |ha.kids|
    ensures KeyDone(ha, i + 1, key) <==> KeyDone(ha, i, key) || key == ha.kids[i].key
  {
    if KeyDone(ha, i, key) {
      var q :| 0 <= q < i && ha.kids[q].key == key;
    }
  }

  lemma JobsApart(s: Progress, hb: Tree, ha: Tree, i: nat)
    requires ha.TMap? && hb.TMap? && i <= |ha.kids| && JobsOk(s, hb, ha, i)
    ensures forall j :: 0 <= j < |s.jobs| ==> MutKids(s.kids) !! All(s.jobs[j].ga) && Mut(s.jobs[j].ga) !! AllKids(s.kids)
    ensures forall j :: 0 <= j < |s.jobs| ==> s.ps[j] < |s.kids| && s.qs[j] < i
  {
    hide All, Mut, AllKids, MutKids;
    forall j | 0 <= j < |s.jobs|
      ensures MutKids(s.kids) !! All(s.jobs[j].ga) && Mut(s.jobs[j].ga) !! AllKids(s.kids)
      ensures s.ps[j] < |s.kids| && s.qs[j] < i
    {
      assert JobOk(s, hb, ha, i, j);
    }
  }

  lemma PutOffJobs(s: Progress, hb: Tree, ha: Tree, i: nat, p: nat)
    requires Apart(hb, ha) && i < |ha.kids| && JobsOk(s, hb, ha, i)
    requires p < |s.kids| && s.kids[p].key == ha.kids[i].key
    requires s.kids[p].tree.TMap? && ha.kids[i].tree.TMap? && Mut(s.kids[p].tree) <= MutKids(hb.kids)
    requires MutKids(s.kids) !! All(ha.kids[i].tree) && Mut(ha.kids[i].tree) !! AllKids(s.kids)
    ensures JobsOk(PutOff(s, ha, i, p), hb, ha, i + 1)
  {
    hide All, Mut, AllKids, MutKids, Distinct, Val, Combine, WellFormed;
    var s', i' := PutOff(s, ha, i, p), i + 1;
    JobsApart(s, hb, ha, i);
    JobsStay(s, s', hb, ha, i, i');
    assert JobOk(s', hb, ha, i', |s.jobs|);
    forall q | 0 <= q < |s.kids| && !KeyDone(ha, i', s.kids[q].key) ensures q < |hb.kids| && s.kids[q] == hb.kids[q] {
      KeysStay(ha, i, s.kids[q].key);
    }
  }

  lemma NodesStay(s: Progress, s': Progress, hb: Tree, ha: Tree, i: nat, fr: set<Node>)
    requires hb.TMap? && ha.TMap? && i < |ha.kids| && NodesOk(s, hb, ha, i, fr) && s'.kids == s.kids
    ensures NodesOk(s', hb, ha, i + 1, fr)
  {
    hide All, Mut, AllKids, MutKids, Distinct, DistinctKids;
    OneMore(ha.kids, i);
  }

  lemma StepPutOff(s: Progress, hb: Tree, ha: Tree, i: nat, fr: set<Node>, p: nat)
    requires Good(s, hb, ha, i, fr) && i < |ha.kids| && p < |s.kids| && FirstAt(s.kids, ha.kids[i].key, p)
    requires s.kids[p].tree.TMap? && ha.kids[i].tree.TMap?
    ensures Good(PutOff(s, ha, i, p), hb, ha, i + 1, fr)
  {
    assert DistinctKids(s.kids) && Tracks(s.pend, s.jobs);
    hide All, Mut, Distinct, DistinctKids, Val, Combine, WellFormed, JobsOk, NodesOk, ValueOk, Tracks;
    NextKey(s, hb, ha, i, p);
    SlotApart(s, hb, ha, i, fr);
    assert Mut(s.kids[p].tree) <= MutKids(hb.kids);
    NothingPending(s, hb, ha, i, p);
    PutOffValue(s, hb, ha, i, p);
    PutOffJobs(s, hb, ha, i, p);
    NodesStay(s, PutOff(s, ha, i, p), hb, ha, i, fr);
  }

  // ----- a slot that replaces or adds a kid -----

  /** `t` can take the place of kid `p`, or follow the kids, for slot `i`. */
  ghost predicate Fits(s: Progress, hb: Tree, ha: Tree, i: nat, fr: set<Node>, p: nat, t: Tree, fr': set<Node>)
    requires hb.TMap? && ha.TMap? && i < |ha.kids| && p <= |s.kids|
  {
    var v := ha.kids[i].tree;
    && fr <= fr' && fr' !! All(hb) && fr' !! All(ha)
    && Distinct(t) && Mut(t) <= Mut(v) + (fr' - fr)
    && All(t) <= All(v) + (fr' - fr) + (if p < |s.kids| then All(s.kids[p].tree) else {})
    && Val(t) == if p < |s.kids| then Combine(Val(s.kids[p].tree), Val(v)) else Val(v)
  }

  ghost function Placed(s: Progress, key: string, p: nat, t: Tree): Progress
    requires p <= |s.kids|
  {
    s.(kids := if p < |s.kids| then s.kids[p := Kid(key, t)] else s.kids + [Kid(key, t)])
  }

  lemma PlacedAbs(kids: seq<Kid>, pend: map<Node, Yaml>, key: string, p: nat, t: Tree)
    requires p <= |kids|
    ensures var e := Pair(key, Abs(t, pend));
            && (p < |kids| ==> AbsKids(kids[p := Kid(key, t)], pend) == AbsKids(kids, pend)[p := e])
            && AbsKids(kids + [Kid(key, t)], pend) == AbsKids(kids, pend) + [e]
  {
    hide Abs;
  }

  lemma PlacedValue(s: Progress, hb: Tree, ha: Tree, i: nat, fr: set<Node>, p: nat, t: Tree, fr': set<Node>)
    requires Apart(hb, ha) && i < |ha.kids| && ValueOk(s, hb, ha, i)
    requires FirstAt(s.kids, ha.kids[i].key, p) && Fits(s, hb, ha, i, fr, p, t, fr')
    requires p < |s.kids| ==> Mut(s.kids[p].tree) !! s.pend.Keys
    requires Mut(ha.kids[i].tree) !! MutKids(hb.kids)
    ensures ValueOk(Placed(s, ha.kids[i].key, p, t), hb, ha, i + 1)
  {
    hide Mut, MutKids, All, AllKids, Distinct, MergeEntries, Combine, Val, WellFormed, Abs, Tracks;
    OldNodes(hb, |hb.kids|);
    AbsIsVal(t, s.pend);
    if p < |s.kids| {
      AbsIsVal(s.kids[p].tree, s.pend);
    }
    FirstAtIsFind(s.kids, s.pend, ha.kids[i].key, p);
    NextSuffix(ValKids(ha.kids), AbsKids(s.kids, s.pend), i);
    PlacedAbs(s.kids, s.pend, ha.kids[i].key, p, t);
  }

  lemma ReplacedNodes(kids: seq<Kid>, p: nat, k: Kid)
    requires p < |kids|
    ensures AllKids(kids[p := k]) <= AllKids(kids) + All(k.tree)
    ensures MutKids(kids[p := k]) <= MutKids(kids) + Mut(k.tree)
  {
    hide All, Mut;
    var kids' := kids[p := k];
    forall n | n in AllKids(kids') ensures n in AllKids(kids) + All(k.tree) {
      var j :| 0 <= j < |kids'| && n in All(kids'[j].tree);
    }
    forall n | n in MutKids(kids') ensures n in MutKids(kids) + Mut(k.tree) {
      var j :| 0 <= j < |kids'| && n in Mut(kids'[j].tree);
    }
  }

  /** The nodes after placing the slot's tree: those before, those of the slot, and new ones. */
  lemma PlacedKidNodes(s: Progress, hb: Tree, ha: Tree, i: nat, fr: set<Node>, p: nat, t: Tree, fr': set<Node>)
    requires hb.TMap? && ha.TMap? && i < |ha.kids| && p <= |s.kids| && Fits(s, hb, ha, i, fr, p, t, fr')
    ensures var kids' := Placed(s, ha.kids[i].key, p, t).kids; var v := ha.kids[i].tree;
            && AllKids(kids') <= AllKids(s.kids) + All(v) + (fr' - fr)
            && MutKids(kids') <= MutKids(s.kids) + Mut(v) + (fr' - fr)
  {
    hide All, Mut, AllKids, MutKids, Distinct, Val, Combine;
    var k := Kid(ha.kids[i].key, t);
    if p < |s.kids| {
      ReplacedNodes(s.kids, p, k);
    } else {
      AllKidsAppend(s.kids, k);
      MutKidsAppend(s.kids, k);
    }
  }

  lemma PlacedDistinct(s: Progress, hb: Tree, ha: Tree, i: nat, fr: set<Node>, p: nat, t: Tree, fr': set<Node>)
    requires hb.TMap? && ha.TMap? && i < |ha.kids| && p <= |s.kids| && Fits(s, hb, ha, i, fr, p, t, fr')
    requires DistinctKids(s.kids) && (fr' - fr) !! AllKids(s.kids) && (fr' - fr) !! MutKids(s.kids)
    requires Mut(ha.kids[i].tree) !! AllKids(s.kids) && MutKids(s.kids) !! All(ha.kids[i].tree)
    ensures DistinctKids(Placed(s, ha.kids[i].key, p, t).kids)
  {
    hide All, Mut, Distinct, Val, Combine;
    var kids' := Placed(s, ha.kids[i].key, p, t).kids;
    if p < |s.kids| {
      ReplaceKid(s.kids, kids', p);
    } else {
      forall j | 0 <= j < |s.kids|
        ensures kids'[j] == s.kids[j] && Mut(s.kids[j].tree) !! All(t) && Mut(t) !! All(s.kids[j].tree)
      {
        assert Mut(s.kids[j].tree) <= MutKids(s.kids) && All(s.kids[j].tree) <= AllKids(s.kids);
      }
      assert kids'[|s.kids|].tree == t;
    }
  }

  /** New nodes are apart from what the base map is made of. */
  lemma NewApart(s: Progress, hb: Tree, ha: Tree, i: nat, fr: set<Node>, fr': set<Node>)
    requires hb.TMap? && ha.TMap? && i <= |ha.kids| && NodesOk(s, hb, ha, i, fr)
    requires fr' !! All(hb) && fr' !! All(ha)
    ensures (fr' - fr) !! AllKids(s.kids) && (fr' - fr) !! MutKids(s.kids) && hb.node !in fr'
  {
    forall n | n in AllKids(s.kids) + MutKids(s.kids) ensures n !in fr' - fr {
      OldNodes(hb, |hb.kids|);
      OldNodes(ha, i);
    }
    OldNodes(hb, 0);
  }

  lemma PlacedNodes(s: Progress, hb: Tree, ha: Tree, i: nat, fr: set<Node>, p: nat, t: Tree, fr': set<Node>)
    requires hb.TMap? && ha.TMap? && i < |ha.kids| && p <= |s.kids| && Fits(s, hb, ha, i, fr, p, t, fr')
    requires NodesOk(s, hb, ha, i, fr) && hb.node !in All(ha.kids[i].tree)
    requires Mut(ha.kids[i].tree) !! AllKids(s.kids) && MutKids(s.kids) !! All(ha.kids[i].tree)
    ensures NodesOk(Placed(s, ha.kids[i].key, p, t), hb, ha, i + 1, fr')
  {
    hide All, Mut, AllKids, MutKids, Distinct, DistinctKids, Val, Combine;
    NewApart(s, hb, ha, i, fr, fr');
    PlacedKidNodes(s, hb, ha, i, fr, p, t, fr');
    PlacedDistinct(s, hb, ha, i, fr, p, t, fr');
    OneMore(ha.kids, i);
  }

  /** The nodes of the first slots of a map are nodes of the map. */
  lemma OldNodes(t: Tree, i: nat)
    requires t.TMap? && i <= |t.kids|
    ensures AllKids(t.kids[..i]) <= All(t) && MutKids(t.kids[..i]) <= All(t) && t.node in All(t)
    ensures i == |t.kids| ==> t.kids[..i] == t.kids
  {
    hide Mut;
    forall n | n in AllKids(t.kids[..i]) ensures n in All(t) {
      var j :| 0 <= j < i && n in All(t.kids[..i][j].tree);
      assert t.kids[..i][j] == t.kids[j];
    }
    forall n | n in MutKids(t.kids[..i]) ensures n in All(t) {
      var j :| 0 <= j < i && n in Mut(t.kids[..i][j].tree);
      assert t.kids[..i][j] == t.kids[j];
      MutInAll(t.kids[j].tree);
    }
  }

  lemma JobFromSlot(s: Progress, hb: Tree, ha: Tree, i: nat)
    requires hb.TMap? && ha.TMap? && i <= |ha.kids| && JobsOk(s, hb, ha, i)
    ensures forall j :: 0 <= j < |s.jobs| ==> All(s.jobs[j].ga) <= All(ha) && Mut(s.jobs[j].ga) <= All(ha)
  {
    hide All, Mut, AllKids, MutKids, KeyDone;
    forall j | 0 <= j < |s.jobs| ensures All(s.jobs[j].ga) <= All(ha) && Mut(s.jobs[j].ga) <= All(ha) {
      assert JobOk(s, hb, ha, i, j);
      KidFacts(ha, s.qs[j]);
      MutInAll(ha);
    }
  }

  /** What is still to be merged in is apart from the kids after the slot's tree is placed. */
  lemma PlacedApart(s: Progress, hb: Tree, ha: Tree, i: nat, fr: set<Node>, p: nat, t: Tree, fr': set<Node>)
    requires hb.TMap? && ha.TMap? && i < |ha.kids| && JobsOk(s, hb, ha, i) && p <= |s.kids|
    requires DistinctKids(ha.kids) && Fits(s, hb, ha, i, fr, p, t, fr')
    ensures var kids' := Placed(s, ha.kids[i].key, p, t).kids;
            forall j :: 0 <= j < |s.jobs| ==> MutKids(kids') !! All(s.jobs[j].ga) && Mut(s.jobs[j].ga) !! AllKids(kids')
  {
    hide All, Mut, AllKids, MutKids, Distinct, DistinctKids, Val, Combine, JobsOk, Placed;
    JobsApart(s, hb, ha, i);
    JobFromSlot(s, hb, ha, i);
    SlotJobs(s, hb, ha, i);
    PlacedKidNodes(s, hb, ha, i, fr, p, t, fr');
  }

  lemma PlacedJobs(s: Progress, hb: Tree, ha: Tree, i: nat, p: nat, t: Tree)
    requires hb.TMap? && ha.TMap? && i < |ha.kids| && JobsOk(s, hb, ha, i) && FirstAt(s.kids, ha.kids[i].key, p)
    requires forall j :: 0 <= j < |s.jobs| ==> s.ps[j] != p
    requires var kids' := Placed(s, ha.kids[i].key, p, t).kids;
             forall j :: 0 <= j < |s.jobs| ==> MutKids(kids') !! All(s.jobs[j].ga) && Mut(s.jobs[j].ga) !! AllKids(kids')
    ensures JobsOk(Placed(s, ha.kids[i].key, p, t), hb, ha, i + 1)
  {
    var s', i' := Placed(s, ha.kids[i].key, p, t), i + 1;
    hide All, Mut, AllKids, MutKids, KeyDone, JobOk;
    JobsStay(s, s', hb, ha, i, i');
    forall q | 0 <= q < |s'.kids| && !KeyDone(ha, i', s'.kids[q].key) ensures q < |hb.kids| && s'.kids[q] == hb.kids[q] {
      KeysStay(ha, i, s'.kids[q].key);
      assert s'.kids[q] == s.kids[q];
    }
  }

  lemma StepPlace(s: Progress, hb: Tree, ha: Tree, i: nat, fr: set<Node>, p: nat, t: Tree, fr': set<Node>)
    requires Good(s, hb, ha, i, fr) && i < |ha.kids| && FirstAt(s.kids, ha.kids[i].key, p)
    requires Fits(s, hb, ha, i, fr, p, t, fr')
    ensures Good(Placed(s, ha.kids[i].key, p, t), hb, ha, i + 1, fr')
  {
    assert DistinctKids(s.kids) && Tracks(s.pend, s.jobs);
    hide All, Mut, Distinct, DistinctKids, Val, Combine, WellFormed, JobsOk, NodesOk, ValueOk, Tracks, Fits;
    NextKey(s, hb, ha, i, p);
    SlotApart(s, hb, ha, i, fr);
    if p < |s.kids| {
      NothingPending(s, hb, ha, i, p);
    }
    PlacedValue(s, hb, ha, i, fr, p, t, fr');
    PlacedNodes(s, hb, ha, i, fr, p, t, fr');
    SlotOfMap(hb, ha, i);
    PlacedApart(s, hb, ha, i, fr, p, t, fr');
    PlacedJobs(s, hb, ha, i, p, t);
  }
}
