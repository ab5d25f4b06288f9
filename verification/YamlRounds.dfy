/**
 One round of the worklist, on trees: a pair is taken, its merge is finished down to the maps nested in
 both, and those become new pairs.
 */
module YamlRounds {
  import opened YamlMerge
  import opened YamlTrees
  import opened YamlSteps

  ghost predicate JobMaps(job: Job) {
    job.gb.TMap? && job.ga.TMap?
  }

  /** No two of the merges write to, or bring in, the same nodes. */
  ghost predicate PairwiseApart(jobs: seq<Job>) {
    forall j, k :: 0 <= j < |jobs| && 0 <= k < |jobs| && j != k ==>
      Mut(jobs[j].gb) !! Mut(jobs[k].gb) && Mut(jobs[j].ga) !! All(jobs[k].ga)
  }

  /** A merge into a part of `g` that brings in nothing `g` has. */
  ghost predicate JobIn(g: Tree, job: Job) {
    && JobMaps(job) && Sub(g, job.gb) && Distinct(job.ga) && WellFormed(Val(job.ga))
    && Mut(g) !! All(job.ga) && Mut(job.ga) !! All(g)
  }

  ghost predicate JobsIn(g: Tree, jobs: seq<Job>) {
    && PairwiseApart(jobs)
    && forall j :: 0 <= j < |jobs| ==> JobIn(g, jobs[j])
  }

  /** `hb'` is the map `hb` with `ha` merged in, except for the maps nested in both, which are `jobs`. */
  ghost predicate Merged(hb: Tree, ha: Tree, hb': Tree, jobs: seq<Job>, pend: map<Node, Yaml>) {
    && hb.TMap? && ha.TMap? && hb'.TMap? && hb'.node == hb.node && Distinct(hb')
    && Mut(hb') <= Mut(hb) + Mut(ha) + (All(hb') - All(hb) - All(ha))
    && Tracks(pend, jobs) && pend.Keys <= Mut(hb) - {hb.node}
    && Abs(hb', pend) == Combine(Val(hb), Val(ha))
    && JobsIn(hb', jobs)
    && forall j :: 0 <= j < |jobs| ==> PartOf(hb, ha, jobs[j])
  }

  /** The merge is of a part of `ha` into a part of `hb`. */
  ghost predicate PartOf(hb: Tree, ha: Tree, job: Job) {
    && Mut(job.gb) <= Mut(hb) && Sub(ha, job.ga) && All(job.ga) <= All(ha) && Mut(job.ga) <= Mut(ha) - {ha.node}
  }

  lemma KidWellFormed(ha: Tree, q: nat)
    requires ha.TMap? && WellFormed(Val(ha)) && q < |ha.kids|
    ensures WellFormed(Val(ha.kids[q].tree))
  {
    assert Val(ha).entries[q] == ValKids(ha.kids)[q];
  }

  lemma FinishedJob(s: Progress, hb: Tree, ha: Tree, fr: set<Node>, j: nat)
    requires hb.TMap? && ha.TMap? && Good(s, hb, ha, |ha.kids|, fr) && j < |s.jobs|
    ensures JobIn(TMap(hb.node, s.kids), s.jobs[j])
    ensures PartOf(hb, ha, s.jobs[j])
  {
    hide All, Mut, Distinct, WellFormed, Val, Sub, ValueOk, NodesOk;
    var job, hb' := s.jobs[j], TMap(hb.node, s.kids);
    assert JobOk(s, hb, ha, |ha.kids|, j);
    KidWellFormed(ha, s.qs[j]);
    KidFacts(ha, s.qs[j]);
    KidFacts(hb', s.ps[j]);
    OwnNodes(hb);
    OwnNodes(hb');
  }

  lemma SlotKeys(t: Tree, p: nat, q: nat)
    requires t.TMap? && WellFormed(Val(t)) && p < |t.kids| && q < |t.kids| && p != q
    ensures t.kids[p].key != t.kids[q].key
  {
    var entries := ValKids(t.kids);
    assert UniqueKeys(entries);
    assert entries[p].key != entries[q].key;
  }

  lemma FinishedApart(s: Progress, hb: Tree, ha: Tree, fr: set<Node>, j: nat, k: nat)
    requires hb.TMap? && ha.TMap? && Good(s, hb, ha, |ha.kids|, fr) && j < |s.jobs| && k < |s.jobs| && j != k
    ensures Mut(s.jobs[j].gb) !! Mut(s.jobs[k].gb) && Mut(s.jobs[j].ga) !! All(s.jobs[k].ga)
  {
    hide ValueOk, All, Mut, AllKids, MutKids, Distinct, Val, WellFormed;
    OwnNodes(ha);
    assert JobOk(s, hb, ha, |ha.kids|, j) && JobOk(s, hb, ha, |ha.kids|, k);
    assert s.qs[j] != s.qs[k];
    SlotKeys(ha, s.qs[j], s.qs[k]);
    assert s.ps[j] != s.ps[k];
    MutInAll(s.jobs[k].gb);
  }

  lemma FinishedNodes(s: Progress, hb: Tree, ha: Tree, fr: set<Node>)
    requires hb.TMap? && ha.TMap? && NodesOk(s, hb, ha, |ha.kids|, fr)
    ensures var hb' := TMap(hb.node, s.kids);
            Distinct(hb') && Mut(hb') <= Mut(hb) + Mut(ha) + (All(hb') - All(hb) - All(ha))
  {
    hide All, Mut, AllKids, MutKids, Distinct, DistinctKids;
    OwnNodes(hb);
    OwnNodes(ha);
    OwnNodes(TMap(hb.node, s.kids));
    MutInAll(TMap(hb.node, s.kids));
    assert ha.kids[..|ha.kids|] == ha.kids;
  }

  lemma FinishedValue(s: Progress, hb: Tree, ha: Tree, fr: set<Node>)
    requires hb.TMap? && ha.TMap? && Good(s, hb, ha, |ha.kids|, fr)
    ensures Abs(TMap(hb.node, s.kids), s.pend) == Combine(Val(hb), Val(ha))
    ensures Tracks(s.pend, s.jobs) && s.pend.Keys <= Mut(hb) - {hb.node}
  {
    hide JobsOk, NodesOk;
    assert ValKids(ha.kids)[|ha.kids|..] == [];
    assert hb.node !in MutKids(hb.kids) by {
      forall n | n in MutKids(hb.kids) ensures n != hb.node {
        var i :| 0 <= i < |hb.kids| && n in Mut(hb.kids[i].tree);
        KidFacts(hb, i);
      }
    }
  }

  /** When all slots are done, the base map is merged. */
  lemma Finished(s: Progress, hb: Tree, ha: Tree, fr: set<Node>)
    requires hb.TMap? && ha.TMap? && Good(s, hb, ha, |ha.kids|, fr)
    ensures Merged(hb, ha, TMap(hb.node, s.kids), s.jobs, s.pend)
  {
    hide All, Mut, Distinct, JobsOk, ValueOk, NodesOk, JobIn, PartOf, Abs, Val, Combine, Tracks;
    var hb' := TMap(hb.node, s.kids);
    forall j | 0 <= j < |s.jobs|
      ensures JobIn(hb', s.jobs[j])
      ensures PartOf(hb, ha, s.jobs[j])
    {
      FinishedJob(s, hb, ha, fr, j);
    }
    forall j, k | 0 <= j < |s.jobs| && 0 <= k < |s.jobs| && j != k
      ensures Mut(s.jobs[j].gb) !! Mut(s.jobs[k].gb) && Mut(s.jobs[j].ga) !! All(s.jobs[k].ga)
    {
      FinishedApart(s, hb, ha, fr, j, k);
    }
    FinishedValue(s, hb, ha, fr);
    FinishedNodes(s, hb, ha, fr);
  }

  // ----- the next round -----

  /** What remains after job `c` was taken and gave the jobs `more`. */
  ghost function Rest(jobs: seq<Job>, c: nat): (r: seq<Job>)
    requires c < |jobs|
    ensures |r| == |jobs| - 1
    ensures forall j :: 0 <= j < |r| ==> r[j] == jobs[if j < c then j else j + 1]
  {
    jobs[..c] + jobs[c + 1..]
  }

  /** The nodes `hb'` has beyond those of `hb` and `ha` are new to everything. */
  ghost predicate OnlyNew(g: Tree, jobs: seq<Job>, hb: Tree, ha: Tree, hb': Tree) {
    var new' := All(hb') - All(hb) - All(ha);
    new' !! All(g) && forall j :: 0 <= j < |jobs| ==> new' !! All(jobs[j].ga)
  }

  lemma NextTree(g: Tree, jobs: seq<Job>, c: nat, hb': Tree, more: seq<Job>, pend: map<Node, Yaml>)
    requires Distinct(g) && JobsIn(g, jobs) && c < |jobs|
    requires Merged(jobs[c].gb, jobs[c].ga, hb', more, pend) && OnlyNew(g, jobs, jobs[c].gb, jobs[c].ga, hb')
    ensures Distinct(Subst(g, jobs[c].gb.node, hb'))
  {
    hide Abs, Val, Combine, Tracks, WellFormed, Distinct, Subst, All, Mut, Sub, PairwiseApart, PartOf;
    var job := jobs[c];
    assert JobIn(g, job);
    MutInAll(g);
    SubFacts(g, job.gb);
    SubstDistinct(g, job.gb, hb');
  }

  /** A job that was waiting is still in order after the round. */
  lemma WaitingJob(g: Tree, jobs: seq<Job>, c: nat, hb': Tree, more: seq<Job>, pend: map<Node, Yaml>, k: nat)
    requires Distinct(g) && JobsIn(g, jobs) && c < |jobs| && k < |jobs| && k != c
    requires Merged(jobs[c].gb, jobs[c].ga, hb', more, pend) && OnlyNew(g, jobs, jobs[c].gb, jobs[c].ga, hb')
    ensures JobIn(Subst(g, jobs[c].gb.node, hb'), jobs[k])
  {
    hide Abs, Val, Combine, Tracks, WellFormed, Distinct, Subst, All, Mut, Sub;
    var job := jobs[c];
    assert JobIn(g, job) && JobIn(g, jobs[k]);
    MutInAll(jobs[k].ga);
    SubFacts(g, job.gb);
    SubstNodes(g, job.gb.node, hb');
    SubstKeeps(g, job.gb, hb', jobs[k].gb);
  }

  /** A job found in the round is in order. */
  lemma FoundJob(g: Tree, jobs: seq<Job>, c: nat, hb': Tree, more: seq<Job>, pend: map<Node, Yaml>, k: nat)
    requires Distinct(g) && JobsIn(g, jobs) && c < |jobs| && k < |more|
    requires Merged(jobs[c].gb, jobs[c].ga, hb', more, pend)
    ensures JobIn(Subst(g, jobs[c].gb.node, hb'), more[k])
  {
    hide Abs, Val, Combine, Tracks, WellFormed, Distinct, Subst, All, Mut, Sub;
    var job := jobs[c];
    assert JobIn(g, job) && JobIn(hb', more[k]);
    SubstNodes(g, job.gb.node, hb');
    SubstHas(g, job.gb, hb');
    SubTrans(Subst(g, job.gb.node, hb'), hb', more[k].gb);
  }

  lemma NextApart(g: Tree, jobs: seq<Job>, c: nat, hb': Tree, more: seq<Job>, pend: map<Node, Yaml>)
    requires JobsIn(g, jobs) && c < |jobs| && Merged(jobs[c].gb, jobs[c].ga, hb', more, pend)
    ensures PairwiseApart(Rest(jobs, c) + more)
  {
    hide Abs, Val, Combine, Tracks, WellFormed, Distinct, All, Mut, Sub, JobIn;
    var rest := Rest(jobs, c);
    var jobs' := rest + more;
    MutInAll(jobs[c].ga);
    forall j, k | 0 <= j < |jobs'| && 0 <= k < |jobs'| && j != k
      ensures Mut(jobs'[j].gb) !! Mut(jobs'[k].gb) && Mut(jobs'[j].ga) !! All(jobs'[k].ga)
    {
      var j', k' := if j < c then j else j + 1, if k < c then k else k + 1;
      if j < |rest| && k < |rest| {
        assert jobs'[j] == jobs[j'] && jobs'[k] == jobs[k'];
      } else if j < |rest| {
        assert jobs'[j] == jobs[j'] && jobs'[k] == more[k - |rest|];
        assert Mut(jobs[j'].gb) !! Mut(jobs[c].gb) && Mut(jobs[j'].ga) !! All(jobs[c].ga);
      } else if k < |rest| {
        assert jobs'[k] == jobs[k'] && jobs'[j] == more[j - |rest|];
        assert Mut(jobs[c].gb) !! Mut(jobs[k'].gb) && Mut(jobs[c].ga) !! All(jobs[k'].ga);
      } else {
        assert jobs'[j] == more[j - |rest|] && jobs'[k] == more[k - |rest|];
      }
    }
  }

  ghost function NextPend(p: map<Node, Yaml>, b: Node, p0: map<Node, Yaml>): map<Node, Yaml> {
    (p - {b}) + p0
  }

  /** The node of another job is neither the node of this one nor among the merges it gave. */
  lemma OtherNode(g: Tree, jobs: seq<Job>, c: nat, k: nat)
    requires JobsIn(g, jobs) && c < |jobs| && k < |jobs| && k != c
    ensures jobs[k].gb.node !in Mut(jobs[c].gb) && jobs[k].gb.node !in Mut(jobs[c].ga)
    ensures jobs[k].gb.node != jobs[c].gb.node && jobs[k].gb.node in All(g)
  {
    assert JobIn(g, jobs[c]) && JobIn(g, jobs[k]);
    MutInAll(jobs[c].ga);
    SubFacts(g, jobs[k].gb);
  }

  lemma NextTracks(g: Tree, jobs: seq<Job>, c: nat, hb': Tree, more: seq<Job>, p: map<Node, Yaml>, p0: map<Node, Yaml>)
    requires JobsIn(g, jobs) && c < |jobs| && Tracks(p, jobs) && Merged(jobs[c].gb, jobs[c].ga, hb', more, p0)
    ensures Tracks(NextPend(p, jobs[c].gb.node, p0), Rest(jobs, c) + more)
  {
    hide Abs, Val, Combine, WellFormed, Distinct, All, Mut, Sub, JobsIn;
    var rest := Rest(jobs, c);
    var jobs', p' := rest + more, NextPend(p, jobs[c].gb.node, p0);
    forall j | 0 <= j < |jobs'|
      ensures jobs'[j].gb.node in p' && p'[jobs'[j].gb.node] == Combine(Val(jobs'[j].gb), Val(jobs'[j].ga))
    {
      if j < |rest| {
        var k := if j < c then j else j + 1;
        assert jobs'[j] == jobs[k];
        OtherNode(g, jobs, c, k);
      } else {
        assert jobs'[j] == more[j - |rest|];
      }
    }
    forall n | n in p' ensures exists j :: 0 <= j < |jobs'| && jobs'[j].gb.node == n {
      if n in p0 {
        var j :| 0 <= j < |more| && more[j].gb.node == n;
        assert jobs'[|rest| + j].gb.node == n;
      } else {
        var k :| 0 <= k < |jobs| && jobs[k].gb.node == n;
        var j := if k < c then k else k - 1;
        assert jobs'[j] == jobs[k];
      }
    }
  }

  /** Inside the merged map, only the merges it gave are pending. */
  lemma PendingInside(g: Tree, jobs: seq<Job>, c: nat, hb': Tree, more: seq<Job>, p: map<Node, Yaml>, p0: map<Node, Yaml>)
    requires JobsIn(g, jobs) && c < |jobs| && Tracks(p, jobs) && Merged(jobs[c].gb, jobs[c].ga, hb', more, p0)
    requires OnlyNew(g, jobs, jobs[c].gb, jobs[c].ga, hb')
    ensures Agree(p0, NextPend(p, jobs[c].gb.node, p0), Mut(hb'))
  {
    hide Val, Combine, WellFormed, Distinct, All, Mut, JobsIn, Abs;
    var p' := NextPend(p, jobs[c].gb.node, p0);
    forall n | n in p && n != jobs[c].gb.node ensures n !in Mut(hb') {
      var k :| 0 <= k < |jobs| && jobs[k].gb.node == n;
      OtherNode(g, jobs, c, k);
    }
  }

  /** Outside the merged map, the same merges are pending as before. */
  lemma PendingOutside(g: Tree, jobs: seq<Job>, c: nat, hb': Tree, more: seq<Job>, p: map<Node, Yaml>, p0: map<Node, Yaml>)
    requires c < |jobs| && Merged(jobs[c].gb, jobs[c].ga, hb', more, p0)
    ensures Agree(p, NextPend(p, jobs[c].gb.node, p0), Mut(g) - Mut(jobs[c].gb))
  {
    hide Val, Combine, Distinct, All, Mut, JobsIn, Abs;
    MapNode(jobs[c].gb);
  }

  /** The round does not change what the whole tree stands for. */
  lemma NextValue(g: Tree, jobs: seq<Job>, c: nat, hb': Tree, more: seq<Job>, p: map<Node, Yaml>, p0: map<Node, Yaml>)
    requires Distinct(g) && JobsIn(g, jobs) && c < |jobs| && Tracks(p, jobs)
    requires Merged(jobs[c].gb, jobs[c].ga, hb', more, p0) && OnlyNew(g, jobs, jobs[c].gb, jobs[c].ga, hb')
    ensures Abs(Subst(g, jobs[c].gb.node, hb'), NextPend(p, jobs[c].gb.node, p0)) == Abs(g, p)
  {
    hide Val, Combine, WellFormed, Distinct, All, Mut, Sub, PairwiseApart, Abs, Subst, NextPend, Agree;
    var job := jobs[c];
    assert JobIn(g, job);
    assert job.gb.node in p && p[job.gb.node] == Combine(Val(job.gb), Val(job.ga)) == Abs(hb', p0);
    hide Tracks, Merged, JobsIn;
    var p' := NextPend(p, job.gb.node, p0);
    PendingInside(g, jobs, c, hb', more, p, p0);
    PendingOutside(g, jobs, c, hb', more, p, p0);
    AbsCong(hb', p0, p');
    AbsSubst(g, job.gb, hb', p, p');
  }

  /** One round: the tree, the pairs and the record of what is pending stay in order, and the tree
      stands for the same configuration. */
  lemma Round(g: Tree, jobs: seq<Job>, c: nat, hb': Tree, more: seq<Job>, p: map<Node, Yaml>, p0: map<Node, Yaml>)
    requires Distinct(g) && JobsIn(g, jobs) && c < |jobs| && Tracks(p, jobs)
    requires Merged(jobs[c].gb, jobs[c].ga, hb', more, p0) && OnlyNew(g, jobs, jobs[c].gb, jobs[c].ga, hb')
    ensures var g' := Subst(g, jobs[c].gb.node, hb');
            var jobs', p' := Rest(jobs, c) + more, NextPend(p, jobs[c].gb.node, p0);
            Distinct(g') && JobsIn(g', jobs') && Tracks(p', jobs') && Abs(g', p') == Abs(g, p)
  {
    hide *;
    NextTree(g, jobs, c, hb', more, p0);
    NextTracks(g, jobs, c, hb', more, p, p0);
    NextValue(g, jobs, c, hb', more, p, p0);
    NextJobs(g, jobs, c, hb', more, p0);
  }

  lemma NextJob(g: Tree, jobs: seq<Job>, c: nat, hb': Tree, more: seq<Job>, p0: map<Node, Yaml>, j: nat)
    requires Distinct(g) && JobsIn(g, jobs) && c < |jobs| && j < |Rest(jobs, c) + more|
    requires Merged(jobs[c].gb, jobs[c].ga, hb', more, p0) && OnlyNew(g, jobs, jobs[c].gb, jobs[c].ga, hb')
    ensures JobIn(Subst(g, jobs[c].gb.node, hb'), (Rest(jobs, c) + more)[j])
  {
    hide *;
    var rest := Rest(jobs, c);
    if j < |rest| {
      WaitingJob(g, jobs, c, hb', more, p0, if j < c then j else j + 1);
    } else {
      FoundJob(g, jobs, c, hb', more, p0, j - |rest|);
    }
  }

  lemma NextJobs(g: Tree, jobs: seq<Job>, c: nat, hb': Tree, more: seq<Job>, p0: map<Node, Yaml>)
    requires Distinct(g) && JobsIn(g, jobs) && c < |jobs|
    requires Merged(jobs[c].gb, jobs[c].ga, hb', more, p0) && OnlyNew(g, jobs, jobs[c].gb, jobs[c].ga, hb')
    ensures JobsIn(Subst(g, jobs[c].gb.node, hb'), Rest(jobs, c) + more)
  {
    var g', jobs' := Subst(g, jobs[c].gb.node, hb'), Rest(jobs, c) + more;
    forall j | 0 <= j < |jobs'| ensures JobIn(g', jobs'[j]) {
      hide *;
      NextJob(g, jobs, c, hb', more, p0, j);
    }
    NextApart(g, jobs, c, hb', more, p0);
    hide JobIn, PairwiseApart, Distinct, Merged, OnlyNew, Subst;
  }

  lemma JobApart(g: Tree, job: Job)
    requires Distinct(g) && JobIn(g, job)
    ensures Apart(job.gb, job.ga)
  {
    SubFacts(g, job.gb);
  }

  /** What is still to be merged in is not touched by the round. */
  lemma WaitingHolds(g: Tree, jobs: seq<Job>, c: nat, m: map<Node, Shape>, m': map<Node, Shape>, j: nat)
    requires JobsIn(g, jobs) && c < |jobs| && j < |jobs| && Holds(jobs[j].ga, m)
    requires forall n :: n in m && n != jobs[c].gb.node ==> n in m' && m'[n] == m[n]
    ensures Holds(jobs[j].ga, m')
  {
    assert JobIn(g, jobs[c]) && JobIn(g, jobs[j]);
    SubFacts(g, jobs[c].gb);
    MapNode(jobs[c].gb);
    HoldsFrame(jobs[j].ga, m, m');
  }

  lemma FoundHolds(hb: Tree, ha: Tree, hb': Tree, more: seq<Job>, p0: map<Node, Yaml>, m: map<Node, Shape>, j: nat)
    requires Merged(hb, ha, hb', more, p0) && Holds(ha, m) && j < |more|
    ensures Holds(more[j].ga, m)
  {
    assert PartOf(hb, ha, more[j]);
    SubHolds(ha, more[j].ga, m);
  }

  /** After the round, the heap holds what is still to be merged in. */
  lemma RoundHoldsJobs(g: Tree, jobs: seq<Job>, c: nat, hb': Tree, more: seq<Job>, p0: map<Node, Yaml>,
                       m: map<Node, Shape>, m': map<Node, Shape>)
    requires JobsIn(g, jobs) && c < |jobs| && Merged(jobs[c].gb, jobs[c].ga, hb', more, p0)
    requires forall j :: 0 <= j < |jobs| ==> Holds(jobs[j].ga, m)
    requires forall n :: n in m && n != jobs[c].gb.node ==> n in m' && m'[n] == m[n]
    ensures forall j :: 0 <= j < |Rest(jobs, c) + more| ==> Holds((Rest(jobs, c) + more)[j].ga, m')
  {
    hide *;
    var rest := Rest(jobs, c);
    WaitingHolds(g, jobs, c, m, m', c);
    forall j | 0 <= j < |rest + more| ensures Holds((rest + more)[j].ga, m') {
      if j < |rest| {
        WaitingHolds(g, jobs, c, m, m', if j < c then j else j + 1);
      } else {
        FoundHolds(jobs[c].gb, jobs[c].ga, hb', more, p0, m', j - |rest|);
      }
    }
  }

  /** After the round, the heap holds the new tree. */
  lemma RoundHolds(g: Tree, jobs: seq<Job>, c: nat, hb': Tree, more: seq<Job>, p0: map<Node, Yaml>,
                   m: map<Node, Shape>, m': map<Node, Shape>)
    requires Distinct(g) && JobsIn(g, jobs) && c < |jobs| && Merged(jobs[c].gb, jobs[c].ga, hb', more, p0)
    requires Holds(g, m) && Holds(hb', m')
    requires forall n :: n in m && n != jobs[c].gb.node ==> n in m' && m'[n] == m[n]
    ensures Holds(Subst(g, jobs[c].gb.node, hb'), m')
  {
    hide Distinct, All, Mut, Sub, Subst, Tracks, Holds, Abs, Val, Combine, WellFormed;
    assert JobIn(g, jobs[c]);
    HoldsSubst(g, jobs[c].gb, hb', m, m');
  }

  lemma {:induction false} SubHolds(g: Tree, h: Tree, m: map<Node, Shape>)
    requires Sub(g, h) && Holds(g, m)
    ensures Holds(h, m)
    decreases g
  {
    if g != h {
      var i :| 0 <= i < |g.kids| && Sub(g.kids[i].tree, h);
      SubHolds(g.kids[i].tree, h, m);
    }
  }
}
