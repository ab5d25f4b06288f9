/**
 The configuration of the agent: the local file with the files of its groups merged in, one after
 another, and read back by key path.
 */
module Configuration {
  import opened Options
  import opened Numerals
  import opened YamlMerge
  import opened YamlTrees
  import opened YamlRoots
  import opened YamlSteps
  import opened YamlWorklist

  function Loaded(files: seq<Option<Yaml>>): (r: seq<Yaml>)
    requires forall i :: 0 <= i < |files| ==> files[i].Some?
    ensures |r| == |files| && forall i :: 0 <= i < |files| ==> r[i] == files[i].value
  {
    seq(|files|, i requires 0 <= i < |files| => files[i].value)
  }

  ghost function Vals(trees: seq<Option<Tree>>): (r: seq<Option<Yaml>>)
    ensures |r| == |trees|
    ensures forall i :: 0 <= i < |trees| ==> r[i] == if trees[i].Some? then Some(Val(trees[i].value)) else None
  {
    seq(|trees|, i requires 0 <= i < |trees| => if trees[i].Some? then Some(Val(trees[i].value)) else None)
  }

  /** A file as loaded: no keys twice, and no node on a path of maps shared inside it. */
  ghost predicate FileOk(t: Tree) {
    Distinct(RootTree(t)) && WellFormed(Val(t))
  }

  ghost predicate TreesApart(a: Tree, b: Tree) {
    Own(a) !! All(b) && Own(b) !! All(a)
  }

  /** The files, and the configuration they are to be merged into, share no node on a path of maps. */
  ghost predicate FilesApart(t: Tree, trees: seq<Option<Tree>>, from: nat) {
    && (forall k :: from <= k < |trees| && trees[k].Some? ==> TreesApart(t, trees[k].value))
    && (forall j, k :: from <= j < |trees| && from <= k < |trees| && j != k && trees[j].Some? && trees[k].Some? ==>
          TreesApart(trees[j].value, trees[k].value))
  }

  ghost predicate FilesHold(trees: seq<Option<Tree>>, from: nat, m: map<Node, Shape>)
  {
    forall k :: from <= k < |trees| && trees[k].Some? ==> Holds(trees[k].value, m)
  }

  /** The nodes of the files from one on. */
  ghost function RestNodes(trees: seq<Option<Tree>>, from: nat): (r: set<Node>)
    ensures forall k :: from <= k < |trees| && trees[k].Some? ==> All(trees[k].value) <= r
    ensures forall n :: n in r ==> exists k :: from <= k < |trees| && trees[k].Some? && n in All(trees[k].value)
  {
    set k, n | from <= k < |trees| && trees[k].Some? && n in All(trees[k].value) :: n
  }

  ghost predicate FilesNow(trees: seq<Option<Tree>>, from: nat, m: map<Node, Shape>)
    reads m.Keys
  {
    forall n :: n in RestNodes(trees, from) && n in m ==> n.shape == m[n]
  }

  lemma Untouched(t: Tree, trees: seq<Option<Tree>>, i: nat)
    requires FilesApart(t, trees, i)
    ensures RestNodes(trees, i) !! Own(t)
    ensures RestNodes(trees, i + 1) <= RestNodes(trees, i)
  {
    hide All, Own;
  }

  /** The nodes of the remaining files are apart from the configuration after one more file. */
  lemma StillApart(t: Tree, t': Tree, trees: seq<Option<Tree>>, i: nat, old': set<Node>)
    requires FilesApart(t, trees, i) && i < |trees| && trees[i].Some?
    requires forall n :: n in Own(t') && n in old' ==> n in Own(t) || n in Own(trees[i].value)
    requires forall n :: n in All(t') && n in old' ==> n in All(t) || n in All(trees[i].value)
    requires forall k :: i <= k < |trees| && trees[k].Some? ==> All(trees[k].value) <= old'
    ensures FilesApart(t', trees, i + 1)
  {
    hide All, Own;
    forall k | i + 1 <= k < |trees| && trees[k].Some? ensures TreesApart(t', trees[k].value) {
      assert TreesApart(t, trees[k].value) && TreesApart(trees[i].value, trees[k].value);
      OwnInAll(trees[k].value);
    }
  }

  /** The first `i` files can be used. */
  predicate Usable(config: Yaml, files: seq<Option<Yaml>>, i: nat)
    requires i <= |files|
  {
    if i == 0 then true
    else Usable(config, files, i - 1) && files[i - 1].Some? && !Fails(MergedUpTo(config, files, i - 1), files[i - 1].value)
  }

  /** The configuration after the first `i` files. */
  function MergedUpTo(config: Yaml, files: seq<Option<Yaml>>, i: nat): Yaml
    requires i <= |files|
  {
    if i == 0 then config
    else
      var before := MergedUpTo(config, files, i - 1);
      if files[i - 1].Some? then MergeFile(before, files[i - 1].value) else before
  }

  /** How many files are merged before the first that cannot be used. */
  function UsableCount(config: Yaml, files: seq<Option<Yaml>>, from: nat): (k: nat)
    requires from <= |files| && Usable(config, files, from)
    ensures from <= k <= |files| && Usable(config, files, k)
    ensures k < |files| ==> !Usable(config, files, k + 1)
    decreases |files| - from
  {
    if from == |files| || !Usable(config, files, from + 1) then from else UsableCount(config, files, from + 1)
  }

  /** An empty configuration takes over an empty file first: what is merged after that is kept only if
      all files can be used. */
  predicate Forgets(config: Yaml, files: seq<Option<Yaml>>) {
    config.Null? && files != [] && files[0] == Some(Null)
  }

  /** What the group files leave as the configuration. */
  function LoadedConfig(config: Yaml, files: seq<Option<Yaml>>): Yaml {
    var k := UsableCount(config, files, 0);
    if k < |files| && Forgets(config, files) then Null else MergedUpTo(config, files, k)
  }

  lemma {:induction false} NullIff(config: Yaml, files: seq<Option<Yaml>>, i: nat)
    requires i <= |files| && Usable(config, files, i)
    ensures MergedUpTo(config, files, i).Null? <==> config.Null? && forall j :: 0 <= j < i ==> files[j] == Some(Null)
  {
    if i > 0 {
      NullIff(config, files, i - 1);
    }
  }

  /** What was merged before a failure stays, except when it started from an empty first file. */
  lemma KeepsMergedIff(config: Yaml, files: seq<Option<Yaml>>)
    ensures var k := UsableCount(config, files, 0);
            LoadedConfig(config, files) == MergedUpTo(config, files, k) <==>
            k == |files| || !Forgets(config, files) || forall j :: 0 <= j < k ==> files[j] == Some(Null)
  {
    NullIff(config, files, UsableCount(config, files, 0));
  }

  /** Without a local configuration, an empty file, a usable one and an unreadable one leave nothing; without
      the empty file the usable one stays. */
  lemma EmptyFirstForgets(file: Yaml)
    requires !file.Null?
    ensures LoadedConfig(Null, [Some(Null), Some(file), None]) == Null
    ensures LoadedConfig(Null, [Some(file), None]) == file
  {
    var files, files' := [Some(Null), Some(file), None], [Some(file), None];
    UsableNone(Null, files);
    UsableNext(Null, files, 0);
    UsableNext(Null, files, 1);
    UsableNext(Null, files, 2);
    StillUsable(Null, files, 0, 2);
    UsableNone(Null, files');
    UsableNext(Null, files', 0);
    UsableNext(Null, files', 1);
    StillUsable(Null, files', 0, 1);
  }

  /** When the handle moves on to the next file: only from an empty configuration to an empty first file, or
      after it has done so before. */
  lemma HandleMoves(config: Yaml, files: seq<Option<Yaml>>, i: nat)
    requires i < |files| && Usable(config, files, i) && files[i].Some?
    ensures i == 0 && MergedUpTo(config, files, i).Null? && files[i].value.Null? ==> Forgets(config, files)
    ensures i == 0 && Forgets(config, files) ==> MergedUpTo(config, files, i).Null? && files[i].value.Null?
    ensures i > 0 && MergedUpTo(config, files, i).Null? ==> Forgets(config, files)
  {
    if i > 0 && MergedUpTo(config, files, i).Null? {
      NullIff(config, files, i);
    }
  }

  lemma StoppedAt(config: Yaml, files: seq<Option<Yaml>>, i: nat)
    requires i < |files| && Usable(config, files, i) && UsableCount(config, files, 0) == i
    ensures LoadedConfig(config, files) == if i > 0 && Forgets(config, files) then Null else MergedUpTo(config, files, i)
  {
  }

  lemma AllLoaded(config: Yaml, files: seq<Option<Yaml>>)
    requires UsableCount(config, files, 0) == |files|
    ensures LoadedConfig(config, files) == MergedUpTo(config, files, |files|)
  {
  }

  /** Files that can be used have a tree and merge as a fold. */
  lemma {:induction false} UsableMerges(config: Yaml, files: seq<Option<Yaml>>, i: nat)
    requires i <= |files| && Usable(config, files, i)
    ensures forall j :: 0 <= j < i ==> files[j].Some?
    ensures MergedUpTo(config, files, i) == MergeFiles(config, Loaded(files[..i]))
  {
    if i > 0 {
      UsableMerges(config, files, i - 1);
      assert Loaded(files[..i])[..i - 1] == Loaded(files[..i - 1]);
      assert Loaded(files[..i])[i - 1] == files[i - 1].value;
    }
  }

  /** Files that can be used can be merged one after another. */
  lemma {:induction false} UsableMergeable(config: Yaml, files: seq<Option<Yaml>>, i: nat)
    requires i <= |files| && Usable(config, files, i)
    requires forall j :: 0 <= j < i && files[j].Some? ==> WellFormed(files[j].value)
    ensures forall j :: 0 <= j < i ==> files[j].Some?
    ensures Mergeable(config, Loaded(files[..i]))
  {
    UsableMerges(config, files, i);
    var loaded := Loaded(files[..i]);
    forall j | 0 <= j < i ensures WellFormed(loaded[j]) && !Fails(MergeFiles(config, loaded[..j]), loaded[j]) {
      UsableBefore(config, files, j + 1, i);
      UsableMerges(config, files, j);
      assert loaded[..j] == Loaded(files[..j]);
    }
  }

  /** As long as files can be used the next one is not beyond the first that cannot. */
  lemma {:induction false} StillUsable(config: Yaml, files: seq<Option<Yaml>>, from: nat, i: nat)
    requires from <= i <= |files| && Usable(config, files, from) && Usable(config, files, i)
    ensures i <= UsableCount(config, files, from)
    ensures i == |files| || !Usable(config, files, i + 1) ==> i == UsableCount(config, files, from)
    decreases i - from
  {
    if from < i {
      UsableBefore(config, files, from + 1, i);
      StillUsable(config, files, from + 1, i);
    }
  }

  lemma {:induction false} UsableBefore(config: Yaml, files: seq<Option<Yaml>>, j: nat, i: nat)
    requires j <= i <= |files| && Usable(config, files, i)
    ensures Usable(config, files, j)
    decreases i
  {
    if j < i {
      UsableBefore(config, files, j, i - 1);
    }
  }

  ghost function FilesOwn(trees: seq<Option<Tree>>): (r: set<Node>)
    ensures forall k :: 0 <= k < |trees| && trees[k].Some? ==> Own(trees[k].value) <= r
  {
    set k, n | 0 <= k < |trees| && trees[k].Some? && n in Own(trees[k].value) :: n
  }

  /** The files from `from` on are as loaded, and can be merged into the configuration `t`; `m` records
      what their nodes hold. */
  ghost predicate FilesReady(files: seq<Option<Node>>, trees: seq<Option<Tree>>, t: Tree, from: nat, m: map<Node, Shape>)
    reads m.Keys
  {
    FilesReadyBut(files, trees, t, from, m) && FilesNow(trees, from, m)
  }

  /** `t` is the configuration. */
  ghost predicate Holding(config: Node, t: Tree)
    reads All(t)
  {
    t.node == config && Realizes(t) && Distinct(RootTree(t))
  }

  /** What is known of the next file before it is merged. */
  lemma FileFacts(files: seq<Option<Node>>, t: Tree, trees: seq<Option<Tree>>, i: nat, m: map<Node, Shape>)
    requires i < |files| && FilesReady(files, trees, t, i, m)
    ensures |files| == |trees| && (files[i].Some? <==> trees[i].Some?)
    ensures trees[i].None? ==> Vals(trees)[i] == None
    ensures trees[i].Some? ==>
            var f := trees[i].value;
            && Realizes(f) && TreesApart(t, f)
            && f.node == files[i].value && f.node.shape == ShapeOf(f) && FileOk(f)
            && Vals(trees)[i] == Some(Val(f))
  {
    if trees[i].Some? {
      var f := trees[i].value;
      HeldNodes(f, m);
      RealizesIsHolds(f, m);
    }
  }

  /** Whether a file fails can be seen from the root nodes. */
  predicate FailsAt(config: Shape, file: Shape) {
    !config.SNull? && ((file.SSeq? && file.items != []) || (config.SScalar? && file.SMap? && file.slots != []))
  }

  lemma FailsSeen(t: Tree, f: Tree)
    ensures FailsAt(ShapeOf(t), ShapeOf(f)) <==> Fails(Val(t), Val(f))
  {
  }

  class ConfigurationParser {
    var config: Node

    constructor (config: Node)
      ensures this.config == config
    {
      this.config := config;
    }

    /** One file, merged into the configuration that `tmp` is a handle of: an empty configuration becomes
        the file; otherwise its entries are merged in if it has any, and anything else adds nothing. The
        handle moves on to an empty file that becomes the configuration. */
    static method MergeOne(tmp: Node, file: Node, ghost t: Tree, ghost f: Tree) returns (next: Node, ghost t': Tree)
      requires Holding(tmp, t) && f.node == file && Realizes(f) && FileOk(f) && TreesApart(t, f)
      requires !Fails(Val(t), Val(f))
      modifies Own(t)
      ensures Holding(next, t') && Val(t') == MergeFile(Val(t), Val(f))
      ensures next == if Val(t).Null? && Val(f).Null? then file else tmp
      ensures next != tmp ==> tmp.shape.SNull? && tmp !in Own(t')
      ensures forall n :: n in Own(t') ==> n in Own(t) || n in Own(f) || fresh(n)
      ensures forall n :: n in All(t') ==> n in All(t) || n in All(f) || fresh(n)
    {
      next, t' := tmp, t;
      assert tmp.shape == ShapeOf(t) && file.shape == ShapeOf(f);
      RootOwn(t);
      if tmp.shape.SNull? {
        hide Distinct, Realizes, Val, All, Own;
        next, t' := TakeOver(tmp, file, t, f);
      } else if file.shape.SMap? && file.shape.slots != [] {
        assert !tmp.shape.SScalar?;
        hide Distinct, Realizes, Val, All, Own, Mut;
        t' := MergeEntriesOf(tmp, file, t, f);
      }
    }

    /** An empty configuration becomes the file. */
    static method TakeOver(tmp: Node, file: Node, ghost t: Tree, ghost f: Tree) returns (next: Node, ghost t': Tree)
      requires t.TNull? && t.node == tmp && f.node == file && Realizes(f) && Distinct(RootTree(f)) && tmp !in All(f)
      modifies tmp
      ensures Holding(next, t') && Val(t') == Val(f)
      ensures next == if f.TNull? then file else tmp
      ensures next != tmp ==> tmp.shape.SNull? && tmp !in Own(t')
      ensures forall n :: n in Own(t') ==> n in Own(f) || n == tmp
      ensures forall n :: n in All(t') ==> n in All(f) || n == tmp
    {
      ghost var m: map<Node, Shape> := map n | n in All(f) :: n.shape;
      RealizesIsHolds(f, m);
      TakenOverNodes(f, tmp);
      OwnInAll(f);
      assert file.shape == ShapeOf(f);
      hide Distinct, Realizes, Val, All, Own, Holds;
      next, t' := tmp, TakenOver(f, tmp);
      tmp.shape := file.shape;
      if file.shape.SNull? {
        next, t' := file, f;
        RealizesIsHolds(f, m);
      } else {
        TakenOverRealizes(f, tmp, m);
      }
    }

    /** Entries are merged into a map, or into a list that becomes a map by position. */
    static method MergeEntriesOf(tmp: Node, file: Node, ghost t: Tree, ghost f: Tree) returns (ghost t': Tree)
      requires Holding(tmp, t) && f.node == file && Realizes(f) && FileOk(f) && TreesApart(t, f)
      requires f.TMap? && (t.TMap? || t.TSeq?)
      modifies Own(t)
      ensures Holding(tmp, t') && Val(t') == Combine(Rooted(Val(t)), Val(f))
      ensures forall n :: n in Own(t') ==> n in Own(t) || n in Own(f) || fresh(n)
      ensures forall n :: n in All(t') ==> n in All(t) || n in All(f) || fresh(n)
    {
      hide *;
      EntriesReady(tmp, t, f);
      RootVal(t);
      if tmp.shape.SSeq? {
        ghost var m: map<Node, Shape> := map n | n in All(f) :: n.shape;
        RealizesIsHolds(f, m);
        Exist(All(f));
        IndexByPosition(tmp, t);
        RealizesIsHolds(f, m);
      }
      t' := MergeYamlNodes(tmp, file, RootTree(t), f);
      MapRoot(t', RootTree(t), f);
      NowHolding(tmp, t');
    }

    /**
     The group files are merged in order, up to the first one that is unusable. The merge happens in the
     configuration itself, so what was merged before a failure stays, unless an empty file was taken over
     first: then the handle has moved on and the configuration is empty as before.
     */
    method LoadSharedConfig(files: seq<Option<Node>>, ghost t: Tree, ghost trees: seq<Option<Tree>>, ghost m: map<Node, Shape>)
      returns (ok: bool, ghost t': Tree)
      requires |files| == |trees| && Holding(config, t) && FilesReady(files, trees, t, 0, m)
      modifies this, Own(t), FilesOwn(trees)
      ensures Holding(config, t')
      ensures ok == (UsableCount(Val(t), Vals(trees), 0) == |files|) && Val(t') == LoadedConfig(Val(t), Vals(trees))
    {
      ghost var vals := Vals(trees);
      hide *;
      var tmp := config;
      ok, t' := true, t;
      UsableNone(Val(t), vals);
      RootOutside(config, files, trees, t, m);
      for i := 0 to |files|
        invariant Usable(Val(t), vals, i) && unchanged(this)
        invariant Holding(tmp, t') && FilesReady(files, trees, t', i, m)
        invariant tmp == config <==> i == 0 || !Forgets(Val(t), vals)
        invariant tmp != config ==> config.shape.SNull? && config !in Own(t')
        invariant forall n :: n in Own(t') ==> n in Own(t) || n in FilesOwn(trees) || fresh(n)
        invariant Val(t') == MergedUpTo(Val(t), vals, i)
      {
        FileFacts(files, t', trees, i, m);
        ConfigShape(tmp, t');
        UsableNext(Val(t), vals, i);
        StillUsable(Val(t), vals, 0, i);
        if files[i].None? || FailsAt(tmp.shape, files[i].value.shape) {
          ghost var f := trees[i];
          if f.Some? {
            FailsSeen(t', f.value);
          }
          StoppedAt(Val(t), vals, i);
          if tmp != config {
            t' := TNull(config);
            NullHolding(config);
          }
          return false, t';
        }
        FailsSeen(t', trees[i].value);
        HandleMoves(Val(t), vals, i);
        tmp, t' := NextFile(tmp, files, t', trees, i, m);
      }
      StillUsable(Val(t), vals, 0, |files|);
      AllLoaded(Val(t), vals);
      Exist(All(t'));
      config := tmp;
    }

    /** One file, with what is known of those still to come. */
    static method NextFile(tmp: Node, files: seq<Option<Node>>, ghost t: Tree, ghost trees: seq<Option<Tree>>, i: nat,
                           ghost m: map<Node, Shape>)
      returns (next: Node, ghost t': Tree)
      requires Holding(tmp, t) && i < |files| && files[i].Some? && FilesReady(files, trees, t, i, m)
      requires i < |trees| && trees[i].Some? && !Fails(Val(t), Val(trees[i].value))
      modifies Own(t)
      ensures Holding(next, t') && FilesReady(files, trees, t', i + 1, m)
      ensures Val(t') == MergeFile(Val(t), Val(trees[i].value))
      ensures (next == tmp) <==> !(Val(t).Null? && Val(trees[i].value).Null?)
      ensures next != tmp ==> tmp.shape.SNull? && tmp !in Own(t') && next in FilesOwn(trees)
      ensures forall n :: n in Own(t') ==> n in Own(t) || n in FilesOwn(trees) || fresh(n)
    {
      hide *;
      FileFacts(files, t, trees, i, m);
      ReadyFacts(files, trees, t, i, m);
      HandleApart(tmp, t, trees[i].value);
      RootOwn(trees[i].value);
      Exist(m.Keys);
      next, t' := MergeOne(tmp, files[i].value, t, trees[i].value);
      NextReady(files, trees, t, t', i, m);
    }

    /** The local file is used if it is a map or a list. */
    static predicate IsValid(local: Shape) {
      local.SMap? || local.SSeq?
    }

    /** Start over from the local file, or from nothing if it cannot be used, and merge the group files
        again: what was configured before plays no part. */
    method ReloadConfiguration(local: Option<Node>, files: seq<Option<Node>>,
                               ghost lt: Tree, ghost trees: seq<Option<Tree>>, ghost m: map<Node, Shape>)
      returns (ok: bool, ghost t': Tree)
      requires |files| == |trees| && FilesReady(files, trees, lt, 0, m)
      requires local.Some? ==> Holding(local.value, lt)
      modifies this, Own(lt), FilesOwn(trees)
      ensures Holding(config, t')
      ensures var base := if local.Some? && (Val(lt).Map? || Val(lt).Seq?) then Val(lt) else Null;
              ok == (UsableCount(base, Vals(trees), 0) == |files|) && Val(t') == LoadedConfig(base, Vals(trees))
    {
      Exist(m.Keys);
      ghost var t := lt;
      if local.Some? && IsValid(local.value.shape) {
        config := local.value;
      } else {
        FilesInRecord(files, trees, lt, m);
        config := new Node(SNull);
        t := TNull(config);
        FreshRoot(files, trees, lt, t, m);
      }
      assert local.Some? ==> (IsValid(local.value.shape) <==> Val(lt).Map? || Val(lt).Seq?);
      assert Val(t) == if local.Some? && (Val(lt).Map? || Val(lt).Seq?) then Val(lt) else Null;
      hide *;
      ok, t' := LoadSharedConfig(files, t, trees, m);
    }

    /** Follow the keys from the root; nothing when a key is missing or a scalar is in the way. A list is
        followed by position. */
    method GetConfig(path: seq<string>, ghost t: Tree) returns (r: Option<Node>, ghost u: Tree)
      requires Holding(config, t)
      ensures r.Some? <==> Lookup(Val(t), path).At?
      ensures r.Some? ==> u.node == r.value && Realizes(u) && Lookup(Val(t), path) == At(Val(u))
    {
      var current := config;
      u := t;
      assert path[0..] == path;
      for i := 0 to |path|
        invariant u.node == current && Realizes(u) && Lookup(Val(t), path) == Lookup(Val(u), path[i..])
      {
        assert path[i..][0] == path[i] && path[i..][1..] == path[i + 1..];
        RootVal(u);
        if !current.shape.SMap? && !current.shape.SSeq? {
          return None, u;
        }
        var slots := SlotsAt(current.shape);
        SlotsSeen(u);
        var p := FindSlot(slots, path[i]);
        SlotFound(RootTree(u), path[i], p);
        if p == |slots| {
          return None, u;
        }
        RootKid(u, p);
        current := slots[p].node;
        u := RootTree(u).kids[p].tree;
      }
      return Some(current), u;
    }
  }

  /** The entries of a map, or of a list by position. */
  function SlotsAt(s: Shape): seq<Slot>
    requires s.SMap? || s.SSeq?
  {
    if s.SMap? then s.slots else seq(|s.items|, i requires 0 <= i < |s.items| => Slot(Digits(i), s.items[i]))
  }

  lemma SlotsSeen(u: Tree)
    requires u.TMap? || u.TSeq?
    ensures RootTree(u).TMap? && SlotsAt(ShapeOf(u)) == SlotsOf(RootTree(u).kids)
  {
    assert u.TSeq? ==> SlotsAt(ShapeOf(u)) == SlotsOf(IndexKids(u.items));
  }

  lemma RootKid(u: Tree, p: nat)
    requires Realizes(u) && RootTree(u).TMap? && p < |RootTree(u).kids|
    ensures Realizes(RootTree(u).kids[p].tree)
  {
  }

  lemma SlotFound(u: Tree, key: string, p: nat)
    requires u.TMap? && p == FindSlot(SlotsOf(u.kids), key)
    ensures Find(Val(u).entries, key) == p
  {
    var es, slots := ValKids(u.kids), SlotsOf(u.kids);
    assert forall r :: 0 <= r < |u.kids| ==> es[r].key == slots[r].key;
  }

  lemma FilesInRecord(files: seq<Option<Node>>, trees: seq<Option<Tree>>, t: Tree, m: map<Node, Shape>)
    requires FilesReady(files, trees, t, 0, m)
    ensures FilesReadyBut(files, trees, t, 0, m) && forall k :: 0 <= k < |trees| && trees[k].Some? ==> All(trees[k].value) <= m.Keys
  {
  }

  /** A new, empty root is apart from every file. */
  lemma FreshRoot(files: seq<Option<Node>>, trees: seq<Option<Tree>>, t: Tree, t': Tree, m: map<Node, Shape>)
    requires FilesReadyBut(files, trees, t, 0, m) && FilesNow(trees, 0, m) && t'.TNull? && t'.node !in m
    ensures FilesReady(files, trees, t', 0, m)
  {
    forall k | 0 <= k < |trees| && trees[k].Some? ensures TreesApart(t', trees[k].value) {
      OwnInAll(trees[k].value);
    }
  }

  /** `FilesReady` without what the nodes hold now. */
  ghost predicate FilesReadyBut(files: seq<Option<Node>>, trees: seq<Option<Tree>>, t: Tree, from: nat, m: map<Node, Shape>)
  {
    && |files| == |trees| && FilesApart(t, trees, from) && FilesHold(trees, from, m)
    && RestNodes(trees, from) <= m.Keys
    && (forall k :: from <= k < |files| ==> (files[k].Some? <==> trees[k].Some?))
    && (forall k :: from <= k < |files| && files[k].Some? ==>
          files[k].value == trees[k].value.node && FileOk(trees[k].value))
  }

  lemma UsableNone(config: Yaml, files: seq<Option<Yaml>>)
    ensures Usable(config, files, 0) && MergedUpTo(config, files, 0) == config
  {
  }

  lemma UsableNext(config: Yaml, files: seq<Option<Yaml>>, i: nat)
    requires i < |files| && Usable(config, files, i)
    ensures Usable(config, files, i + 1) <==> files[i].Some? && !Fails(MergedUpTo(config, files, i), files[i].value)
    ensures files[i].Some? ==> MergedUpTo(config, files, i + 1) == MergeFile(MergedUpTo(config, files, i), files[i].value)
  {
  }

  lemma ConfigShape(config: Node, t: Tree)
    requires Holding(config, t)
    ensures config.shape == ShapeOf(t)
  {
  }

  lemma NullHolding(config: Node)
    requires config.shape.SNull?
    ensures Holding(config, TNull(config)) && Val(TNull(config)) == Null
  {
  }

  lemma RootOwn(t: Tree)
    ensures t.node in Own(t)
  {
  }

  /** The node of the configuration is in none of the files. */
  lemma RootOutside(config: Node, files: seq<Option<Node>>, trees: seq<Option<Tree>>, t: Tree, m: map<Node, Shape>)
    requires Holding(config, t) && FilesReady(files, trees, t, 0, m)
    ensures config in Own(t) && config !in FilesOwn(trees)
  {
    RootOwn(t);
    hide All, Mut, Own, Val, Distinct;
    forall k | 0 <= k < |trees| && trees[k].Some? ensures config !in Own(trees[k].value) {
      OwnInAll(trees[k].value);
    }
  }

  lemma HandleApart(tmp: Node, t: Tree, f: Tree)
    requires Holding(tmp, t) && TreesApart(t, f)
    ensures f.node != tmp
  {
    RootNodes(f);
    RootOwn(t);
    hide All, Mut, Own;
  }

  lemma MapRoot(t: Tree, b: Tree, a: Tree)
    requires b.TMap? && a.TMap? && Val(t) == Combine(Val(b), Val(a))
    ensures RootTree(t) == t && Own(t) == Mut(t)
  {
  }

  lemma NowHolding(config: Node, t: Tree)
    requires t.node == config && Realizes(t) && Distinct(t) && RootTree(t) == t
    ensures Holding(config, t)
  {
  }

  lemma EntriesReady(config: Node, t: Tree, f: Tree)
    requires Holding(config, t) && FileOk(f) && TreesApart(t, f) && f.TMap? && (t.TMap? || t.TSeq?)
    ensures t.node == config && Realizes(t) && Distinct(RootTree(t)) && (t.TSeq? <==> config.shape.SSeq?)
    ensures t.TMap? ==> RootTree(t) == t
    ensures Apart(RootTree(t), f) && RootTree(t).node == config && RootTree(t).TMap?
    ensures All(RootTree(t)) == All(t) && Own(t) == Mut(RootTree(t)) && Own(f) == Mut(f)
    ensures config in Own(t) && config !in All(f)
  {
    RootNodes(t);
    hide All, AllKids, AllItems, Val, Distinct;
  }

  lemma ReadyFacts(files: seq<Option<Node>>, trees: seq<Option<Tree>>, t: Tree, i: nat, m: map<Node, Shape>)
    requires i < |files| && FilesReady(files, trees, t, i, m)
    ensures FilesReadyBut(files, trees, t, i, m)
    ensures forall n :: n in RestNodes(trees, i) && n in m ==> n.shape == m[n]
    ensures RestNodes(trees, i) !! Own(t)
    ensures RestNodes(trees, i + 1) <= RestNodes(trees, i)
  {
    Untouched(t, trees, i);
  }

  lemma NextReady(files: seq<Option<Node>>, trees: seq<Option<Tree>>, t: Tree, t': Tree, i: nat, m: map<Node, Shape>)
    requires i < |files| && FilesReadyBut(files, trees, t, i, m) && i < |trees| && trees[i].Some?
    requires forall n :: n in RestNodes(trees, i + 1) && n in m ==> n.shape == m[n]
    requires forall n :: n in Own(t') && n in m ==> n in Own(t) || n in Own(trees[i].value)
    requires forall n :: n in All(t') && n in m ==> n in All(t) || n in All(trees[i].value)
    ensures FilesReady(files, trees, t', i + 1, m)
  {
    assert FilesNow(trees, i + 1, m);
    hide *;
    NextReadyBut(files, trees, t, t', i, m);
    ReadyOf(files, trees, t', i + 1, m);
  }

  lemma ReadyOf(files: seq<Option<Node>>, trees: seq<Option<Tree>>, t: Tree, from: nat, m: map<Node, Shape>)
    requires FilesReadyBut(files, trees, t, from, m) && FilesNow(trees, from, m)
    ensures FilesReady(files, trees, t, from, m)
  {
  }

  lemma NextReadyBut(files: seq<Option<Node>>, trees: seq<Option<Tree>>, t: Tree, t': Tree, i: nat, m: map<Node, Shape>)
    requires i < |files| && FilesReadyBut(files, trees, t, i, m) && i < |trees| && trees[i].Some?
    requires forall n :: n in Own(t') && n in m ==> n in Own(t) || n in Own(trees[i].value)
    requires forall n :: n in All(t') && n in m ==> n in All(t) || n in All(trees[i].value)
    ensures FilesReadyBut(files, trees, t', i + 1, m)
  {
    hide Own, All, Distinct, Val, Holds, WellFormed;
    StillApart(t, t', trees, i, m.Keys);
    Untouched(t, trees, i);
  }

  /** The file's content under the configuration's own root node. */
  ghost function TakenOver(f: Tree, node: Node): Tree {
    match f
    case TNull(_) => TNull(node)
    case TScalar(_, text) => TScalar(node, text)
    case TSeq(_, items) => TSeq(node, items)
    case TMap(_, kids) => TMap(node, kids)
  }

  lemma TakenOverNodes(f: Tree, node: Node)
    requires Distinct(RootTree(f)) && node !in All(f)
    ensures Distinct(RootTree(TakenOver(f, node))) && Val(TakenOver(f, node)) == Val(f)
    ensures Own(TakenOver(f, node)) <= Own(f) + {node}
    ensures forall n :: n in All(TakenOver(f, node)) ==> n in All(f) || n == node
  {
    RootNodes(f);
    RootNodes(TakenOver(f, node));
    assert f.TSeq? ==> RootTree(TakenOver(f, node)) == TMap(node, IndexKids(f.items));
    hide Val;
  }

  lemma TakenOverRealizes(f: Tree, node: Node, m: map<Node, Shape>)
    requires Holds(f, m) && node !in All(f) && node.shape == ShapeOf(f)
    requires forall n :: n in All(f) ==> n in m && n.shape == m[n]
    ensures Realizes(TakenOver(f, node))
  {
    if f.TMap? {
      forall i | 0 <= i < |f.kids| ensures Realizes(f.kids[i].tree) {
        assert All(f.kids[i].tree) <= All(f);
        RealizesIsHolds(f.kids[i].tree, m);
      }
    } else if f.TSeq? {
      forall i | 0 <= i < |f.items| ensures Realizes(f.items[i]) {
        assert All(f.items[i]) <= All(f);
        RealizesIsHolds(f.items[i], m);
      }
    }
  }
}
