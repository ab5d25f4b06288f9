/**
 Files as they come from the parser: every node is new, so nothing is shared. With this the whole way
 from parsed files to the merged configuration is stated on values alone.
 */
module Loading {
  import opened Options
  import opened YamlMerge
  import opened YamlTrees
  import opened YamlRoots
  import opened YamlWorklist
  import opened Configuration

  /** `m` records what the nodes of `t` hold, and holds no other nodes. */
  ghost predicate Recorded(t: Tree, m: map<Node, Shape>) {
    Holds(t, m) && All(t) <= m.Keys
  }

  ghost predicate Apart(ts: seq<Tree>) {
    forall i, j :: 0 <= i < |ts| && 0 <= j < |ts| && i != j ==> All(ts[i]) !! All(ts[j])
  }

  ghost predicate AllRecorded(ts: seq<Tree>, m: map<Node, Shape>) {
    Apart(ts) && forall i :: 0 <= i < |ts| ==> Recorded(ts[i], m) && Distinct(ts[i])
  }

  lemma OneMoreRecorded(ts: seq<Tree>, m: map<Node, Shape>, t: Tree, mt: map<Node, Shape>)
    requires AllRecorded(ts, m) && Recorded(t, mt) && Distinct(t) && m.Keys !! mt.Keys
    ensures AllRecorded(ts + [t], m + mt)
  {
    hide Holds, All, Distinct;
    forall i | 0 <= i < |ts| ensures Recorded(ts[i], m + mt) {
      HoldsFrame(ts[i], m, m + mt);
    }
    HoldsFrame(t, mt, m + mt);
  }

  /** New nodes for a value. */
  method Build(y: Yaml) returns (node: Node, ghost t: Tree, ghost m: map<Node, Shape>)
    ensures t.node == node && Val(t) == y && Distinct(t) && Distinct(RootTree(t)) && Recorded(t, m)
    ensures fresh(m.Keys) && Now(m)
    decreases y, 1
  {
    match y
    case Null =>
      node := new Node(SNull);
      t, m := TNull(node), map[node := SNull];
    case Scalar(text) =>
      node := new Node(SScalar(text));
      t, m := TScalar(node, text), map[node := SScalar(text)];
    case Seq(items) =>
      var nodes, ts, mi := BuildAll(items);
      node := new Node(SSeq(nodes));
      t, m := TSeq(node, ts), mi[node := SSeq(nodes)];
      SequenceRecorded(t, mi);
      assert TreesOf(IndexKids(ts)) == ts;
      MapRecorded(RootTree(t), mi);
    case Map(entries) =>
      var slots, kids, mi := BuildEntries(entries);
      node := new Node(SMap(slots));
      t, m := TMap(node, kids), mi[node := SMap(slots)];
      MapRecorded(t, mi);
  }

  method BuildAll(ys: seq<Yaml>) returns (nodes: seq<Node>, ghost ts: seq<Tree>, ghost m: map<Node, Shape>)
    ensures nodes == NodesOf(ts) && ValItems(ts) == ys && AllRecorded(ts, m)
    ensures fresh(m.Keys) && Now(m)
    decreases ys, 0
  {
    nodes, ts, m := [], [], map[];
    for i := 0 to |ys|
      invariant nodes == NodesOf(ts) && ValItems(ts) == ys[..i] && AllRecorded(ts, m)
      invariant fresh(m.Keys) && Now(m)
    {
      var node, t, mt := Build(ys[i]);
      OneMoreRecorded(ts, m, t, mt);
      hide AllRecorded, Recorded, Val, Distinct;
      nodes, ts, m := nodes + [node], ts + [t], m + mt;
    }
  }

  method BuildEntries(entries: seq<Pair>) returns (slots: seq<Slot>, ghost kids: seq<Kid>, ghost m: map<Node, Shape>)
    ensures slots == SlotsOf(kids) && ValKids(kids) == entries && AllRecorded(TreesOf(kids), m)
    ensures fresh(m.Keys) && Now(m)
    decreases entries, 0
  {
    slots, kids, m := [], [], map[];
    for i := 0 to |entries|
      invariant slots == SlotsOf(kids) && ValKids(kids) == entries[..i] && AllRecorded(TreesOf(kids), m)
      invariant fresh(m.Keys) && Now(m)
    {
      var node, t, mt := Build(entries[i].value);
      OneMoreRecorded(TreesOf(kids), m, t, mt);
      assert TreesOf(kids + [Kid(entries[i].key, t)]) == TreesOf(kids) + [t];
      hide AllRecorded, Recorded, Val, Distinct;
      slots, kids, m := slots + [Slot(entries[i].key, node)], kids + [Kid(entries[i].key, t)], m + mt;
    }
  }

  ghost function TreesOf(kids: seq<Kid>): (r: seq<Tree>)
    ensures |r| == |kids| && forall i :: 0 <= i < |kids| ==> r[i] == kids[i].tree
  {
    seq(|kids|, i requires 0 <= i < |kids| => kids[i].tree)
  }

  lemma SequenceRecorded(t: Tree, m: map<Node, Shape>)
    requires t.TSeq? && AllRecorded(t.items, m) && t.node !in m
    ensures Recorded(t, m[t.node := SSeq(NodesOf(t.items))])
  {
    var m' := m[t.node := SSeq(NodesOf(t.items))];
    forall i | 0 <= i < |t.items| ensures Holds(t.items[i], m') && All(t.items[i]) <= m'.Keys {
      HoldsFrame(t.items[i], m, m');
    }
  }

  lemma MapRecorded(t: Tree, m: map<Node, Shape>)
    requires t.TMap? && AllRecorded(TreesOf(t.kids), m) && t.node !in m
    ensures Recorded(t, m[t.node := SMap(SlotsOf(t.kids))]) && Distinct(t)
  {
    var ts, m' := TreesOf(t.kids), m[t.node := SMap(SlotsOf(t.kids))];
    forall i | 0 <= i < |ts| ensures Holds(ts[i], m') && All(ts[i]) <= m'.Keys && Mut(ts[i]) <= All(ts[i]) {
      HoldsFrame(ts[i], m, m');
      MutInAll(ts[i]);
    }
    assert forall i :: 0 <= i < |ts| ==> ts[i] == t.kids[i].tree;
  }

  // ----- files -----

  /** The files that could be parsed. */
  ghost predicate Parsed(files: seq<Option<Node>>, trees: seq<Option<Tree>>, values: seq<Option<Yaml>>, m: map<Node, Shape>) {
    && |files| == |trees| && Vals(trees) == values
    && (forall k :: 0 <= k < |files| ==> (files[k].Some? <==> trees[k].Some?))
    && (forall k :: 0 <= k < |files| && trees[k].Some? ==>
          files[k].value == trees[k].value.node && Recorded(trees[k].value, m) && Distinct(RootTree(trees[k].value)))
    && (forall j, k :: 0 <= j < |trees| && 0 <= k < |trees| && j != k && trees[j].Some? && trees[k].Some? ==>
          All(trees[j].value) !! All(trees[k].value))
  }

  method ParseFiles(values: seq<Option<Yaml>>)
    returns (files: seq<Option<Node>>, ghost trees: seq<Option<Tree>>, ghost m: map<Node, Shape>)
    ensures Parsed(files, trees, values, m) && fresh(m.Keys) && Now(m)
  {
    files, trees, m := [], [], map[];
    for i := 0 to |values|
      invariant Parsed(files, trees, values[..i], m) && fresh(m.Keys) && Now(m)
    {
      assert values[..i + 1] == values[..i] + [values[i]];
      if values[i].Some? {
        var node, t, mt := Build(values[i].value);
        OneMoreParsed(files, trees, values[..i], m, t, mt);
        hide Parsed, Recorded;
        files, trees, m := files + [Some(node)], trees + [Some(t)], m + mt;
      } else {
        files, trees := files + [None], trees + [None];
      }
    }
    assert values[..|values|] == values;
  }

  lemma OneMoreParsed(files: seq<Option<Node>>, trees: seq<Option<Tree>>, values: seq<Option<Yaml>>, m: map<Node, Shape>,
                      t: Tree, mt: map<Node, Shape>)
    requires Parsed(files, trees, values, m) && Recorded(t, mt) && Distinct(RootTree(t)) && m.Keys !! mt.Keys
    ensures Parsed(files + [Some(t.node)], trees + [Some(t)], values + [Some(Val(t))], m + mt)
  {
    hide Holds, All, Distinct, Val;
    forall k | 0 <= k < |trees| && trees[k].Some? ensures Recorded(trees[k].value, m + mt) {
      HoldsFrame(trees[k].value, m, m + mt);
    }
    HoldsFrame(t, mt, m + mt);
    assert Vals(trees + [Some(t)]) == Vals(trees) + [Some(Val(t))];
  }

  /** No key twice in a map. */
  predicate Loadable(values: seq<Option<Yaml>>) {
    forall k :: 0 <= k < |values| && values[k].Some? ==> WellFormed(values[k].value)
  }

  lemma ParsedReady(files: seq<Option<Node>>, trees: seq<Option<Tree>>, values: seq<Option<Yaml>>, m: map<Node, Shape>,
                    t: Tree, mt: map<Node, Shape>)
    requires Parsed(files, trees, values, m) && Now(m) && Recorded(t, mt) && m.Keys !! mt.Keys && Loadable(values)
    ensures FilesReady(files, trees, t, 0, m)
  {
    OwnInAll(t);
    forall k | 0 <= k < |trees| && trees[k].Some? ensures TreesApart(t, trees[k].value) && FileOk(trees[k].value) {
      assert values[k] == Some(Val(trees[k].value));
      OwnInAll(trees[k].value);
      RootNodes(t);
    }
    forall j, k | 0 <= j < |trees| && 0 <= k < |trees| && j != k && trees[j].Some? && trees[k].Some?
      ensures TreesApart(trees[j].value, trees[k].value)
    {
      OwnInAll(trees[j].value);
      OwnInAll(trees[k].value);
    }
  }

  lemma LocalReady(lt: Tree, m: map<Node, Shape>)
    requires Recorded(lt, m) && Now(m) && Distinct(RootTree(lt))
    ensures Holding(lt.node, lt) && Own(lt) + {lt.node} <= m.Keys
  {
    RootNodes(lt);
    OwnInAll(lt);
    RealizesIsHolds(lt, m);
  }

  lemma ParsedOwn(files: seq<Option<Node>>, trees: seq<Option<Tree>>, values: seq<Option<Yaml>>, m: map<Node, Shape>)
    requires Parsed(files, trees, values, m)
    ensures FilesOwn(trees) <= m.Keys && |files| == |trees| == |values| && Vals(trees) == values
  {
    forall k | 0 <= k < |trees| && trees[k].Some? ensures Own(trees[k].value) <= m.Keys {
      OwnInAll(trees[k].value);
    }
  }

  /** The local file counts if it could be parsed and is a map or a list. */
  function LocalOf(local: Option<Yaml>): Yaml {
    if local.Some? && (local.value.Map? || local.value.Seq?) then local.value else Null
  }

  /** From parsed files to the configuration: the group files merged in order into the local one, up to
      the first that cannot be used. */
  method LoadAll(parser: ConfigurationParser, local: Option<Yaml>, values: seq<Option<Yaml>>) returns (ok: bool, ghost t: Tree)
    requires Loadable(values)
    modifies parser
    ensures Holding(parser.config, t)
    ensures ok == (UsableCount(LocalOf(local), values, 0) == |values|) && Val(t) == LoadedConfig(LocalOf(local), values)
  {
    assert LocalOf(local) == if local.Some? && (local.value.Map? || local.value.Seq?) then local.value else Null;
    hide *;
    var base, lt, ml := Build(if local.Some? then local.value else Null);
    var files, trees, m := ParseFiles(values);
    ParsedReady(files, trees, values, m, lt, ml);
    ParsedOwn(files, trees, values, m);
    LocalReady(lt, ml);
    ok, t := parser.ReloadConfiguration(if local.Some? then Some(base) else None, files, lt, trees, m);
  }
}
