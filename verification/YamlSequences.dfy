/**
 Merging two sequence nodes into a new one, with the loops of the source.
 */
module YamlSequences {
  import opened Options
  import opened YamlMerge
  import opened YamlTrees

  /** An additional element with its key. */
  datatype Elem = Elem(key: string, node: Node)

  function NodeKey(n: Node): Option<string>
    reads n
  {
    match n.shape
    case SScalar(text) => Some(text)
    case SMap(slots) => if slots == [] then None else Some(slots[0].key)
    case _ => None
  }

  lemma NodeKeyIsKey(t: Tree)
    requires Realizes(t)
    ensures NodeKey(t.node) == Key(Val(t))
  {
    if t.TMap? {
      assert t.node.shape == SMap(SlotsOf(t.kids));
      assert t.kids != [] ==> SlotsOf(t.kids)[0].key == t.kids[0].key == ValKids(t.kids)[0].key;
    }
  }

  /** The elements that have a key. */
  function Keyed(ys: seq<Yaml>): seq<Yaml> {
    if ys == [] then []
    else Keyed(ys[..|ys| - 1]) + if Key(ys[|ys| - 1]).Some? then [ys[|ys| - 1]] else []
  }

  lemma {:induction false} FirstWithAppend(ys: seq<Yaml>, e: Yaml, key: string, d: Yaml)
    ensures FirstWith(ys + [e], key, d) == FirstWith(ys, key, if Key(e) == Some(key) then e else d)
  {
    if ys == [] {
      assert ys + [e] == [e];
    } else {
      assert (ys + [e])[1..] == ys[1..] + [e];
      FirstWithAppend(ys[1..], e, key, d);
    }
  }

  /** Elements without a key never match. */
  lemma {:induction false} KeyedMatters(ys: seq<Yaml>, key: string, d: Yaml, base: seq<Yaml>)
    ensures FirstWith(Keyed(ys), key, d) == FirstWith(ys, key, d)
    ensures Newcomers(Keyed(ys), base) == Newcomers(ys, base)
    decreases |ys|
  {
    if ys != [] {
      var k := |ys| - 1;
      var e := ys[k];
      assert ys == ys[..k] + [e];
      FirstWithAppend(ys[..k], e, key, d);
      FirstWithAppend(Keyed(ys[..k]), e, key, d);
      KeyedMatters(ys[..k], key, if Key(e) == Some(key) then e else d, base);
      KeyedMatters(ys[..k], key, d, base);
      if Key(e).Some? {
        assert Keyed(ys)[..|Keyed(ys)| - 1] == Keyed(ys[..k]);
      } else {
        assert Keyed(ys) == Keyed(ys[..k]);
      }
    }
  }

  ghost predicate KeysMatch(items: seq<Node>, trees: seq<Tree>)
    reads items
  {
    |items| == |trees| && forall i :: 0 <= i < |items| ==> NodeKey(items[i]) == Key(Val(trees[i]))
  }

  lemma ItemKeysMatch(t: Tree)
    requires t.TSeq? && Realizes(t)
    ensures KeysMatch(NodesOf(t.items), t.items)
  {
    forall i | 0 <= i < |t.items| ensures NodeKey(NodesOf(t.items)[i]) == Key(Val(t.items[i])) {
      NodeKeyIsKey(t.items[i]);
    }
  }

  /** The trees behind the collected elements. */
  ghost predicate Backed(es: seq<Elem>, ts: seq<Tree>) {
    && |es| == |ts|
    && forall j :: 0 <= j < |es| ==> es[j].node == ts[j].node && Key(Val(ts[j])) == Some(es[j].key)
  }

  ghost predicate From(ts: seq<Tree>, source: seq<Tree>) {
    forall j :: 0 <= j < |ts| ==> ts[j] in source
  }

  /** The keyed elements of the additional sequence, in order. */
  method Collect(items: seq<Node>, ghost trees: seq<Tree>) returns (es: seq<Elem>, ghost ts: seq<Tree>)
    requires items == NodesOf(trees) && KeysMatch(items, trees)
    ensures Backed(es, ts) && From(ts, trees) && ValItems(ts) == Keyed(ValItems(trees))
  {
    es, ts := [], [];
    ghost var vals := ValItems(trees);
    for i := 0 to |items|
      invariant Backed(es, ts) && From(ts, trees) && ValItems(ts) == Keyed(vals[..i])
    {
      assert vals[..i + 1][..i] == vals[..i];
      var key := NodeKey(items[i]);
      if key.Some? {
        es := es + [Elem(key.value, items[i])];
        ts := ts + [trees[i]];
      }
    }
    assert vals[..|items|] == vals;
  }

  /** The first collected element with the key, or their number. */
  method FindElem(es: seq<Elem>, ghost ts: seq<Tree>, key: string, ghost d: Yaml) returns (k: nat)
    requires Backed(es, ts)
    ensures k <= |es|
    ensures k < |es| ==> es[k].key == key && FirstWith(ValItems(ts), key, d) == Val(ts[k])
    ensures k == |es| ==> (forall j :: 0 <= j < |es| ==> es[j].key != key) && FirstWith(ValItems(ts), key, d) == d
  {
    k := 0;
    ghost var vals := ValItems(ts);
    assert vals[0..] == vals;
    while k < |es| && es[k].key != key
      invariant k <= |es| && forall j :: 0 <= j < k ==> es[j].key != key
      invariant FirstWith(vals, key, d) == FirstWith(vals[k..], key, d)
    {
      assert Key(vals[k]) != Some(key) && vals[k..][0] == vals[k] && vals[k..][1..] == vals[k + 1..];
      k := k + 1;
    }
    if k < |es| {
      assert vals[k..][0] == vals[k] && Key(vals[k]) == Some(key);
    }
  }

  /** The element that takes the place of a base element, and the key that was merged if one was. */
  method PickFor(item: Node, ghost tree: Tree, es: seq<Elem>, ghost ts: seq<Tree>)
    returns (node: Node, ghost picked: Tree, hit: set<string>)
    requires item == tree.node && NodeKey(item) == Key(Val(tree)) && Backed(es, ts)
    ensures node == picked.node && (picked == tree || picked in ts)
    ensures Val(picked) == Replacement(Val(tree), ValItems(ts))
    ensures forall e <- es :: e.key in hit <==> Key(Val(tree)) == Some(e.key)
  {
    node, picked, hit := item, tree, {};
    var key := NodeKey(item);
    if key.Some? {
      var k := FindElem(es, ts, key.value, Val(tree));
      if k < |es| {
        node, picked, hit := es[k].node, ts[k], {es[k].key};
      }
    }
  }

  /** The trees of the first `i` base elements, each replaced where it should be. */
  ghost predicate Replaced(mt: seq<Tree>, trees: seq<Tree>, ts: seq<Tree>, i: nat) {
    i <= |trees| && From(mt, trees + ts) && ValItems(mt) == Replacements(ValItems(trees)[..i], ValItems(ts))
  }

  lemma ReplacedNext(mt: seq<Tree>, trees: seq<Tree>, ts: seq<Tree>, i: nat, picked: Tree)
    requires i < |trees| && Replaced(mt, trees, ts, i)
    requires (picked == trees[i] || picked in ts) && Val(picked) == Replacement(Val(trees[i]), ValItems(ts))
    ensures Replaced(mt + [picked], trees, ts, i + 1)
  {
    hide Val, Replacement;
    var vals := ValItems(trees);
    assert vals[..i + 1][..i] == vals[..i] && vals[..i + 1][i] == vals[i];
    assert ValItems(mt + [picked]) == ValItems(mt) + [Val(picked)];
    assert picked in trees + ts;
  }

  /** The keys merged so far are those of the base elements seen. */
  ghost predicate KeysMerged(mergedKeys: set<string>, es: seq<Elem>, seen: seq<Yaml>) {
    forall e <- es :: e.key in mergedKeys <==> HasKey(seen, e.key)
  }

  lemma KeysMergedNext(mergedKeys: set<string>, es: seq<Elem>, vals: seq<Yaml>, i: nat, hit: set<string>)
    requires i < |vals| && KeysMerged(mergedKeys, es, vals[..i])
    requires forall e <- es :: e.key in hit <==> Key(vals[i]) == Some(e.key)
    ensures KeysMerged(mergedKeys + hit, es, vals[..i + 1])
  {
    assert vals[..i + 1] == vals[..i] + [vals[i]];
    HasKeyAppend(vals[..i], vals[i]);
    hide Key, HasKey;
  }

  /** Every base element, replaced by the first additional element with its key if there is one. */
  method ReplaceKeyed(items: seq<Node>, ghost trees: seq<Tree>, es: seq<Elem>, ghost ts: seq<Tree>)
    returns (merged: seq<Node>, mergedKeys: set<string>, ghost mt: seq<Tree>)
    requires items == NodesOf(trees) && KeysMatch(items, trees)
    requires Backed(es, ts)
    ensures merged == NodesOf(mt) && From(mt, trees + ts)
    ensures ValItems(mt) == Replacements(ValItems(trees), ValItems(ts))
    ensures forall e <- es :: e.key in mergedKeys <==> HasKey(ValItems(trees), e.key)
  {
    merged, mergedKeys, mt := [], {}, [];
    ghost var vals := ValItems(trees);
    assert Replaced(mt, trees, ts, 0) && KeysMerged(mergedKeys, es, vals[..0]);
    for i := 0 to |items|
      invariant merged == NodesOf(mt) && Replaced(mt, trees, ts, i)
      invariant KeysMerged(mergedKeys, es, vals[..i])
    {
      hide Key, NodeKey, HasKey, Val, Replacement, Replaced, KeysMerged;
      var node, picked, hit := PickFor(items[i], trees[i], es, ts);
      ReplacedNext(mt, trees, ts, i, picked);
      KeysMergedNext(mergedKeys, es, vals, i, hit);
      merged, mt, mergedKeys := merged + [node], mt + [picked], mergedKeys + hit;
    }
    assert vals[..|items|] == vals;
  }

  lemma HasKeyAppend(ys: seq<Yaml>, e: Yaml)
    ensures forall key :: HasKey(ys + [e], key) <==> HasKey(ys, key) || Key(e) == Some(key)
  {
    forall key ensures HasKey(ys + [e], key) <==> HasKey(ys, key) || Key(e) == Some(key) {
      if HasKey(ys, key) {
        var i :| 0 <= i < |ys| && Key(ys[i]) == Some(key);
        assert (ys + [e])[i] == ys[i];
      }
      if Key(e) == Some(key) {
        assert (ys + [e])[|ys|] == e;
      }
    }
  }

  /** The newcomers among the first `i` collected elements. */
  ghost predicate Appended(at: seq<Tree>, ts: seq<Tree>, base: seq<Yaml>, i: nat) {
    i <= |ts| && From(at, ts) && ValItems(at) == Newcomers(ValItems(ts)[..i], base)
  }

  lemma AppendedNext(at: seq<Tree>, ts: seq<Tree>, base: seq<Yaml>, i: nat)
    requires i < |ts| && Appended(at, ts, base, i)
    ensures Appended(if IsNew(Val(ts[i]), base) then at + [ts[i]] else at, ts, base, i + 1)
  {
    hide Val, IsNew;
    var vals := ValItems(ts);
    assert vals[..i + 1][..i] == vals[..i] && vals[..i + 1][i] == vals[i] == Val(ts[i]);
    assert ValItems(at + [ts[i]]) == ValItems(at) + [Val(ts[i])];
  }

  /** The collected elements whose keys were not merged, in order. */
  method AppendNewcomers(es: seq<Elem>, ghost ts: seq<Tree>, mergedKeys: set<string>, ghost base: seq<Yaml>)
    returns (added: seq<Node>, ghost at: seq<Tree>)
    requires Backed(es, ts)
    requires forall e <- es :: e.key in mergedKeys <==> HasKey(base, e.key)
    ensures added == NodesOf(at) && From(at, ts)
    ensures ValItems(at) == Newcomers(ValItems(ts), base)
  {
    added, at := [], [];
    assert Appended(at, ts, base, 0);
    for i := 0 to |es|
      invariant added == NodesOf(at) && Appended(at, ts, base, i)
    {
      assert es[i] in es;
      AppendedNext(at, ts, base, i);
      hide Appended;
      if es[i].key !in mergedKeys {
        added, at := added + [es[i].node], at + [ts[i]];
      }
    }
    assert ValItems(ts)[..|es|] == ValItems(ts);
  }

  /** The elements of the merged sequence: those of the two sequences, shared and not copied. */
  method MergedElements(base: Node, additional: Node, ghost tb: Tree, ghost ta: Tree)
    returns (items: seq<Node>, ghost trees: seq<Tree>)
    requires tb.TSeq? && ta.TSeq? && tb.node == base && ta.node == additional && Realizes(tb) && Realizes(ta)
    ensures items == NodesOf(trees) && From(trees, tb.items + ta.items)
    ensures Seq(ValItems(trees)) == Combine(Val(tb), Val(ta))
  {
    ItemKeysMatch(ta);
    ItemKeysMatch(tb);
    assert additional.shape.items == NodesOf(ta.items) && base.shape.items == NodesOf(tb.items);
    hide *;
    var es, ts := Collect(additional.shape.items, ta.items);
    var merged, mergedKeys, mt := ReplaceKeyed(base.shape.items, tb.items, es, ts);
    var added, at := AppendNewcomers(es, ts, mergedKeys, ValItems(tb.items));
    items, trees := merged + added, mt + at;
    NodesConcat(mt, at);
    FromBoth(mt, at, ts, tb.items, ta.items);
    SequenceValue(tb, ta, ts, mt, at);
  }

  lemma NodesConcat(a: seq<Tree>, b: seq<Tree>)
    ensures NodesOf(a + b) == NodesOf(a) + NodesOf(b)
  {
  }

  lemma FromBoth(mt: seq<Tree>, at: seq<Tree>, ts: seq<Tree>, base: seq<Tree>, additional: seq<Tree>)
    requires From(mt, base + ts) && From(at, ts) && From(ts, additional)
    ensures From(mt + at, base + additional)
  {
    forall i | 0 <= i < |mt + at| ensures (mt + at)[i] in base + additional {
      assert i < |mt| ==> mt[i] in base + ts;
      assert i >= |mt| ==> at[i - |mt|] in ts;
    }
  }

  /** The merged sequence is a new node; the two sequences it is made from are left alone. */
  method MergeSequences(base: Node, additional: Node, ghost tb: Tree, ghost ta: Tree) returns (node: Node, ghost t: Tree)
    requires tb.TSeq? && ta.TSeq? && tb.node == base && ta.node == additional && Realizes(tb) && Realizes(ta)
    ensures fresh(node) && t.TSeq? && t.node == node && Realizes(t)
    ensures Val(t) == Combine(Val(tb), Val(ta))
    ensures All(t) <= {node} + All(tb) + All(ta)
  {
    ghost var m := map n | n in All(tb) + All(ta) :: n.shape;
    RealizesIsHolds(tb, m);
    RealizesIsHolds(ta, m);
    Exist(m.Keys);
    var items, trees := MergedElements(base, additional, tb, ta);
    MadeFromHolds(trees, tb, ta, m);
    hide Combine, Realizes, Holds, From;
    node := new Node(SSeq(items));
    t := TSeq(node, trees);
    NewSequenceHolds(t, m);
  }

  lemma ValuesConcat(a: seq<Tree>, b: seq<Tree>)
    ensures ValItems(a + b) == ValItems(a) + ValItems(b)
  {
    hide Val;
  }

  lemma SequenceValue(tb: Tree, ta: Tree, ts: seq<Tree>, mt: seq<Tree>, at: seq<Tree>)
    requires tb.TSeq? && ta.TSeq?
    requires ValItems(ts) == Keyed(ValItems(ta.items))
    requires ValItems(mt) == Replacements(ValItems(tb.items), ValItems(ts))
    requires ValItems(at) == Newcomers(ValItems(ts), ValItems(tb.items))
    ensures Seq(ValItems(mt + at)) == Combine(Val(tb), Val(ta))
  {
    hide Replacements, Newcomers, Keyed, FirstWith, ValItems;
    KeyedReplacements(ValItems(tb.items), ValItems(ta.items));
    KeyedMatters(ValItems(ta.items), "", Null, ValItems(tb.items));
    ValuesConcat(mt, at);
  }

  lemma MadeFromHolds(ts: seq<Tree>, tb: Tree, ta: Tree, m: map<Node, Shape>)
    requires tb.TSeq? && ta.TSeq? && From(ts, tb.items + ta.items)
    requires Holds(tb, m) && Holds(ta, m)
    ensures forall i :: 0 <= i < |ts| ==> Holds(ts[i], m)
    ensures AllItems(ts) <= All(tb) + All(ta)
  {
    forall i | 0 <= i < |ts| ensures Holds(ts[i], m) && All(ts[i]) <= All(tb) + All(ta) {
      assert ts[i] in tb.items + ta.items;
      assert ts[i] in tb.items || ts[i] in ta.items;
    }
  }

  lemma NewSequenceHolds(t: Tree, m: map<Node, Shape>)
    requires t.TSeq? && t.node.shape == ShapeOf(t)
    requires forall i :: 0 <= i < |t.items| ==> Holds(t.items[i], m)
    requires forall n :: n in AllItems(t.items) ==> n in m && m[n] == n.shape
    ensures Realizes(t)
  {
    forall i | 0 <= i < |t.items| ensures Realizes(t.items[i]) {
      assert All(t.items[i]) <= AllItems(t.items);
      RealizesIsHolds(t.items[i], m);
    }
  }

  lemma {:induction false} KeyedReplacements(base: seq<Yaml>, add: seq<Yaml>)
    ensures Replacements(base, Keyed(add)) == Replacements(base, add)
    decreases |base|
  {
    if base != [] {
      KeyedReplacements(base[..|base| - 1], add);
      var e := base[|base| - 1];
      if Key(e).Some? {
        KeyedMatters(add, Key(e).value, e, []);
      }
    }
  }
}
