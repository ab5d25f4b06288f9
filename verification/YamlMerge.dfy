/**
 YAML values and the merge of one configuration into another, as a recursive function: the meaning
 of the in-place worklist merge. Maps merge key by key; sequences merge by the key of their elements;
 anything else is overwritten.
 */
module YamlMerge {
  import opened Options
  import opened Numerals

  datatype Yaml =
    | Null
    | Scalar(text: string)
    | Seq(items: seq<Yaml>)
    | Map(entries: seq<Pair>)

  datatype Pair = Pair(key: string, value: Yaml)

  /** The first entry with the key, or the number of entries. */
  function Find(es: seq<Pair>, key: string): (p: nat)
    ensures p <= |es|
    ensures p < |es| ==> es[p].key == key
    ensures forall i :: 0 <= i < p ==> es[i].key != key
  {
    if es == [] || es[0].key == key then 0 else 1 + Find(es[1..], key)
  }

  // ----- sequences -----

  /** What identifies an element of a sequence: a scalar's text, or the first key of a map. */
  function Key(y: Yaml): Option<string> {
    match y
    case Scalar(text) => Some(text)
    case Map(entries) => if entries == [] then None else Some(entries[0].key)
    case _ => None
  }

  /** The first element with the key, or the default. */
  function FirstWith(add: seq<Yaml>, key: string, default: Yaml): Yaml {
    if add == [] then default
    else if Key(add[0]) == Some(key) then add[0]
    else FirstWith(add[1..], key, default)
  }

  /** A base element gives way to the first additional element with its key. */
  function Replacement(e: Yaml, add: seq<Yaml>): Yaml {
    if Key(e).None? then e else FirstWith(add, Key(e).value, e)
  }

  function Replacements(base: seq<Yaml>, add: seq<Yaml>): (r: seq<Yaml>)
    ensures |r| == |base|
  {
    if base == [] then [] else Replacements(base[..|base| - 1], add) + [Replacement(base[|base| - 1], add)]
  }

  predicate HasKey(ys: seq<Yaml>, key: string) {
    exists i :: 0 <= i < |ys| && Key(ys[i]) == Some(key)
  }

  predicate IsNew(e: Yaml, base: seq<Yaml>) {
    Key(e).Some? && !HasKey(base, Key(e).value)
  }

  /** The additional elements whose keys the base does not have, in order. */
  function Newcomers(add: seq<Yaml>, base: seq<Yaml>): seq<Yaml> {
    if add == [] then []
    else
      var last := add[|add| - 1];
      Newcomers(add[..|add| - 1], base) + if IsNew(last, base) then [last] else []
  }

  function MergeItems(base: seq<Yaml>, add: seq<Yaml>): seq<Yaml> {
    Replacements(base, add) + Newcomers(add, base)
  }

  // ----- merging values -----

  function Combine(u: Yaml, v: Yaml): Yaml
    decreases v, 2
  {
    if u.Map? && v.Map? then Map(MergeEntries(u.entries, v.entries))
    else if u.Seq? && v.Seq? then Seq(MergeItems(u.items, v.items))
    else v
  }

  function Put(es: seq<Pair>, e: Pair): (r: seq<Pair>)
    decreases e, 0
  {
    var p := Find(es, e.key);
    if p < |es| then es[p := Pair(e.key, Combine(es[p].value, e.value))] else es + [e]
  }

  function MergeEntries(base: seq<Pair>, add: seq<Pair>): seq<Pair>
    decreases add, 1
  {
    if add == [] then base else MergeEntries(Put(base, add[0]), add[1..])
  }

  predicate UniqueKeys(es: seq<Pair>) {
    forall i, j :: 0 <= i < j < |es| ==> es[i].key != es[j].key
  }

  /** No map on a path of maps has a key twice, as YAML demands. */
  predicate WellFormed(y: Yaml)
    decreases y, 1
  {
    y.Map? ==> UniqueKeys(y.entries) && forall i :: 0 <= i < |y.entries| ==> WellFormed(y.entries[i].value)
  }

  /** A map has no key twice, and neither have the maps below it; anything else is well-formed. */
  lemma WellFormedIff(y: Yaml)
    ensures !y.Map? ==> WellFormed(y)
    ensures y.Map? ==>
      (WellFormed(y) <==> (forall k :: multiset(KeysOf(y.entries))[k] <= 1) && forall e <- y.entries :: WellFormed(e.value))
  {
    if y.Map? {
      UniqueIff(y.entries);
    }
  }

  lemma {:induction false} UniqueIff(es: seq<Pair>)
    ensures UniqueKeys(es) <==> forall k :: multiset(KeysOf(es))[k] <= 1
  {
    if es != [] {
      var n := |es| - 1;
      UniqueMore(es);
      UniqueIff(es[..n]);
      hide UniqueKeys;
      var before, now := multiset(KeysOf(es[..n])), multiset(KeysOf(es));
      assert KeysOf(es) == KeysOf(es[..n]) + [es[n].key];
      assert now == before + multiset{es[n].key};
      assert now[es[n].key] == before[es[n].key] + 1;
      if forall k :: now[k] <= 1 {
        assert forall k :: before[k] <= now[k];
      }
    }
  }

  lemma UniqueMore(es: seq<Pair>)
    requires es != []
    ensures var n := |es| - 1; UniqueKeys(es) <==> UniqueKeys(es[..n]) && es[n].key !in KeysOf(es[..n])
  {
    var n := |es| - 1;
    if UniqueKeys(es[..n]) && es[n].key !in KeysOf(es[..n]) {
      forall i, j | 0 <= i < j < |es| ensures es[i].key != es[j].key {
        assert KeysOf(es[..n])[i] == es[i].key;
      }
    }
  }

  // ----- looking up a path -----

  datatype Found = Missing | Blocked | At(value: Yaml)

  /** Follow keys through nested maps: the value there, or why there is none (a map without the key,
      or something that is not a map in the way). */
  function Walk(y: Yaml, path: seq<string>): Found
    decreases path
  {
    if path == [] then At(y)
    else if !y.Map? then Blocked
    else
      var p := Find(y.entries, path[0]);
      if p == |y.entries| then Missing else Walk(y.entries[p].value, path[1..])
  }

  /** How many keys lead to what is in the way. */
  function BlockedAfter(y: Yaml, path: seq<string>): (d: nat)
    requires Walk(y, path).Blocked?
    ensures d < |path| && Walk(y, path[..d]).At? && !Walk(y, path[..d]).value.Map?
    decreases path
  {
    if !y.Map? then 0
    else
      var p := Find(y.entries, path[0]);
      var d := BlockedAfter(y.entries[p].value, path[1..]);
      assert path[..1 + d][1..] == path[1..][..d];
      1 + d
  }

  /** What the merged configuration holds at a path, from what the two hold along it. Where the addition
      does not have the path the base decides, except that what is in its way may give way to a map. */
  function MergedAt(b: Yaml, a: Yaml, path: seq<string>): Found {
    match Walk(a, path)
    case At(v) => if Walk(b, path).At? then At(Combine(Walk(b, path).value, v)) else At(v)
    case Blocked => Blocked
    case Missing =>
      if Walk(b, path).Blocked? && Walk(a, path[..BlockedAfter(b, path)]).At? then Missing else Walk(b, path)
  }

  /** The entry of a key after a merge. */
  lemma {:induction false} MergedEntry(base: seq<Pair>, add: seq<Pair>, key: string)
    requires UniqueKeys(add)
    ensures var m := MergeEntries(base, add);
            var p, pb, pa := Find(m, key), Find(base, key), Find(add, key);
            && (p < |m| <==> pb < |base| || pa < |add|)
            && (pb < |base| ==> p == pb)
            && (pb < |base| && pa < |add| ==> m[p].value == Combine(base[pb].value, add[pa].value))
            && (pb < |base| && pa == |add| ==> m[p].value == base[pb].value)
            && (pb == |base| && pa < |add| ==> m[p].value == add[pa].value)
    decreases |add|
  {
    if add != [] {
      var base' := Put(base, add[0]);
      PutEntry(base, add[0], key);
      MergedEntry(base', add[1..], key);
    }
  }

  lemma PutEntry(base: seq<Pair>, e: Pair, key: string)
    ensures var r := Put(base, e);
            var p, pb := Find(r, key), Find(base, key);
            && (key != e.key ==> (p < |r| <==> pb < |base|) && (pb < |base| ==> p == pb && r[p] == base[pb]))
            && (key == e.key ==> p == pb < |r| && r[p].value == if pb < |base| then Combine(base[pb].value, e.value) else e.value)
  {
    var r := Put(base, e);
    var p, pb := Find(r, key), Find(base, key);
    if pb < |base| {
      assert r[pb].key == key;
    }
    if p < |base| {
      assert base[p].key == r[p].key;
    }
    if pb == |base| && key == e.key {
      assert r[|base|].key == key;
    }
  }

  /** Below a key that both have, what is held is decided below that key. */
  lemma MergedBelow(b: Yaml, a: Yaml, path: seq<string>)
    requires path != [] && b.Map? && a.Map?
    requires Find(b.entries, path[0]) < |b.entries| && Find(a.entries, path[0]) < |a.entries|
    ensures MergedAt(b, a, path) ==
            MergedAt(b.entries[Find(b.entries, path[0])].value, a.entries[Find(a.entries, path[0])].value, path[1..])
  {
    hide Combine;
    if Walk(b, path).Blocked? {
      var d := BlockedAfter(b, path);
      assert path[..d][1..] == path[1..][..d - 1];
    }
  }

  /** The lookup law: what the merged configuration holds at a path, for every path. */
  lemma {:induction false} LookupLaw(b: Yaml, a: Yaml, path: seq<string>)
    requires WellFormed(a)
    ensures Walk(Combine(b, a), path) == MergedAt(b, a, path)
    decreases path
  {
    if path != [] && b.Map? && a.Map? {
      MergedEntry(b.entries, a.entries, path[0]);
      var pb, pa := Find(b.entries, path[0]), Find(a.entries, path[0]);
      if pb < |b.entries| && pa < |a.entries| {
        LookupLaw(b.entries[pb].value, a.entries[pa].value, path[1..]);
        MergedBelow(b, a, path);
      } else if pb < |b.entries| && Walk(b, path).Blocked? {
        assert path[..BlockedAfter(b, path)][0] == path[0];
      }
    }
  }

  // ----- folding the group files over the local configuration -----

  /** A list as a map by position. */
  function Positions(items: seq<Yaml>): (r: seq<Pair>)
    ensures |r| == |items| && forall i :: 0 <= i < |items| ==> r[i] == Pair(Digits(i), items[i])
  {
    seq(|items|, i requires 0 <= i < |items| => Pair(Digits(i), items[i]))
  }

  /** A configuration as a merge finds it: looking up a key turns a list into a map by position. */
  function Rooted(config: Yaml): Yaml {
    if config.Seq? then Map(Positions(config.items)) else config
  }

  /** Follow keys as a reader of the configuration does: through maps by key, through lists by position. */
  function Lookup(y: Yaml, path: seq<string>): Found
    decreases path
  {
    if path == [] then At(y)
    else
      var r := Rooted(y);
      if !r.Map? then Blocked
      else
        var p := Find(r.entries, path[0]);
        if p == |r.entries| then Missing else Lookup(r.entries[p].value, path[1..])
  }

  /** What is found through maps alone is what a reader finds. */
  lemma {:induction false} WalkIsLookup(y: Yaml, path: seq<string>)
    requires Walk(y, path).At?
    ensures Lookup(y, path) == Walk(y, path)
  {
    if path != [] {
      WalkIsLookup(y.entries[Find(y.entries, path[0])].value, path[1..]);
    }
  }

  /** A file that cannot be merged: elements of a list have no key, and a scalar has no entries. */
  predicate Fails(config: Yaml, file: Yaml) {
    !config.Null? && ((file.Seq? && file.items != []) || (config.Scalar? && file.Map? && file.entries != []))
  }

  /** One more file: it becomes the configuration if there is none, and its entries are merged in if it has
      any. Anything else adds nothing. */
  function MergeFile(config: Yaml, file: Yaml): Yaml {
    if config.Null? then file
    else if file.Map? && file.entries != [] && !config.Scalar? then Combine(Rooted(config), file)
    else config
  }

  /** The files merged one after another. */
  function MergeFiles(config: Yaml, files: seq<Yaml>): Yaml {
    if files == [] then config else MergeFile(MergeFiles(config, files[..|files| - 1]), files[|files| - 1])
  }

  /** The files can be merged one after another. */
  ghost predicate Mergeable(config: Yaml, files: seq<Yaml>) {
    forall j :: 0 <= j < |files| ==> WellFormed(files[j]) && !Fails(MergeFiles(config, files[..j]), files[j])
  }

  /** The last file, and those before it. */
  lemma LastMerged(config: Yaml, files: seq<Yaml>)
    requires Mergeable(config, files) && files != []
    ensures var k := |files| - 1; var before := MergeFiles(config, files[..k]);
            && Mergeable(config, files[..k]) && WellFormed(files[k]) && !Fails(before, files[k])
            && MergeFiles(config, files) == MergeFile(before, files[k])
  {
    hide Fails, MergeFile, WellFormed;
    var k := |files| - 1;
    forall j | 0 <= j < k ensures WellFormed(files[..k][j]) && !Fails(MergeFiles(config, files[..k][..j]), files[..k][j]) {
      assert files[..k][..j] == files[..j];
    }
  }

  /** A file says nothing about a path: it has no entries, or its maps lead nowhere along the path. */
  predicate Silent(file: Yaml, path: seq<string>) {
    !file.Map? || Walk(file, path).Missing?
  }

  /** A path on which every file is silent keeps the value of the local configuration. */
  lemma {:induction false} UntouchedPathKeeps(config: Yaml, files: seq<Yaml>, path: seq<string>)
    requires path != [] && Walk(config, path).At? && Mergeable(config, files)
    requires forall j :: 0 <= j < |files| ==> Silent(files[j], path)
    ensures Walk(MergeFiles(config, files), path) == Walk(config, path)
  {
    if files != [] {
      var k := |files| - 1;
      hide Combine, MergeFile, Fails, Silent, WellFormed, Walk, Mergeable;
      LastMerged(config, files);
      UntouchedPathKeeps(config, files[..k], path);
      SilentKeeps(MergeFiles(config, files[..k]), files[k], path);
    }
  }

  lemma SilentKeeps(config: Yaml, file: Yaml, path: seq<string>)
    requires WellFormed(file) && path != [] && Walk(config, path).At? && Silent(file, path)
    ensures Walk(MergeFile(config, file), path) == Walk(config, path)
  {
    LookupLaw(config, file, path);
  }

  /** Nothing but this value, at the path. */
  function Nested(path: seq<string>, y: Yaml): Yaml {
    if path == [] then y else Map([Pair(path[0], Nested(path[1..], y))])
  }

  lemma {:induction false} NestedAt(path: seq<string>, y: Yaml)
    ensures Walk(Nested(path, y), path) == At(y)
  {
    if path != [] {
      NestedAt(path[1..], y);
      assert Find([Pair(path[0], Nested(path[1..], y))], path[0]) == 0;
    }
  }

  /** A file is silent on a path exactly when it leaves alone what any configuration holds there. */
  lemma SilentIff(file: Yaml, path: seq<string>)
    requires WellFormed(file) && path != []
    ensures Silent(file, path) <==>
            forall config :: Walk(config, path).At? ==> Walk(MergeFile(config, file), path) == Walk(config, path)
  {
    if Silent(file, path) {
      forall config | Walk(config, path).At? ensures Walk(MergeFile(config, file), path) == Walk(config, path) {
        SilentKeeps(config, file, path);
      }
    } else {
      var other := if Walk(file, path) == At(Scalar("")) then Scalar("x") else Scalar("");
      NestedAt(path, other);
      var config := Nested(path, other);
      LookupLaw(config, file, path);
      assert Walk(config, path).At? && Walk(MergeFile(config, file), path) != Walk(config, path);
    }
  }

  /** The last file that has a scalar at a path decides its value, whatever came before. */
  lemma {:induction false} LastScalarWins(config: Yaml, files: seq<Yaml>, i: nat, path: seq<string>)
    requires Mergeable(config, files) && path != [] && i < |files|
    requires Walk(files[i], path).At? && Walk(files[i], path).value.Scalar?
    requires forall j :: i < j < |files| ==> Silent(files[j], path)
    ensures Walk(MergeFiles(config, files), path) == Walk(files[i], path)
    decreases |files|
  {
    var k := |files| - 1;
    hide *;
    LastMerged(config, files);
    if i == k {
      ScalarMerged(MergeFiles(config, files[..k]), files[k], path);
    } else {
      assert files[..k][i] == files[i];
      LastScalarWins(config, files[..k], i, path);
      SilentKeeps(MergeFiles(config, files[..k]), files[k], path);
    }
  }

  lemma ScalarMerged(config: Yaml, file: Yaml, path: seq<string>)
    requires WellFormed(file) && !Fails(config, file) && path != []
    requires Walk(file, path).At? && Walk(file, path).value.Scalar?
    ensures Walk(MergeFile(config, file), path) == Walk(file, path)
  {
    LookupLaw(Rooted(config), file, path);
  }

  // ----- sequences -----

  lemma {:induction false} FirstWithKeeps(add: seq<Yaml>, key: string, default: Yaml)
    ensures HasKey(add, key) ==> Key(FirstWith(add, key, default)) == Some(key) && FirstWith(add, key, default) in add
    ensures !HasKey(add, key) ==> FirstWith(add, key, default) == default
  {
    if add != [] {
      FirstWithKeeps(add[1..], key, default);
      if Key(add[0]) == Some(key) {
        assert HasKey(add, key);
      } else if HasKey(add, key) {
        var i :| 0 <= i < |add| && Key(add[i]) == Some(key);
        assert add[1..][i - 1] == add[i];
      }
    }
  }

  lemma {:induction false} ReplacementAt(base: seq<Yaml>, add: seq<Yaml>, i: nat)
    requires i < |base|
    ensures Replacements(base, add)[i] == Replacement(base[i], add)
  {
    if i < |base| - 1 {
      ReplacementAt(base[..|base| - 1], add, i);
    }
  }

  /** A base element keeps its key, and gives way only to an additional element with that key. */
  lemma KeyStays(base: seq<Yaml>, add: seq<Yaml>, i: nat)
    requires i < |base|
    ensures var r := MergeItems(base, add);
            && Key(r[i]) == Key(base[i])
            && (Key(base[i]).Some? && HasKey(add, Key(base[i]).value) ==> r[i] in add)
  {
    ReplacementAt(base, add, i);
    if Key(base[i]).Some? {
      FirstWithKeeps(add, Key(base[i]).value, base[i]);
    }
  }

  /** A scalar is identified by its text, and a map by its first key; nothing else is identified. */
  ghost predicate Identifies(k: string, y: Yaml) {
    y == Scalar(k) || exists v, rest :: y == Map([Pair(k, v)] + rest)
  }

  lemma KeyIdentifies(k: string, y: Yaml)
    ensures Key(y) == Some(k) <==> Identifies(k, y)
  {
    if y.Map? && y.entries != [] {
      assert y == Map([Pair(y.entries[0].key, y.entries[0].value)] + y.entries[1..]);
    }
  }

  /** `add[j]` is the first element that `k` identifies. */
  ghost predicate FirstIdentified(add: seq<Yaml>, k: string, j: nat) {
    j < |add| && Identifies(k, add[j]) && forall l :: 0 <= l < j ==> !Identifies(k, add[l])
  }

  lemma {:induction false} FirstWithIsFirst(add: seq<Yaml>, k: string, default: Yaml)
    ensures forall j: nat :: FirstIdentified(add, k, j) ==> FirstWith(add, k, default) == add[j]
    ensures (forall j :: 0 <= j < |add| ==> !Identifies(k, add[j])) ==> FirstWith(add, k, default) == default
  {
    if add != [] {
      KeyIdentifies(k, add[0]);
      FirstWithIsFirst(add[1..], k, default);
      hide Identifies;
      forall j: nat | FirstIdentified(add, k, j) ensures FirstWith(add, k, default) == add[j] {
        if j > 0 {
          assert !Identifies(k, add[0]);
          assert forall l :: 0 <= l < j - 1 ==> add[1..][l] == add[l + 1];
          assert FirstIdentified(add[1..], k, j - 1);
        }
      }
      assert forall l :: 0 <= l < |add| - 1 ==> add[1..][l] == add[l + 1];
    }
  }

  /** A merged sequence keeps every base position. An element that nothing identifies stays, and so does one
      that nothing in the addition is identified with; any other gives way to the first additional element
      that is identified by the same. */
  lemma MergedPositions(base: seq<Yaml>, add: seq<Yaml>, i: nat)
    requires i < |base|
    ensures |MergeItems(base, add)| >= |base|
    ensures (forall k :: !Identifies(k, base[i])) ==> MergeItems(base, add)[i] == base[i]
    ensures forall k :: Identifies(k, base[i]) && (forall j :: 0 <= j < |add| ==> !Identifies(k, add[j])) ==>
      MergeItems(base, add)[i] == base[i]
    ensures forall k, j: nat :: Identifies(k, base[i]) && FirstIdentified(add, k, j) ==> MergeItems(base, add)[i] == add[j]
  {
    ReplacementAt(base, add, i);
    if Key(base[i]).Some? {
      KeyIdentifies(Key(base[i]).value, base[i]);
    }
    hide Identifies;
    forall k | Identifies(k, base[i])
      ensures (forall j :: 0 <= j < |add| ==> !Identifies(k, add[j])) ==> MergeItems(base, add)[i] == base[i]
      ensures forall j: nat :: FirstIdentified(add, k, j) ==> MergeItems(base, add)[i] == add[j]
    {
      KeyIdentifies(k, base[i]);
      FirstWithIsFirst(add, k, base[i]);
    }
  }

  ghost predicate Increasing(at: seq<nat>) {
    forall i, j :: 0 <= i < j < |at| ==> at[i] < at[j]
  }

  /** `tail` holds the elements at the positions `at`. */
  ghost predicate TakenFrom(tail: seq<Yaml>, add: seq<Yaml>, at: seq<nat>) {
    |tail| == |at| && forall i :: 0 <= i < |at| ==> at[i] < |add| && tail[i] == add[at[i]]
  }

  /** Something identifies the element, and no element of the base. */
  ghost predicate Unmatched(e: Yaml, base: seq<Yaml>) {
    exists k :: Identifies(k, e) && forall i :: 0 <= i < |base| ==> !Identifies(k, base[i])
  }

  lemma NewIsUnmatched(e: Yaml, base: seq<Yaml>)
    ensures IsNew(e, base) <==> Unmatched(e, base)
  {
    forall k, i | 0 <= i < |base| ensures Identifies(k, base[i]) <==> Key(base[i]) == Some(k) {
      KeyIdentifies(k, base[i]);
    }
    forall k ensures Identifies(k, e) <==> Key(e) == Some(k) {
      KeyIdentifies(k, e);
    }
    hide Identifies;
    if IsNew(e, base) {
      assert Identifies(Key(e).value, e);
    }
  }

  /** The positions `at` are those of the elements without a match. */
  ghost predicate MarksNew(at: seq<nat>, base: seq<Yaml>, add: seq<Yaml>) {
    forall k :: 0 <= k < |add| ==> (k in at <==> Unmatched(add[k], base))
  }

  /** `tail` holds exactly the additional elements without a match, found at the increasing positions `at`. */
  ghost predicate AreNewcomers(tail: seq<Yaml>, base: seq<Yaml>, add: seq<Yaml>, at: seq<nat>) {
    Increasing(at) && TakenFrom(tail, add, at) && MarksNew(at, base, add)
  }

  lemma TakenMore(tail: seq<Yaml>, rest: seq<Yaml>, at: seq<nat>, e: Yaml)
    requires TakenFrom(tail, rest, at)
    ensures TakenFrom(tail, rest + [e], at) && TakenFrom(tail + [e], rest + [e], at + [|rest|])
    ensures forall i :: 0 <= i < |at| ==> at[i] < |rest|
  {
  }

  lemma MarksMore(at: seq<nat>, base: seq<Yaml>, rest: seq<Yaml>, e: Yaml)
    requires MarksNew(at, base, rest) && forall i :: 0 <= i < |at| ==> at[i] < |rest|
    ensures MarksNew(if IsNew(e, base) then at + [|rest|] else at, base, rest + [e])
  {
    NewIsUnmatched(e, base);
    hide IsNew, Unmatched;
    var at', add := if IsNew(e, base) then at + [|rest|] else at, rest + [e];
    forall k | 0 <= k < |add| ensures k in at' <==> Unmatched(add[k], base) {
      if k < |rest| {
        assert add[k] == rest[k] && (k in at' <==> k in at);
      } else {
        assert add[k] == e && k !in at;
      }
    }
  }

  lemma NewcomersGrow(tail: seq<Yaml>, base: seq<Yaml>, rest: seq<Yaml>, at: seq<nat>, e: Yaml)
    requires AreNewcomers(tail, base, rest, at)
    ensures if IsNew(e, base) then AreNewcomers(tail + [e], base, rest + [e], at + [|rest|])
            else AreNewcomers(tail, base, rest + [e], at)
  {
    hide IsNew, TakenFrom, MarksNew;
    TakenMore(tail, rest, at, e);
    MarksMore(at, base, rest, e);
  }

  lemma {:induction false} NewcomersAt(base: seq<Yaml>, add: seq<Yaml>) returns (at: seq<nat>)
    ensures AreNewcomers(Newcomers(add, base), base, add, at)
  {
    if add == [] {
      at := [];
    } else {
      hide IsNew, AreNewcomers;
      var k := |add| - 1;
      at := NewcomersAt(base, add[..k]);
      NewcomersGrow(Newcomers(add[..k], base), base, add[..k], at, add[k]);
      assert add[..k] + [add[k]] == add;
      if IsNew(add[k], base) {
        at := at + [k];
      } else {
        assert Newcomers(add, base) == Newcomers(add[..k], base);
      }
    }
  }

  /** After the base positions come exactly the additional elements without a match, in their order. */
  lemma MergedTail(base: seq<Yaml>, add: seq<Yaml>) returns (at: seq<nat>)
    ensures |MergeItems(base, add)| >= |base|
    ensures AreNewcomers(MergeItems(base, add)[|base|..], base, add, at)
  {
    at := NewcomersAt(base, add);
    assert MergeItems(base, add)[|base|..] == Newcomers(add, base);
  }

  /** Two elements: the same text or first key makes the second take the first one's place, whatever else
      they hold; different ones keep both, base first. What nothing identifies stays in the base and is
      dropped from the addition. */
  lemma TwoElements(k: string, k': string, u: Yaml, v: Yaml, rest: seq<Pair>, rest': seq<Pair>)
    ensures var a, b, c := Map([Pair(k, u)] + rest), Map([Pair(k, v)] + rest'), Map([Pair(k', v)] + rest');
            && MergeItems([a], [b]) == [b] && MergeItems([Scalar(k)], [b]) == [b] && MergeItems([a], [Scalar(k)]) == [Scalar(k)]
            && MergeItems([Scalar(k)], [Scalar(k)]) == [Scalar(k)]
            && (k != k' ==> MergeItems([a], [c]) == [a, c] && MergeItems([Scalar(k)], [Scalar(k')]) == [Scalar(k), Scalar(k')])
            && (k != k' ==> MergeItems([a], [Scalar(k')]) == [a, Scalar(k')] && MergeItems([Scalar(k)], [c]) == [Scalar(k), c])
  {
    var a, b, c := Map([Pair(k, u)] + rest), Map([Pair(k, v)] + rest'), Map([Pair(k', v)] + rest');
    assert Key(a) == Some(k) && Key(b) == Some(k) && Key(c) == Some(k');
    MergeOne(a, b);
    MergeOne(Scalar(k), b);
    MergeOne(a, Scalar(k));
    MergeOne(Scalar(k), Scalar(k));
    MergeOne(a, c);
    MergeOne(Scalar(k), Scalar(k'));
    MergeOne(a, Scalar(k'));
    MergeOne(Scalar(k), c);
  }

  lemma OneReplacement(a: Yaml, b: Yaml)
    ensures Replacements([a], [b]) == [if Key(a).Some? && Key(a) == Key(b) then b else a]
  {
    ReplacementAt([a], [b], 0);
    if Key(a).Some? {
      assert [b][1..] == [] && FirstWith([b][1..], Key(a).value, a) == a;
    }
  }

  lemma OneNewcomer(a: Yaml, b: Yaml)
    ensures Newcomers([b], [a]) == if Key(b).Some? && Key(a) != Key(b) then [b] else []
  {
    assert [b][..0] == [];
    if Key(b).Some? && Key(a) == Key(b) {
      assert Key([a][0]) == Some(Key(b).value);
    }
  }

  lemma MergeOne(a: Yaml, b: Yaml)
    ensures MergeItems([a], [b]) == if Key(b).None? then [a] else if Key(a) == Key(b) then [b] else [a, b]
  {
    OneReplacement(a, b);
    OneNewcomer(a, b);
  }

  /** Null, lists and empty maps are identified by nothing: those of the base stay, those of the addition go. */
  lemma Unidentified(e: Yaml, other: Yaml)
    requires e.Null? || e.Seq? || e == Map([])
    ensures MergeItems([e], [other]) == if exists k :: Identifies(k, other) then [e, other] else [e]
    ensures MergeItems([other], [e]) == [other]
  {
    MergeOne(e, other);
    MergeOne(other, e);
    forall k ensures Identifies(k, other) <==> Key(other) == Some(k) {
      KeyIdentifies(k, other);
    }
  }

  // ----- what a merge is, by kind and by key -----

  /** Two maps and two sequences are merged; anything else is overwritten. */
  lemma CombineCases(u: Yaml, v: Yaml)
    ensures !(u.Map? && v.Map?) && !(u.Seq? && v.Seq?) ==> Combine(u, v) == v
    ensures u.Seq? && v.Seq? ==> Combine(u, v) == Seq(MergeItems(u.items, v.items))
    ensures u.Map? && v.Map? ==> Combine(u, v).Map?
  {
  }

  function KeysOf(es: seq<Pair>): (r: seq<string>)
    ensures |r| == |es| && forall i :: 0 <= i < |es| ==> r[i] == es[i].key
  {
    seq(|es|, i requires 0 <= i < |es| => es[i].key)
  }

  /** The keys that are not among the others, in order. */
  function Without(keys: seq<string>, others: seq<string>): seq<string> {
    if keys == [] then []
    else (if keys[0] in others then [] else [keys[0]]) + Without(keys[1..], others)
  }

  lemma PutKeys(base: seq<Pair>, e: Pair)
    ensures KeysOf(Put(base, e)) == KeysOf(base) + if e.key in KeysOf(base) then [] else [e.key]
  {
    hide Combine;
    var p := Find(base, e.key);
    if e.key in KeysOf(base) {
      var i :| 0 <= i < |base| && KeysOf(base)[i] == e.key;
    }
    if p < |base| {
      assert KeysOf(base)[p] == e.key;
    }
  }

  lemma {:induction false} WithoutMore(keys: seq<string>, others: seq<string>, k: string)
    requires k !in keys
    ensures Without(keys, others + [k]) == Without(keys, others)
  {
    if keys != [] {
      assert keys[0] in keys && k !in keys[1..];
      WithoutMore(keys[1..], others, k);
    }
  }

  /** The keys of a merged map: those of the base in their order, then the new ones of the addition in theirs. */
  lemma {:induction false} MergedKeys(base: seq<Pair>, add: seq<Pair>)
    requires UniqueKeys(add)
    ensures KeysOf(MergeEntries(base, add)) == KeysOf(base) + Without(KeysOf(add), KeysOf(base))
    decreases |add|
  {
    if add != [] {
      var base', k := Put(base, add[0]), add[0].key;
      PutKeys(base, add[0]);
      MergedKeys(base', add[1..]);
      assert KeysOf(add)[1..] == KeysOf(add[1..]) && KeysOf(add)[0] == k;
      assert k !in KeysOf(add[1..]);
      assert MergeEntries(base, add) == MergeEntries(base', add[1..]);
      hide Put, MergeEntries;
      var rest := Without(KeysOf(add[1..]), KeysOf(base));
      if k in KeysOf(base) {
        assert Without(KeysOf(add), KeysOf(base)) == rest && KeysOf(base') == KeysOf(base);
      } else {
        WithoutMore(KeysOf(add[1..]), KeysOf(base), k);
        assert Without(KeysOf(add), KeysOf(base)) == [k] + rest && KeysOf(base') == KeysOf(base) + [k];
        assert KeysOf(base) + [k] + rest == KeysOf(base) + ([k] + rest);
      }
    }
  }

  /** What a file does to what is held along a path, whatever the two roots are. */
  lemma FileLookup(config: Yaml, file: Yaml, path: seq<string>)
    requires WellFormed(file)
    ensures config.Null? ==> MergeFile(config, file) == file
    ensures !config.Null? && (!file.Map? || config.Scalar?) ==> MergeFile(config, file) == config
    ensures file == Map([]) && !config.Null? ==> MergeFile(config, file) == config
    ensures config.Map? && file.Map? ==> Walk(MergeFile(config, file), path) == MergedAt(config, file, path)
    ensures config.Seq? && file.Map? && file.entries != [] ==>
      Walk(MergeFile(config, file), path) == MergedAt(Map(Positions(config.items)), file, path)
  {
    LookupLaw(Rooted(config), file, path);
    if config.Map? && file == Map([]) {
      assert Combine(config, file) == config;
    }
  }

  /** A reader follows a list by position and a map by key. */
  lemma ByPosition(items: seq<Yaml>, i: nat, rest: seq<string>)
    requires i < |items|
    ensures Lookup(Seq(items), [Digits(i)] + rest) == Lookup(items[i], rest)
  {
    var es, path := Positions(items), [Digits(i)] + rest;
    var p := Find(es, Digits(i));
    assert es[i].key == Digits(i);
    assert Digits(p) == es[p].key;
    assert Number(Digits(p)) == Number(Digits(i));
    assert path[1..] == rest;
  }

  lemma ByKey(entries: seq<Pair>, i: nat, rest: seq<string>)
    requires i < |entries| && UniqueKeys(entries)
    ensures Lookup(Map(entries), [entries[i].key] + rest) == Lookup(entries[i].value, rest)
  {
    var path := [entries[i].key] + rest;
    assert path[1..] == rest;
  }

  // ----- merging a file twice -----

  predicate SameKeySame(ys: seq<Yaml>) {
    forall i, j :: 0 <= i < |ys| && 0 <= j < |ys| && Key(ys[i]).Some? && Key(ys[i]) == Key(ys[j]) ==> ys[i] == ys[j]
  }

  /** In every sequence on a path of maps, elements with the same key are the same. */
  predicate Consistent(y: Yaml)
    decreases y
  {
    match y
    case Seq(items) => SameKeySame(items)
    case Map(entries) => forall i :: 0 <= i < |entries| ==> Consistent(entries[i].value)
    case _ => true
  }

  lemma {:induction false} NoNewcomers(add: seq<Yaml>, base: seq<Yaml>)
    requires forall i :: 0 <= i < |add| ==> !IsNew(add[i], base)
    ensures Newcomers(add, base) == []
  {
    if add != [] {
      NoNewcomers(add[..|add| - 1], base);
    }
  }

  /** Every keyed additional element finds its key in the merged sequence. */
  lemma MergedHasKeys(base: seq<Yaml>, add: seq<Yaml>, i: nat)
    requires i < |add|
    ensures !IsNew(add[i], MergeItems(base, add))
  {
    var r := MergeItems(base, add);
    if Key(add[i]).Some? {
      if HasKey(base, Key(add[i]).value) {
        var j :| 0 <= j < |base| && Key(base[j]) == Some(Key(add[i]).value);
        KeyStays(base, add, j);
        assert Key(r[j]) == Key(add[i]);
      } else {
        var at := NewcomersAt(base, add);
        NewIsUnmatched(add[i], base);
        hide Unmatched;
        var j :| 0 <= j < |at| && at[j] == i;
        assert r[|base| + j] == add[i];
      }
    }
  }

  /** A merged sequence answers its own replacement when elements with the same key are the same. */
  lemma MergedIsSettled(base: seq<Yaml>, add: seq<Yaml>, i: nat)
    requires SameKeySame(add) && i < |MergeItems(base, add)|
    ensures Replacement(MergeItems(base, add)[i], add) == MergeItems(base, add)[i]
  {
    var r := MergeItems(base, add);
    if Key(r[i]).Some? {
      var key := Key(r[i]).value;
      FirstWithKeeps(add, key, r[i]);
      if HasKey(add, key) {
        assert r[i] in add by {
          if i < |base| {
            KeyStays(base, add, i);
          } else {
            var at := NewcomersAt(base, add);
            assert r[i] == Newcomers(add, base)[i - |base|] == add[at[i - |base|]];
          }
        }
      }
    }
  }

  lemma MergeItemsTwice(base: seq<Yaml>, add: seq<Yaml>)
    requires SameKeySame(add)
    ensures MergeItems(MergeItems(base, add), add) == MergeItems(base, add)
  {
    var r := MergeItems(base, add);
    forall i | 0 <= i < |add| ensures !IsNew(add[i], r) {
      MergedHasKeys(base, add, i);
    }
    NoNewcomers(add, r);
    forall i | 0 <= i < |r| ensures Replacements(r, add)[i] == r[i] {
      ReplacementAt(r, add, i);
      MergedIsSettled(base, add, i);
    }
    assert Replacements(r, add) == r;
  }

  /** Entries that are already merged in change nothing. */
  lemma {:induction false} Absorbed(m: seq<Pair>, add: seq<Pair>)
    requires forall i :: 0 <= i < |add| ==>
      var p := Find(m, add[i].key); p < |m| && Combine(m[p].value, add[i].value) == m[p].value
    ensures MergeEntries(m, add) == m
    decreases |add|
  {
    if add != [] {
      var p := Find(m, add[0].key);
      assert m[p := Pair(add[0].key, m[p].value)] == m;
      assert Put(m, add[0]) == m;
      Absorbed(m, add[1..]);
    }
  }

  lemma FindUnique(es: seq<Pair>, i: nat)
    requires UniqueKeys(es) && i < |es|
    ensures Find(es, es[i].key) == i
  {
    var p := Find(es, es[i].key);
    assert p <= i;
  }

  /** Merging a consistent file a second time changes nothing. */
  lemma {:induction false} MergeTwice(b: Yaml, f: Yaml)
    requires WellFormed(f) && Consistent(f)
    ensures Combine(Combine(b, f), f) == Combine(b, f)
    decreases f
  {
    match f {
      case Seq(items) =>
        if b.Seq? {
          MergeItemsTwice(b.items, items);
        }
        MergeItemsTwice([], items);
        SelfMergeItems(items);
      case Map(entries) =>
        var base := if b.Map? then b.entries else [];
        if !b.Map? {
          MergeIntoNothing(entries);
        }
        var m := MergeEntries(base, entries);
        forall i | 0 <= i < |entries|
          ensures var p := Find(m, entries[i].key); p < |m| && Combine(m[p].value, entries[i].value) == m[p].value
        {
          MergedEntry(base, entries, entries[i].key);
          FindUnique(entries, i);
          var pb := Find(base, entries[i].key);
          MergeTwice(if pb < |base| then base[pb].value else Null, entries[i].value);
        }
        Absorbed(m, entries);
      case _ =>
    }
  }

  lemma {:induction false} SelfMergeItems(items: seq<Yaml>)
    requires SameKeySame(items)
    ensures MergeItems(items, items) == items
  {
    forall i | 0 <= i < |items| ensures !IsNew(items[i], items) {
    }
    NoNewcomers(items, items);
    forall i | 0 <= i < |items| ensures Replacements(items, items)[i] == items[i] {
      ReplacementAt(items, items, i);
      if Key(items[i]).Some? {
        FirstWithKeeps(items, Key(items[i]).value, items[i]);
      }
    }
  }

  /** Merging distinct entries into nothing gives those entries. */
  lemma {:induction false} MergeIntoNothing(entries: seq<Pair>)
    requires UniqueKeys(entries)
    ensures MergeEntries([], entries) == entries
  {
    AppendNew([], entries);
    assert [] + entries == entries;
  }

  lemma {:induction false} AppendNew(base: seq<Pair>, add: seq<Pair>)
    requires UniqueKeys(base + add)
    ensures MergeEntries(base, add) == base + add
    decreases |add|
  {
    if add != [] {
      assert (base + add)[|base|] == add[0];
      assert forall p :: 0 <= p < |base| ==> (base + add)[p] == base[p];
      assert base + add == (base + [add[0]]) + add[1..];
      AppendNew(base + [add[0]], add[1..]);
    }
  }

  /** A file that survives being merged into itself is consistent. */
  lemma {:induction false} SelfMergeConsistent(f: Yaml)
    requires WellFormed(f) && Combine(f, f) == f
    ensures Consistent(f)
    decreases f
  {
    match f {
      case Seq(items) =>
        forall i | 0 <= i < |items| && Key(items[i]).Some?
          ensures items[i] == FirstWith(items, Key(items[i]).value, Null)
        {
          ReplacementAt(items, items, i);
          assert items[i] == MergeItems(items, items)[i] == Replacement(items[i], items);
          SameFirst(items, Key(items[i]).value, items[i], Null);
        }
      case Map(entries) =>
        forall i | 0 <= i < |entries| ensures Consistent(entries[i].value) {
          MergedEntry(entries, entries, entries[i].key);
          FindUnique(entries, i);
          SelfMergeConsistent(entries[i].value);
        }
      case _ =>
    }
  }

  lemma {:induction false} SameFirst(add: seq<Yaml>, key: string, d: Yaml, d': Yaml)
    requires HasKey(add, key)
    ensures FirstWith(add, key, d) == FirstWith(add, key, d')
  {
    if Key(add[0]) != Some(key) {
      var i :| 0 <= i < |add| && Key(add[i]) == Some(key);
      assert add[1..][i - 1] == add[i];
      SameFirst(add[1..], key, d, d');
    }
  }

  predicate TwiceIsOnce(b: Yaml, f: Yaml) {
    Combine(Combine(b, f), f) == Combine(b, f)
  }

  /** Merging a file twice equals merging it once, whatever the base, exactly when the elements of each
      of its sequences that share a key are the same. */
  lemma MergeTwiceIffConsistent(f: Yaml)
    requires WellFormed(f)
    ensures Consistent(f) <==> forall b :: TwiceIsOnce(b, f)
  {
    if Consistent(f) {
      forall b ensures TwiceIsOnce(b, f) {
        MergeTwice(b, f);
      }
    }
    if TwiceIsOnce(Null, f) {
      SelfMergeConsistent(f);
    }
  }
}
