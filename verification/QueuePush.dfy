/**
 Pushing a message: its elements are stored one by one if the number of stored messages leaves room for
 them, otherwise nothing is. A number that cannot be read counts as zero.
 */
module QueuePush {
  import opened Options
  import opened QueueTable
  import opened QueueStorage
  import QueueCapacity

  /** The data of a message: one value, or an array of elements (each a value or again an array). */
  datatype Data = Value(text: Text) | Array(elements: seq<Payload>)

  function Elements(d: Data): seq<Payload> {
    if d.Value? then [One(d.text)] else d.elements
  }

  /** No element is itself an array. */
  predicate Plain(d: Data) {
    forall i :: 0 <= i < |Elements(d)| ==> Elements(d)[i].One?
  }

  /** How many rows each element becomes. */
  function Weights(es: seq<Payload>): (r: seq<nat>)
    ensures |r| == |es| && forall i :: 0 <= i < |es| ==> r[i] == |Texts(es[i])|
  {
    seq(|es|, i requires 0 <= i < |es| => |Texts(es[i])|)
  }

  /** An outcome for every insert of every element. */
  predicate Fits(es: seq<Payload>, os: seq<Outcome>) {
    |os| == |es| && forall i :: 0 <= i < |es| ==> |os[i].oks| == |Texts(es[i])|
  }

  /** The rows after the first `n` elements. */
  function Pushed(rows: seq<Row>, es: seq<Payload>, f: Fields, os: seq<Outcome>, n: nat): seq<Row>
    requires Fits(es, os) && n <= |es|
  {
    if n == 0 then rows else Inserted(Pushed(rows, es, f, os, n - 1), Texts(es[n - 1]), f, os[n - 1].oks)
  }

  /** How many rows the first `n` elements become. */
  function Stored(os: seq<Outcome>, n: nat): nat
    requires n <= |os|
  {
    if n == 0 then 0 else Stored(os, n - 1) + Successes(os[n - 1].oks)
  }

  /** The first element whose transaction does not begin or does not commit, or their number. */
  function FirstError(os: seq<Outcome>): (k: nat)
    ensures k <= |os| && (k < |os| ==> !os[k].begin || !os[k].commit)
    ensures forall i :: 0 <= i < k ==> os[i].begin && os[i].commit
  {
    if os == [] || !os[0].begin || !os[0].commit then 0 else 1 + FirstError(os[1..])
  }

  lemma PushedMore(rows: seq<Row>, es: seq<Payload>, f: Fields, os: seq<Outcome>, i: nat)
    requires Fits(es, os) && i < |es|
    ensures |os[i].oks| == |Texts(es[i])|
    ensures Pushed(rows, es, f, os, i + 1) == Inserted(Pushed(rows, es, f, os, i), Texts(es[i]), f, os[i].oks)
    ensures Stored(os, i + 1) == Stored(os, i) + Successes(os[i].oks)
  {
  }

  lemma Overwrite(m: map<string, seq<Row>>, k: string, a: seq<Row>, b: seq<Row>)
    ensures m[k := a][k := b] == m[k := b]
  {
  }

  lemma {:induction false} SuccessesBound(oks: seq<bool>)
    ensures Successes(oks) <= |oks|
    ensures (forall i :: 0 <= i < |oks| ==> oks[i]) ==> Successes(oks) == |oks|
  {
    if oks != [] {
      SuccessesBound(oks[..|oks| - 1]);
    }
  }

  /** The rows of a push follow those that were there, as many as inserts succeeded, and no more than the
      elements weigh. */
  lemma {:induction false} PushedGrows(rows: seq<Row>, es: seq<Payload>, f: Fields, os: seq<Outcome>, n: nat)
    requires Increasing(rows) && Fits(es, os) && n <= |es|
    ensures var r := Pushed(rows, es, f, os, n);
            Increasing(r) && rows <= r && |r| == |rows| + Stored(os, n) && Stored(os, n) <= QueueCapacity.Sum(Weights(es[..n]))
  {
    if n > 0 {
      PushedGrows(rows, es, f, os, n - 1);
      hide Inserted, Increasing, Texts;
      InsertedAppends(Pushed(rows, es, f, os, n - 1), Texts(es[n - 1]), f, os[n - 1].oks);
      SuccessesBound(os[n - 1].oks);
      assert Weights(es[..n])[..n - 1] == Weights(es[..n - 1]);
    }
  }

  lemma {:induction false} PlainWeights(es: seq<Payload>)
    requires forall i :: 0 <= i < |es| ==> es[i].One?
    ensures QueueCapacity.Sum(Weights(es)) == |es|
  {
    if es != [] {
      PlainWeights(es[..|es| - 1]);
      assert Weights(es)[..|es| - 1] == Weights(es[..|es| - 1]);
    }
  }

  lemma {:induction false} WeightsGrow(es: seq<Payload>, n: nat)
    requires n <= |es|
    ensures QueueCapacity.Sum(Weights(es[..n])) <= QueueCapacity.Sum(Weights(es))
    decreases |es| - n
  {
    if n == |es| {
      assert es[..n] == es;
    } else {
      WeightsGrow(es, n + 1);
      assert Weights(es[..n + 1])[..n] == Weights(es[..n]);
    }
  }

  // ----- a push in which nothing fails -----

  /** The texts of a message, arrays written out. */
  function FlatAll(es: seq<Payload>): seq<Text> {
    if es == [] then []
    else
      FlatAll(es[..|es| - 1]) +
      match es[|es| - 1]
      case One(text) => [text]
      case Many(texts) => texts
  }

  function Flat(d: Data): seq<Text> {
    match d
    case Value(text) => [text]
    case Array(elements) => FlatAll(elements)
  }

  /** A value counts as one, an array as its elements. */
  function Width(d: Data): nat {
    match d
    case Value(_) => 1
    case Array(elements) => |elements|
  }

  function WithTexts(f: Fields, texts: seq<Text>): (r: seq<Fields>)
    ensures |r| == |texts| && forall i :: 0 <= i < |texts| ==> r[i] == f.(message := texts[i])
  {
    seq(|texts|, i requires 0 <= i < |texts| => f.(message := texts[i]))
  }

  predicate Works(o: Outcome) {
    o.begin && o.commit && forall i :: 0 <= i < |o.oks| ==> o.oks[i]
  }

  predicate AllWork(os: seq<Outcome>) {
    forall i :: 0 <= i < |os| ==> Works(os[i])
  }

  /** One element more: its texts follow. */
  lemma ElementStored(rows: seq<Row>, e: Payload, f: Fields, o: Outcome)
    requires Increasing(rows) && |o.oks| == |Texts(e)| && Works(o)
    ensures Messages(Inserted(rows, Texts(e), f, o.oks)) == Messages(rows) + WithTexts(f, if e.One? then [e.text] else e.texts)
    ensures Successes(o.oks) == |if e.One? then [e.text] else e.texts|
  {
    assert Texts(e) == if e.One? then [e.text] else e.texts;
    assert forall i :: 0 <= i < |o.oks| ==> o.oks[i];
    hide *;
    AllInserted(rows, Texts(e), f, o.oks);
    InsertedAppends(rows, Texts(e), f, o.oks);
    MessagesMore(rows, Inserted(rows, Texts(e), f, o.oks), f, Texts(e));
  }

  lemma MessagesMore(rows: seq<Row>, r: seq<Row>, f: Fields, texts: seq<Text>)
    requires rows <= r && |r| == |rows| + |texts|
    requires forall i :: 0 <= i < |texts| ==> r[|rows| + i].fields == f.(message := texts[i])
    ensures Messages(r) == Messages(rows) + WithTexts(f, texts)
  {
    forall i | 0 <= i < |r| ensures Messages(r)[i] == (Messages(rows) + WithTexts(f, texts))[i] {
      if i >= |rows| {
        assert r[|rows| + (i - |rows|)].fields == f.(message := texts[i - |rows|]);
      } else {
        assert r[i] == rows[i];
      }
    }
  }

  lemma FlatMore(es: seq<Payload>, k: nat)
    requires k < |es|
    ensures FlatAll(es[..k + 1]) == FlatAll(es[..k]) + if es[k].One? then [es[k].text] else es[k].texts
  {
    assert es[..k + 1][..k] == es[..k];
  }

  lemma ConcatAssoc(a: seq<Fields>, b: seq<Fields>, c: seq<Fields>)
    ensures a + b + c == a + (b + c)
  {
  }

  lemma WithTextsConcat(f: Fields, a: seq<Text>, b: seq<Text>)
    ensures WithTexts(f, a + b) == WithTexts(f, a) + WithTexts(f, b)
  {
  }

  /** The messages after the first `n` elements of a push in which nothing fails. */
  lemma {:induction false} PushedMessages(rows: seq<Row>, es: seq<Payload>, f: Fields, os: seq<Outcome>, n: nat)
    requires Increasing(rows) && Fits(es, os) && n <= |es| && AllWork(os)
    ensures Messages(Pushed(rows, es, f, os, n)) == Messages(rows) + WithTexts(f, FlatAll(es[..n]))
    ensures Stored(os, n) == |FlatAll(es[..n])|
  {
    if n == 0 {
      assert FlatAll(es[..0]) == [];
    } else {
      var k := n - 1;
      assert Works(os[k]) && |os[k].oks| == |Texts(es[k])|;
      hide *;
      PushedMessages(rows, es, f, os, k);
      PushedGrows(rows, es, f, os, k);
      PushedMore(rows, es, f, os, k);
      ElementStored(Pushed(rows, es, f, os, k), es[k], f, os[k]);
      FlatMore(es, k);
      var last := if es[k].One? then [es[k].text] else es[k].texts;
      WithTextsConcat(f, FlatAll(es[..k]), last);
      ConcatAssoc(Messages(rows), WithTexts(f, FlatAll(es[..k])), WithTexts(f, last));
    }
  }

  lemma PushedAll(rows: seq<Row>, data: Data, f: Fields, os: seq<Outcome>)
    requires Increasing(rows) && Fits(Elements(data), os) && AllWork(os)
    ensures var es := Elements(data);
            && FirstError(os) == |os| == |es| && |es| == Width(data) && Stored(os, |es|) == |Flat(data)|
            && Messages(Pushed(rows, es, f, os, |es|)) == Messages(rows) + WithTexts(f, Flat(data))
  {
    var es := Elements(data);
    PushedMessages(rows, es, f, os, |es|);
    assert es[..|es|] == es;
    if data.Value? {
      assert es[..0] == [] && FlatAll(es) == FlatAll(es[..0]) + [data.text];
    }
    assert forall i :: 0 <= i < |os| ==> Works(os[i]);
  }

  lemma TableFacts(storage: Storage, table: string)
    requires storage.Valid() && table in storage.tables
    ensures Increasing(storage.tables[table]) && (!storage.open ==> storage.committed == storage.tables)
  {
  }

  lemma PushFacts(rows: seq<Row>, data: Data, f: Fields, os: seq<Outcome>)
    requires Increasing(rows) && Fits(Elements(data), os)
    ensures var es := Elements(data);
            && |os| == |es| == Width(data)
            && (forall n :: 0 <= n <= |es| && Plain(data) ==> |Pushed(rows, es, f, os, n)| <= |rows| + |es|)
            && (AllWork(os) ==> FirstError(os) == |es| && Stored(os, |es|) == |Flat(data)| &&
                                Messages(Pushed(rows, es, f, os, |es|)) == Messages(rows) + WithTexts(f, Flat(data)))
  {
    var es := Elements(data);
    assert |os| == |es| == Width(data);
    hide Pushed, Weights, QueueCapacity.Sum, Increasing, Elements, Fits, Plain, FlatAll, Works;
    forall n | 0 <= n <= |es| && Plain(data) ensures |Pushed(rows, es, f, os, n)| <= |rows| + |es| {
      PushedGrows(rows, es, f, os, n);
      WeightsGrow(es, n);
      AllOnes(data);
      PlainWeights(es);
    }
    if AllWork(os) {
      PushedAll(rows, data, f, os);
    }
  }

  lemma AllOnes(data: Data)
    requires Plain(data)
    ensures forall i :: 0 <= i < |Elements(data)| ==> Elements(data)[i].One?
  {
  }

  /** Of the elements the first `n` are seen and the first `k` are committed. */
  ghost predicate IsStored(storage: Storage, before: map<string, seq<Row>>, table: string, es: seq<Payload>, f: Fields,
                           os: seq<Outcome>, n: nat, k: nat)
    reads storage
  {
    && Fits(es, os) && k <= n <= |es| && table in before && storage.open == (n > k)
    && storage.tables == before[table := Pushed(before[table], es, f, os, n)]
    && storage.committed == before[table := Pushed(before[table], es, f, os, k)]
  }

  lemma StoredFacts(storage: Storage, before: map<string, seq<Row>>, table: string, es: seq<Payload>, f: Fields,
                    os: seq<Outcome>, n: nat, k: nat)
    requires Fits(es, os) && n <= |es| && table in before
    ensures IsStored(storage, before, table, es, f, os, n, k) ==>
            && k <= n && storage.open == (n > k)
            && storage.tables == before[table := Pushed(before[table], es, f, os, n)]
            && storage.committed == before[table := Pushed(before[table], es, f, os, k)]
  {
  }

  lemma NowStored(storage: Storage, before: map<string, seq<Row>>, table: string, es: seq<Payload>, f: Fields,
                  os: seq<Outcome>, n: nat)
    requires Fits(es, os) && n <= |es| && table in before && !storage.open
    requires storage.tables == storage.committed == before[table := Pushed(before[table], es, f, os, n)]
    ensures IsStored(storage, before, table, es, f, os, n, n)
  {
  }

  lemma NothingStored(storage: Storage, table: string, es: seq<Payload>, f: Fields, os: seq<Outcome>)
    requires storage.Valid() && table in storage.tables && Fits(es, os)
    ensures |os| == |es| && Stored(os, 0) == 0
    ensures !storage.open ==> IsStored(storage, storage.tables, table, es, f, os, 0, 0)
  {
  }

  class MultiTypeQueue {
    const maxItems: nat
    const storage: Storage

    constructor (maxItems: nat, storage: Storage)
      ensures this.maxItems == maxItems && this.storage == storage
    {
      this.maxItems, this.storage := maxItems, storage;
    }

    /** The number that was read leaves room for as many elements. */
    predicate Admitted(rows: seq<Row>, data: Data, readOk: bool) {
      QueueCapacity.Admits(maxItems, QueueCapacity.Seen(|rows|, readOk), Weights(Elements(data)))
    }

    lemma AdmittedIff(rows: seq<Row>, data: Data, readOk: bool)
      ensures var count := if readOk then |rows| else 0;
              Admitted(rows, data, readOk) <==> count < maxItems && |Elements(data)| <= maxItems - count
    {
    }

    /** The elements are stored one by one, up to the first whose transaction fails; the rows of one that
        was not committed are seen all the same. */
    method StoreElements(table: string, es: seq<Payload>, f: Fields, os: seq<Outcome>) returns (result: Option<nat>)
      requires storage.Valid() && table in storage.tables && Fits(es, os)
      modifies storage
      ensures storage.Valid()
      ensures old(storage.open) ==> unchanged(storage) && result == if es == [] then Some(0) else None
      ensures !old(storage.open) ==>
              var k, rows := FirstError(os), old(storage.tables)[table];
              var n := if k < |es| && os[k].begin then k + 1 else k;
              && storage.tables == old(storage.tables)[table := Pushed(rows, es, f, os, n)]
              && storage.committed == old(storage.tables)[table := Pushed(rows, es, f, os, k)]
              && storage.open == (n > k)
              && result == if k == |es| then Some(Stored(os, k)) else None
    {
      hide *;
      ghost var before := storage.tables;
      NothingStored(storage, table, es, f, os);
      var stored := 0;
      for i := 0 to |es|
        invariant storage.Valid() && stored == Stored(os, i)
        invariant old(storage.open) ==> i == 0 && unchanged(storage)
        invariant !old(storage.open) ==> i <= FirstError(os) && IsStored(storage, before, table, es, f, os, i, i)
      {
        StoredFacts(storage, before, table, es, f, os, i, i);
        PushedMore(before[table], es, f, os, i);
        Overwrite(before, table, Pushed(before[table], es, f, os, i), Pushed(before[table], es, f, os, i + 1));
        var r := storage.Store(es[i], table, f, os[i]);
        if r.None? {
          return None;
        }
        stored := stored + r.value;
        NowStored(storage, before, table, es, f, os, i + 1);
      }
      StoredFacts(storage, before, table, es, f, os, |es|, |es|);
      result := Some(stored);
    }

    /** The elements are stored if the number of messages that was read leaves room for as many, otherwise
        nothing is. A queue within its capacity stays within it when the number could be read and no
        element is itself an array. */
    method Push(table: string, data: Data, f: Fields, readOk: bool, os: seq<Outcome>) returns (result: Option<nat>)
      requires storage.Valid() && Fits(Elements(data), os)
      modifies storage
      ensures storage.Valid()
      // nothing is stored in a queue there is not, or without room
      ensures table !in old(storage.tables) || !Admitted(old(storage.tables)[table], data, readOk) ==>
        result == Some(0) && unchanged(storage)
      // with a transaction left open nothing can be stored
      ensures table in old(storage.tables) && old(storage.open) ==>
        unchanged(storage) && (Elements(data) != [] && Admitted(old(storage.tables)[table], data, readOk) ==> result == None)
      // otherwise the elements are stored up to the first whose transaction fails
      ensures table in old(storage.tables) && !old(storage.open) && Admitted(old(storage.tables)[table], data, readOk) ==>
        var rows, es, k := old(storage.tables)[table], Elements(data), FirstError(os);
        var n := if k < |es| && os[k].begin then k + 1 else k;
        && storage.tables == old(storage.tables)[table := Pushed(rows, es, f, os, n)]
        && storage.committed == old(storage.tables)[table := Pushed(rows, es, f, os, k)]
        && storage.open == (n > k)
        && result == if k == |es| then Some(Stored(os, k)) else None
      ensures table in old(storage.tables) && readOk && Plain(data) && |old(storage.tables)[table]| <= maxItems ==>
        table in storage.tables && |storage.tables[table]| <= maxItems
      // when nothing fails, the texts follow the messages that were there, or there was no room
      ensures table in old(storage.tables) && !old(storage.open) && AllWork(os) ==>
        var rows := old(storage.tables)[table];
        var count := if readOk then |rows| else 0;
        if count < maxItems && Width(data) <= maxItems - count
        then table in storage.tables && storage.committed == storage.tables && result == Some(|Flat(data)|) &&
             Messages(storage.tables[table]) == Messages(rows) + WithTexts(f, Flat(data))
        else unchanged(storage) && result == Some(0)
    {
      hide *;
      if table !in storage.tables {
        return Some(0);
      }
      var es := Elements(data);
      ghost var rows := storage.tables[table];
      var storedMessages := storage.GetElementCount(table, EVERYTHING, readOk);
      WhereEverything(rows);
      TableFacts(storage, table);
      PushFacts(rows, data, f, os);
      AdmittedIff(rows, data, readOk);
      var spaceAvailable := if maxItems > storedMessages then maxItems - storedMessages else 0;
      if spaceAvailable > 0 && |es| <= spaceAvailable {
        result := StoreElements(table, es, f, os);
      } else {
        result := Some(0);
      }
    }
  }
}
