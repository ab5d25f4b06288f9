/**
 The storage of the message queue: one table per message type, written under one lock, each call a
 transaction. Every insert, delete and read may fail; a failed insert or delete is skipped. A begin or
 commit that fails ends the call with an error, and a failed commit leaves the transaction open.
 */
module QueueStorage {
  import opened Options
  import opened QueueTable
  import opened QueueBatch

  /** A message is one value, or an array whose elements are stored one by one. */
  datatype Payload = One(text: Text) | Many(texts: seq<Text>)

  function Texts(p: Payload): seq<Text> {
    if p.One? then [p.text] else p.texts
  }

  /** The rows after inserting, in order, the messages whose insert succeeds. */
  function Inserted(rows: seq<Row>, texts: seq<Text>, f: Fields, oks: seq<bool>): seq<Row>
    requires |oks| == |texts|
  {
    if texts == [] then rows
    else
      var k := |texts| - 1;
      var before := Inserted(rows, texts[..k], f, oks[..k]);
      if oks[k] then Insert(before, f.(message := texts[k])) else before
  }

  /** Which of the calls of one transaction succeed. */
  datatype Outcome = Outcome(begin: bool, oks: seq<bool>, commit: bool)

  function Successes(oks: seq<bool>): nat {
    if oks == [] then 0 else Successes(oks[..|oks| - 1]) + if oks[|oks| - 1] then 1 else 0
  }

  /** The rows without the selected ones whose delete succeeds. */
  function Pruned(rows: seq<Row>, selected: seq<Row>, oks: seq<bool>): seq<Row>
    requires |oks| == |selected|
  {
    if selected == [] then rows
    else
      var k := |selected| - 1;
      var before := Pruned(rows, selected[..k], oks[..k]);
      if oks[k] then Delete(before, selected[k].id) else before
  }

  lemma InsertedMore(rows: seq<Row>, texts: seq<Text>, f: Fields, oks: seq<bool>, i: nat)
    requires |oks| == |texts| && i < |texts|
    ensures var before := Inserted(rows, texts[..i], f, oks[..i]);
            Inserted(rows, texts[..i + 1], f, oks[..i + 1]) == if oks[i] then Insert(before, f.(message := texts[i])) else before
    ensures Successes(oks[..i + 1]) == Successes(oks[..i]) + if oks[i] then 1 else 0
  {
    assert texts[..i + 1][..i] == texts[..i] && oks[..i + 1][..i] == oks[..i];
  }

  /** The new rows come after the old ones, oldest message first, and rowids stay increasing. */
  lemma {:induction false} InsertedAppends(rows: seq<Row>, texts: seq<Text>, f: Fields, oks: seq<bool>)
    requires |oks| == |texts| && Increasing(rows)
    ensures var r := Inserted(rows, texts, f, oks);
            && Increasing(r) && rows <= r && |r| == |rows| + Successes(oks)
    decreases |texts|
  {
    if texts != [] {
      var k := |texts| - 1;
      InsertedAppends(rows, texts[..k], f, oks[..k]);
      var before := Inserted(rows, texts[..k], f, oks[..k]);
      InsertIncreases(before, f.(message := texts[k]));
    }
  }

  /** Whichever inserts fail, each message whose insert succeeds is there, after as many new rows as inserts
      before it succeeded. */
  lemma {:induction false} InsertedAt(rows: seq<Row>, texts: seq<Text>, f: Fields, oks: seq<bool>, i: nat)
    requires |oks| == |texts| && Increasing(rows) && i < |texts| && oks[i]
    ensures var r, at := Inserted(rows, texts, f, oks), |rows| + Successes(oks[..i]);
            at < |r| && r[at].fields == f.(message := texts[i])
    decreases |texts|
  {
    var k := |texts| - 1;
    InsertedAppends(rows, texts[..k], f, oks[..k]);
    if i < k {
      InsertedAt(rows, texts[..k], f, oks[..k], i);
      assert oks[..k][..i] == oks[..i];
      InsertIncreases(Inserted(rows, texts[..k], f, oks[..k]), f.(message := texts[k]));
    }
  }

  /** When no insert fails, every message is there, in order. */
  lemma {:induction false} AllInserted(rows: seq<Row>, texts: seq<Text>, f: Fields, oks: seq<bool>)
    requires |oks| == |texts| && Increasing(rows) && forall i :: 0 <= i < |oks| ==> oks[i]
    ensures Successes(oks) == |texts|
    ensures var r := Inserted(rows, texts, f, oks);
            |r| == |rows| + |texts| && forall i :: 0 <= i < |texts| ==> r[|rows| + i].fields == f.(message := texts[i])
    decreases |texts|
  {
    if texts != [] {
      var k := |texts| - 1;
      AllInserted(rows, texts[..k], f, oks[..k]);
      InsertedAppends(rows, texts[..k], f, oks[..k]);
      var before := Inserted(rows, texts[..k], f, oks[..k]);
      InsertIncreases(before, f.(message := texts[k]));
      hide Inserted, Increasing;
      assert texts[..k] + [texts[k]] == texts;
    }
  }

  lemma {:induction false} DeleteAllMore(rows: seq<Row>, gone: seq<Row>, r: Row)
    ensures DeleteAll(rows, gone + [r]) == Delete(DeleteAll(rows, gone), r.id)
    decreases |gone|
  {
    if gone == [] {
      assert gone + [r] == [r];
    } else {
      assert (gone + [r])[1..] == gone[1..] + [r];
      DeleteAllMore(Delete(rows, gone[0].id), gone[1..], r);
    }
  }

  lemma {:induction false} PrunedAll(rows: seq<Row>, selected: seq<Row>, oks: seq<bool>)
    requires |oks| == |selected| && forall i :: 0 <= i < |oks| ==> oks[i]
    ensures Pruned(rows, selected, oks) == DeleteAll(rows, selected) && Successes(oks) == |selected|
    decreases |selected|
  {
    if selected != [] {
      var k := |selected| - 1;
      PrunedAll(rows, selected[..k], oks[..k]);
      DeleteAllMore(rows, selected[..k], selected[k]);
      assert selected[..k] + [selected[k]] == selected;
    }
  }

  /** Whichever deletes fail, exactly the selected rows whose delete succeeds are gone. */
  lemma {:induction false} PrunedMembers(rows: seq<Row>, selected: seq<Row>, oks: seq<bool>, r: Row)
    requires |oks| == |selected|
    ensures r in Pruned(rows, selected, oks) <==>
            r in rows && forall k :: 0 <= k < |selected| && oks[k] ==> selected[k].id != r.id
    decreases |selected|
  {
    if selected != [] {
      var k := |selected| - 1;
      PrunedMembers(rows, selected[..k], oks[..k], r);
      DeleteMembers(Pruned(rows, selected[..k], oks[..k]), selected[k].id, r);
      assert forall i :: 0 <= i < k ==> selected[..k][i] == selected[i] && oks[..k][i] == oks[i];
    }
  }

  lemma {:induction false} DeleteMembers(rows: seq<Row>, id: nat, r: Row)
    ensures r in Delete(rows, id) <==> r in rows && r.id != id
  {
    if rows != [] {
      DeleteMembers(rows[1..], id, r);
      assert rows == [rows[0]] + rows[1..];
    }
  }

  lemma {:induction false} PrunedWithin(rows: seq<Row>, selected: seq<Row>, oks: seq<bool>)
    requires |oks| == |selected| && Increasing(rows)
    ensures Increasing(Pruned(rows, selected, oks))
    decreases |selected|
  {
    if selected != [] {
      var k := |selected| - 1;
      PrunedWithin(rows, selected[..k], oks[..k]);
      var before := Pruned(rows, selected[..k], oks[..k]);
      DeleteWithin(before, selected[k].id);
      WithinIncreasing(Delete(before, selected[k].id), before);
    }
  }

  /** The messages of a list of rows, in order. */
  function Messages(rows: seq<Row>): (r: seq<Fields>)
    ensures |r| == |rows| && forall i :: 0 <= i < |rows| ==> r[i] == rows[i].fields
  {
    seq(|rows|, i requires 0 <= i < |rows| => rows[i].fields)
  }

  /** Rows are turned into messages until the size reaches the bound. */
  method ProcessRequest(rows: seq<Row>, maxSize: nat) returns (messages: seq<Fields>)
    ensures |messages| <= |rows| && messages == Messages(rows[..|messages|])
    ensures IsBatch(rows[..|messages|], rows, maxSize)
  {
    hide Total, Size, IsBatch;
    messages := [];
    var sizeAccum := 0;
    assert Total(rows[..0]) == 0 by { TotalNone(rows); }
    for i := 0 to |rows|
      invariant messages == Messages(rows[..i])
      invariant maxSize > 0 ==> sizeAccum == Total(rows[..i]) && forall k :: 0 <= k <= i ==> Total(rows[..k]) < maxSize
    {
      TotalMore(rows, i);
      messages := messages + [rows[i].fields];
      if maxSize > 0 {
        var messageSize := Size(rows[i].fields);
        if sizeAccum + messageSize >= maxSize {
          PrefixIsBatch(rows, i + 1, maxSize);
          return;
        }
        sizeAccum := sizeAccum + messageSize;
      }
    }
    assert rows[..|rows|] == rows;
    PrefixIsBatch(rows, |rows|, maxSize);
  }

  lemma TotalNone(rows: seq<Row>)
    ensures Total(rows[..0]) == 0
  {
  }

  class Storage {
    /** What the connection sees, what is committed, and whether a transaction is open. */
    var tables: map<string, seq<Row>>
    var committed: map<string, seq<Row>>
    var open: bool

    ghost predicate Valid()
      reads this
    {
      && (forall t :: t in tables ==> Increasing(tables[t]))
      && (!open ==> committed == tables)
    }

    constructor (names: set<string>)
      ensures Valid() && tables == (map t | t in names :: []) && !open
    {
      tables := map t | t in names :: [];
      committed := map t | t in names :: [];
      open := false;
    }

    /** The end of a call: what it did is committed, or the call fails with its transaction left open. */
    method Commit(ok: bool)
      modifies this`committed, this`open
      ensures open == !ok && committed == if ok then tables else old(committed)
    {
      open := !ok;
      if ok {
        committed := tables;
      }
    }

    /** The inserts of one transaction. */
    method InsertAll(texts: seq<Text>, table: string, f: Fields, oks: seq<bool>) returns (stored: nat)
      requires table in tables && |oks| == |texts|
      modifies this`tables
      ensures stored == Successes(oks) && tables == old(tables)[table := Inserted(old(tables)[table], texts, f, oks)]
    {
      stored := 0;
      ghost var rows := tables[table];
      assert Inserted(rows, texts[..0], f, oks[..0]) == rows && Successes(oks[..0]) == 0;
      hide Inserted, Successes, Insert;
      for i := 0 to |texts|
        invariant table in tables && stored == Successes(oks[..i])
        invariant tables == old(tables)[table := Inserted(rows, texts[..i], f, oks[..i])]
      {
        InsertedMore(rows, texts, f, oks, i);
        if oks[i] {
          tables := tables[table := Insert(tables[table], f.(message := texts[i]))];
          stored := stored + 1;
        }
      }
      assert texts[..|texts|] == texts && oks[..|texts|] == oks;
    }

    /** The messages are appended, in order; `oks` says which inserts succeed. */
    method Store(message: Payload, table: string, f: Fields, o: Outcome) returns (result: Option<nat>)
      requires Valid() && table in tables && |o.oks| == |Texts(message)|
      modifies this
      ensures Valid()
      ensures old(open) || !o.begin ==> result == None && unchanged(this)
      ensures !old(open) && o.begin ==>
        && tables == old(tables)[table := Inserted(old(tables)[table], Texts(message), f, o.oks)]
        && committed == (if o.commit then tables else old(committed)) && open == !o.commit
        && result == if o.commit then Some(Successes(o.oks)) else None
    {
      if open || !o.begin {
        return None;
      }
      InsertedAppends(tables[table], Texts(message), f, o.oks);
      hide Inserted, Successes, Texts, Increasing;
      var stored := InsertAll(Texts(message), table, f, o.oks);
      Commit(o.commit);
      result := if o.commit then Some(stored) else None;
    }

    /** The oldest `n` matching rows are deleted one by one (all matching rows if `n` is not positive);
        `oks` says which deletes succeed. When all do, exactly the oldest are gone. */
    method RemoveMultiple(n: int, table: string, flt: Filter, readOk: bool, o: Outcome) returns (result: Option<nat>)
      requires Valid() && table in tables && |o.oks| == |Select(tables[table], flt, n)|
      modifies this
      ensures Valid()
      ensures old(open) || !o.begin ==> result == None && unchanged(this)
      ensures !old(open) && o.begin ==>
        && tables == (if readOk then old(tables)[table := Pruned(old(tables)[table], Select(old(tables)[table], flt, n), o.oks)]
                      else old(tables))
        && committed == (if o.commit then tables else old(committed)) && open == !o.commit
        && result == if !o.commit then None else if readOk then Some(Successes(o.oks)) else Some(0)
      ensures !old(open) && o.begin && readOk && (forall i :: 0 <= i < |o.oks| ==> o.oks[i]) ==>
        tables[table] == Removed(old(tables)[table], flt, n) && Successes(o.oks) == |o.oks|
    {
      if open || !o.begin {
        return None;
      }
      var deleted, oks := 0, o.oks;
      if readOk {
        var results := Select(tables[table], flt, n);
        for i := 0 to |results|
          invariant table in tables && deleted == Successes(oks[..i])
          invariant tables == old(tables)[table := Pruned(old(tables)[table], results[..i], oks[..i])]
          invariant committed == old(committed) && open == old(open)
        {
          assert results[..i + 1][..i] == results[..i] && oks[..i + 1][..i] == oks[..i];
          hide Select, Increasing, Delete;
          if oks[i] {
            tables := tables[table := Delete(tables[table], results[i].id)];
            deleted := deleted + 1;
          }
        }
        assert results[..|results|] == results && oks[..|results|] == oks;
        PrunedWithin(old(tables)[table], results, oks);
        if forall i :: 0 <= i < |oks| ==> oks[i] {
          PrunedAll(old(tables)[table], results, oks);
          RemovesSelected(old(tables)[table], flt, n);
        }
      }
      hide Select, Increasing, Pruned, Removed;
      Commit(o.commit);
      result := if o.commit then Some(deleted) else None;
    }

    /** The oldest `n` matching messages (all of them if `n` is not positive). */
    method RetrieveMultiple(n: int, table: string, flt: Filter, readOk: bool) returns (messages: seq<Fields>)
      requires Valid() && table in tables
      ensures messages == if readOk then Messages(Limited(Where(tables[table], flt), n)) else []
    {
      if !readOk {
        return [];
      }
      SelectsOldest(tables[table], flt, n);
      messages := ProcessRequest(Select(tables[table], flt, n), 0);
    }

    /** The shortest batch of the oldest matching messages that reaches `n` bytes. */
    method RetrieveBySize(n: nat, table: string, flt: Filter, readOk: bool) returns (messages: seq<Fields>)
      requires Valid() && table in tables
      ensures !readOk ==> messages == []
      ensures readOk ==>
        var matching := Where(tables[table], flt);
        && |messages| <= |matching| && messages == Messages(matching[..|messages|])
        && IsBatch(matching[..|messages|], matching, n)
    {
      if !readOk {
        return [];
      }
      SelectsOldest(tables[table], flt, 0);
      messages := ProcessRequest(Select(tables[table], flt, 0), n);
    }

    method GetElementCount(table: string, flt: Filter, readOk: bool) returns (count: nat)
      requires table in tables
      ensures count == if readOk then |Where(tables[table], flt)| else 0
    {
      count := if readOk then |Where(tables[table], flt)| else 0;
    }
  }
}
