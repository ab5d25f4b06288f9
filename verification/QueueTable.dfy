/**
 A table of the message queue, as the database keeps it: rows in the order they were inserted, each
 with a rowid. The table declares no key, so a new row gets one more than the largest live rowid, and
 rowids are used again once the table is empty.
 */
module QueueTable {

  newtype byte = x: int | 0 <= x < 256

  type Text = seq<byte>

  datatype Fields = Fields(moduleName: Text, moduleType: Text, metadata: Text, message: Text)

  datatype Row = Row(id: nat, fields: Fields)

  /** A filter by module; an empty name or type does not restrict. */
  datatype Filter = Filter(moduleName: Text, moduleType: Text)

  const EVERYTHING := Filter([], [])

  predicate Matches(f: Fields, flt: Filter) {
    (flt.moduleName == [] || flt.moduleName == f.moduleName) && (flt.moduleType == [] || flt.moduleType == f.moduleType)
  }

  // ----- statements -----

  function MaxId(rows: seq<Row>): nat {
    if rows == [] then 0
    else
      var m, last := MaxId(rows[..|rows| - 1]), rows[|rows| - 1].id;
      if last > m then last else m
  }

  function Insert(rows: seq<Row>, f: Fields): seq<Row> {
    rows + [Row(MaxId(rows) + 1, f)]
  }

  function Delete(rows: seq<Row>, id: nat): seq<Row> {
    if rows == [] then []
    else if rows[0].id == id then Delete(rows[1..], id)
    else [rows[0]] + Delete(rows[1..], id)
  }

  function Where(rows: seq<Row>, flt: Filter): seq<Row> {
    if rows == [] then []
    else if Matches(rows[0].fields, flt) then [rows[0]] + Where(rows[1..], flt)
    else Where(rows[1..], flt)
  }

  function InsertById(r: Row, rows: seq<Row>): seq<Row> {
    if rows == [] || r.id <= rows[0].id then [r] + rows else [rows[0]] + InsertById(r, rows[1..])
  }

  /** The rows in ascending order of rowid, whatever order they are kept in. */
  function OrderById(rows: seq<Row>): seq<Row> {
    if rows == [] then [] else InsertById(rows[0], OrderById(rows[1..]))
  }

  /** A limit is part of the statement only when it is positive. */
  function Limited(rows: seq<Row>, limit: int): seq<Row> {
    if 0 < limit < |rows| then rows[..limit] else rows
  }

  function Select(rows: seq<Row>, flt: Filter, limit: int): seq<Row> {
    Limited(OrderById(Where(rows, flt)), limit)
  }

  // ----- rowids follow insertion -----

  predicate Increasing(rows: seq<Row>) {
    forall i, j :: 0 <= i < j < |rows| ==> rows[i].id < rows[j].id
  }

  lemma {:induction false} MaxIdBounds(rows: seq<Row>, i: nat)
    requires i < |rows|
    ensures rows[i].id <= MaxId(rows)
  {
    if i < |rows| - 1 {
      MaxIdBounds(rows[..|rows| - 1], i);
    }
  }

  /** Inserting keeps rowids increasing in insertion order, also after rows were removed and rowids
      are used again: a row gets the number after the last one. */
  lemma InsertIncreases(rows: seq<Row>, f: Fields)
    requires Increasing(rows)
    ensures Increasing(Insert(rows, f))
    ensures Insert(rows, f) == rows + [Row(if rows == [] then 1 else rows[|rows| - 1].id + 1, f)]
  {
    forall i | 0 <= i < |rows| ensures rows[i].id < MaxId(rows) + 1 {
      MaxIdBounds(rows, i);
    }
    MaxIdIsLast(rows);
  }

  lemma {:induction false} MaxIdIsLast(rows: seq<Row>)
    requires Increasing(rows)
    ensures MaxId(rows) == if rows == [] then 0 else rows[|rows| - 1].id
  {
    if rows != [] {
      MaxIdIsLast(rows[..|rows| - 1]);
    }
  }

  /** `part` is what is left of `rows` after dropping some of them. */
  ghost predicate Within(part: seq<Row>, rows: seq<Row>) {
    if rows == [] then part == []
    else if part == [] then true
    else if part[0] == rows[0] && Within(part[1..], rows[1..]) then true
    else Within(part, rows[1..])
  }

  lemma {:induction false} WithinMembers(part: seq<Row>, rows: seq<Row>)
    requires Within(part, rows)
    ensures forall r :: r in part ==> r in rows
  {
    if rows != [] && part != [] {
      if part[0] == rows[0] && Within(part[1..], rows[1..]) {
        WithinMembers(part[1..], rows[1..]);
        assert part == [part[0]] + part[1..];
      } else {
        WithinMembers(part, rows[1..]);
      }
    }
  }

  lemma {:induction false} WithinIncreasing(part: seq<Row>, rows: seq<Row>)
    requires Within(part, rows) && Increasing(rows)
    ensures Increasing(part)
  {
    if rows != [] && part != [] {
      if part[0] == rows[0] && Within(part[1..], rows[1..]) {
        WithinIncreasing(part[1..], rows[1..]);
        WithinMembers(part[1..], rows[1..]);
        forall j | 0 < j < |part| ensures part[0].id < part[j].id {
          assert part[1..][j - 1] in rows[1..];
        }
      } else {
        WithinIncreasing(part, rows[1..]);
      }
    }
  }

  lemma {:induction false} DeleteWithin(rows: seq<Row>, id: nat)
    ensures Within(Delete(rows, id), rows)
  {
    if rows != [] {
      DeleteWithin(rows[1..], id);
      WithinEmpty(rows[1..]);
      if rows[0].id != id {
        assert Delete(rows, id)[1..] == Delete(rows[1..], id);
      }
    }
  }

  lemma WithinEmpty(rows: seq<Row>)
    ensures Within([], rows)
  {
  }

  lemma {:induction false} WhereWithin(rows: seq<Row>, flt: Filter)
    ensures Within(Where(rows, flt), rows)
  {
    if rows != [] {
      WhereWithin(rows[1..], flt);
      if Matches(rows[0].fields, flt) {
        assert Where(rows, flt)[1..] == Where(rows[1..], flt);
      }
    }
  }

  /** Rows with increasing rowids are already in order. */
  lemma {:induction false} AlreadyOrdered(rows: seq<Row>)
    requires Increasing(rows)
    ensures OrderById(rows) == rows
  {
    if rows != [] {
      AlreadyOrdered(rows[1..]);
      assert rows == [rows[0]] + rows[1..];
    }
  }

  /** A selection returns the matching rows in the order they were inserted, oldest first. */
  lemma SelectsOldest(rows: seq<Row>, flt: Filter, limit: int)
    requires Increasing(rows)
    ensures Select(rows, flt, limit) == Limited(Where(rows, flt), limit)
  {
    WhereWithin(rows, flt);
    WithinIncreasing(Where(rows, flt), rows);
    AlreadyOrdered(Where(rows, flt));
  }

  lemma {:induction false} WhereEverything(rows: seq<Row>)
    ensures Where(rows, EVERYTHING) == rows
  {
    if rows != [] {
      WhereEverything(rows[1..]);
    }
  }

  // ----- removing the oldest -----

  /** The rows without the first `n` that match. */
  function WithoutFirst(rows: seq<Row>, flt: Filter, n: nat): seq<Row> {
    if rows == [] then []
    else if n > 0 && Matches(rows[0].fields, flt) then WithoutFirst(rows[1..], flt, n - 1)
    else [rows[0]] + WithoutFirst(rows[1..], flt, n)
  }

  function DeleteAll(rows: seq<Row>, gone: seq<Row>): seq<Row>
    decreases |gone|
  {
    if gone == [] then rows else DeleteAll(Delete(rows, gone[0].id), gone[1..])
  }

  lemma {:induction false} DeleteAbsent(rows: seq<Row>, id: nat)
    requires forall i :: 0 <= i < |rows| ==> rows[i].id != id
    ensures Delete(rows, id) == rows
  {
    if rows != [] {
      DeleteAbsent(rows[1..], id);
    }
  }

  lemma {:induction false} DeleteSkips(r: Row, rows: seq<Row>, gone: seq<Row>)
    requires forall g :: g in gone ==> g.id != r.id
    ensures DeleteAll([r] + rows, gone) == [r] + DeleteAll(rows, gone)
    decreases |gone|
  {
    if gone != [] {
      assert gone[0] in gone;
      assert Delete([r] + rows, gone[0].id) == [r] + Delete(rows, gone[0].id);
      DeleteSkips(r, Delete(rows, gone[0].id), gone[1..]);
    }
  }

  lemma {:induction false} WithoutNone(rows: seq<Row>, flt: Filter)
    ensures WithoutFirst(rows, flt, 0) == rows
  {
    if rows != [] {
      WithoutNone(rows[1..], flt);
    }
  }

  lemma LaterIdsDiffer(rows: seq<Row>, flt: Filter)
    requires Increasing(rows) && rows != []
    ensures forall g :: g in Where(rows[1..], flt) ==> g.id != rows[0].id
  {
    WhereWithin(rows[1..], flt);
    WithinMembers(Where(rows[1..], flt), rows[1..]);
  }

  /** Deleting, one rowid at a time, the first `n` matching rows leaves exactly the others. */
  lemma {:induction false} DeletesFirst(rows: seq<Row>, flt: Filter, n: nat)
    requires Increasing(rows) && n <= |Where(rows, flt)|
    ensures DeleteAll(rows, Where(rows, flt)[..n]) == WithoutFirst(rows, flt, n)
    decreases |rows|
  {
    if n == 0 {
      WithoutNone(rows, flt);
    } else {
      var rest := rows[1..];
      assert rows == [rows[0]] + rest;
      LaterIdsDiffer(rows, flt);
      if Matches(rows[0].fields, flt) {
        assert Where(rows, flt)[..n][1..] == Where(rest, flt)[..n - 1];
        assert Where(rows, flt)[..n][0] == rows[0];
        DeleteAbsent(rest, rows[0].id);
        DeletesFirst(rest, flt, n - 1);
      } else {
        DeleteSkips(rows[0], rest, Where(rest, flt)[..n]);
        DeletesFirst(rest, flt, n);
      }
    }
  }

  /** Without a filter, the oldest rows are a prefix. */
  lemma {:induction false} FirstArePrefix(rows: seq<Row>, n: nat)
    requires n <= |rows|
    ensures WithoutFirst(rows, EVERYTHING, n) == rows[n..]
  {
    if rows != [] {
      if n > 0 {
        FirstArePrefix(rows[1..], n - 1);
      } else {
        FirstArePrefix(rows[1..], 0);
        assert rows[1..][0..] == rows[1..];
      }
    }
  }

  /** What `RemoveMultiple(n)` leaves when no delete fails: for a positive `n` the rows without the
      oldest `n` matching ones (or all of them), otherwise the rows without any matching one. */
  function Removed(rows: seq<Row>, flt: Filter, n: int): seq<Row> {
    WithoutFirst(rows, flt, if 0 < n <= |Where(rows, flt)| then n else |Where(rows, flt)|)
  }

  lemma RemovesSelected(rows: seq<Row>, flt: Filter, n: int)
    requires Increasing(rows)
    ensures DeleteAll(rows, Select(rows, flt, n)) == Removed(rows, flt, n)
    ensures Increasing(Removed(rows, flt, n))
  {
    SelectsOldest(rows, flt, n);
    var w := Where(rows, flt);
    var k := if 0 < n <= |w| then n else |w|;
    assert Limited(w, n) == w[..k];
    DeletesFirst(rows, flt, k);
    WithoutFirstWithin(rows, flt, k);
    WithinIncreasing(WithoutFirst(rows, flt, k), rows);
  }

  lemma {:induction false} WithoutFirstWithin(rows: seq<Row>, flt: Filter, n: nat)
    ensures Within(WithoutFirst(rows, flt, n), rows)
  {
    if rows != [] {
      if n > 0 && Matches(rows[0].fields, flt) {
        WithoutFirstWithin(rows[1..], flt, n - 1);
      } else {
        WithoutFirstWithin(rows[1..], flt, n);
        assert WithoutFirst(rows, flt, n)[1..] == WithoutFirst(rows[1..], flt, n);
      }
    }
  }

  /** Removing none of a positive number is not possible: a count of zero or less removes every row. */
  lemma ZeroRemovesEverything(rows: seq<Row>, n: int)
    requires n <= 0
    ensures Removed(rows, EVERYTHING, n) == []
  {
    WhereEverything(rows);
    FirstArePrefix(rows, |rows|);
  }
}
