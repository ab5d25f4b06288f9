/**
 The statements the storage of the queue makes, read from their text: the rows they select or delete are
 those of the table.
 */
module QueueSql {
  import opened Options
  import opened Numerals
  import opened QueueTable
  import S = SqlText
  import P = SqlParse

  // ----- the statements -----

  /** A text of the database, character by character. */
  function AsString(t: Text): (s: string)
    ensures |s| == |t| && forall i :: 0 <= i < |t| ==> s[i] as int == t[i] as int
  {
    seq(|t|, i requires 0 <= i < |t| => t[i] as int as char)
  }

  lemma SameText(a: Text, b: Text)
    ensures AsString(a) == AsString(b) <==> a == b
  {
    if AsString(a) == AsString(b) {
      assert |a| == |b|;
      forall i | 0 <= i < |a| ensures a[i] == b[i] {
        assert AsString(a)[i] as int == AsString(b)[i] as int;
      }
    }
  }

  /** A filter is part of the statement only where it restricts. */
  function FilterColumns(flt: Filter): seq<S.Column> {
    (if flt.moduleName == [] then [] else [S.Column("module_name", S.TEXT, AsString(flt.moduleName))]) +
    (if flt.moduleType == [] then [] else [S.Column("module_type", S.TEXT, AsString(flt.moduleType))])
  }

  const ROWID := [S.Column("rowid", S.INTEGER, "")]

  /** The text that selects some fields of the oldest matching rows. */
  function SelectText(table: string, fields: seq<S.Column>, flt: Filter, n: int): string {
    S.WriteAll(S.SelectStatement(table, fields, FilterColumns(flt), S.AND, ROWID, S.ASC, n))
  }

  /** The text that deletes one row. */
  function DeleteText(table: string, id: nat): string {
    S.WriteAll(S.RemoveStatement(table, [S.Column("rowid", S.INTEGER, Digits(id))], S.AND))
  }

  // ----- what a statement means for the rows of a table -----

  /** The row has the value in the column. */
  predicate Passes(r: Row, t: P.Test) {
    || (t.name == "rowid" && t.value == P.Bare(Digits(r.id)))
    || (t.name == "module_name" && t.value == P.Quoted(AsString(r.fields.moduleName)))
    || (t.name == "module_type" && t.value == P.Quoted(AsString(r.fields.moduleType)))
  }

  predicate Satisfies(r: Row, c: P.Condition) {
    if c.any then exists i :: 0 <= i < |c.tests| && Passes(r, c.tests[i])
    else forall i :: 0 <= i < |c.tests| ==> Passes(r, c.tests[i])
  }

  function Satisfying(rows: seq<Row>, c: P.Condition): seq<Row> {
    if rows == [] then []
    else (if Satisfies(rows[0], c) then [rows[0]] else []) + Satisfying(rows[1..], c)
  }

  function NotSatisfying(rows: seq<Row>, c: P.Condition): seq<Row> {
    if rows == [] then []
    else (if Satisfies(rows[0], c) then [] else [rows[0]]) + NotSatisfying(rows[1..], c)
  }

  /** In ascending order of rowids, or in descending order. */
  ghost predicate InOrder(rows: seq<Row>, order: S.OrderType) {
    forall i, j :: 0 <= i < j < |rows| ==> if order == S.ASC then rows[i].id <= rows[j].id else rows[j].id <= rows[i].id
  }

  /** `r` are the rows of the table that satisfy the condition, in the order asked for, up to the limit. */
  ghost predicate Answers(q: P.Statement, rows: seq<Row>, r: seq<Row>) {
    && q.SelectFrom? && q.orderBy == ["rowid"]
    && exists all :: IsOrdered(q, rows, all) && r == FirstOf(all, q.limit)
  }

  ghost predicate IsOrdered(q: P.Statement, rows: seq<Row>, all: seq<Row>)
    requires q.SelectFrom?
  {
    multiset(all) == multiset(Satisfying(rows, q.where)) && InOrder(all, q.order)
  }

  function FirstOf(rows: seq<Row>, limit: Option<nat>): seq<Row> {
    if limit.Some? && limit.value < |rows| then rows[..limit.value] else rows
  }

  // ----- the filter -----

  lemma MatchesIff(r: Row, flt: Filter)
    ensures Matches(r.fields, flt) <==> Satisfies(r, P.ConditionOf(FilterColumns(flt), S.AND))
  {
    var cols := FilterColumns(flt);
    var tests := P.TestsOf(cols);
    SameText(flt.moduleName, r.fields.moduleName);
    SameText(flt.moduleType, r.fields.moduleType);
    assert forall i :: 0 <= i < |cols| ==> tests[i] == P.Test(cols[i].name, P.Quoted(cols[i].value));
    if flt.moduleName != [] {
      assert cols[0] == S.Column("module_name", S.TEXT, AsString(flt.moduleName));
      assert Passes(r, tests[0]) <==> flt.moduleName == r.fields.moduleName;
    }
    if flt.moduleType != [] {
      var k := |cols| - 1;
      assert cols[k] == S.Column("module_type", S.TEXT, AsString(flt.moduleType));
      assert Passes(r, tests[k]) <==> flt.moduleType == r.fields.moduleType;
    }
  }

  lemma {:induction false} WhereIsSatisfying(rows: seq<Row>, flt: Filter)
    ensures Where(rows, flt) == Satisfying(rows, P.ConditionOf(FilterColumns(flt), S.AND))
  {
    if rows != [] {
      MatchesIff(rows[0], flt);
      WhereIsSatisfying(rows[1..], flt);
      hide Matches, Satisfies;
    }
  }

  // ----- the order -----

  lemma FirstInOrder(r: Row, rows: seq<Row>)
    requires InOrder(rows, S.ASC) && forall j :: 0 <= j < |rows| ==> r.id <= rows[j].id
    ensures InOrder([r] + rows, S.ASC)
  {
  }

  lemma {:induction false} InsertedRows(r: Row, rows: seq<Row>)
    ensures multiset(InsertById(r, rows)) == multiset(rows) + multiset{r}
  {
    if rows != [] && r.id > rows[0].id {
      InsertedRows(r, rows[1..]);
      assert rows == [rows[0]] + rows[1..];
    }
  }

  lemma AllAbove(r: Row, rows: seq<Row>)
    requires InOrder(rows, S.ASC) && rows != [] && r.id > rows[0].id
    ensures InOrder(rows[1..], S.ASC)
    ensures forall j :: 0 <= j < |InsertById(r, rows[1..])| ==> rows[0].id <= InsertById(r, rows[1..])[j].id
  {
    var rest := InsertById(r, rows[1..]);
    InsertedRows(r, rows[1..]);
    hide InsertById;
    forall j | 0 <= j < |rest| ensures rows[0].id <= rest[j].id {
      assert rest[j] in multiset(rest);
      assert rest[j] == r || rest[j] in rows[1..];
    }
  }

  lemma {:induction false} InsertedInOrder(r: Row, rows: seq<Row>)
    requires InOrder(rows, S.ASC)
    ensures InOrder(InsertById(r, rows), S.ASC)
  {
    if rows == [] || r.id <= rows[0].id {
      FirstInOrder(r, rows);
    } else {
      AllAbove(r, rows);
      hide InOrder;
      InsertedInOrder(r, rows[1..]);
      FirstInOrder(rows[0], InsertById(r, rows[1..]));
    }
  }

  lemma {:induction false} OrderedById(rows: seq<Row>)
    ensures InOrder(OrderById(rows), S.ASC) && multiset(OrderById(rows)) == multiset(rows)
  {
    if rows != [] {
      OrderedById(rows[1..]);
      InsertedInOrder(rows[0], OrderById(rows[1..]));
      InsertedRows(rows[0], OrderById(rows[1..]));
      hide InOrder, InsertById;
      assert rows == [rows[0]] + rows[1..];
    }
  }

  // ----- the statements of the queue -----

  lemma ColumnNames()
    ensures P.IsWord("rowid") && P.IsWord("module_name") && P.IsWord("module_type")
  {
  }

  lemma QueueColumns(flt: Filter, id: nat)
    ensures P.WordNames(ROWID) && P.WordNames(FilterColumns(flt)) && P.WordValues(FilterColumns(flt))
    ensures var c := [S.Column("rowid", S.INTEGER, Digits(id))]; P.WordNames(c) && P.WordValues(c)
  {
    hide P.IsWord, Digits, AsString;
    ColumnNames();
    P.DigitsAreWord(id);
  }

  /** The statement of the queue, read from its text, asks for what the table gives: the oldest matching rows,
      at most `n` of them if `n` is positive. */
  lemma QueueSelects(table: string, fields: seq<S.Column>, flt: Filter, n: int, rows: seq<Row>)
    requires P.IsWord(table) && P.WordNames(fields)
    ensures var q := P.Asks(SelectText(table, fields, flt, n));
            q.Some? && q.value.SelectFrom? && q.value.table == table && Answers(q.value, rows, Select(rows, flt, n))
  {
    hide P.IsWord, P.WordNames, P.WordValues, P.Asks, S.WriteAll, S.SelectStatement, Where, Satisfying, OrderById, InOrder, P.ConditionOf;
    QueueColumns(flt, 0);
    P.SelectAsks(table, fields, FilterColumns(flt), S.AND, ROWID, S.ASC, n);
    var q := P.SelectOf(table, fields, FilterColumns(flt), S.AND, ROWID, S.ASC, n);
    WhereIsSatisfying(rows, flt);
    OrderedById(Where(rows, flt));
    var all := OrderById(Where(rows, flt));
    assert q.orderBy == ["rowid"];
    assert IsOrdered(q, rows, all);
    assert Select(rows, flt, n) == FirstOf(all, q.limit);
  }

  /** With distinct rowids there is one answer. */
  lemma OneAnswer(q: P.Statement, rows: seq<Row>, a: seq<Row>, b: seq<Row>)
    requires Increasing(rows) && Answers(q, rows, a) && Answers(q, rows, b)
    ensures a == b
  {
    var x :| IsOrdered(q, rows, x) && a == FirstOf(x, q.limit);
    var y :| IsOrdered(q, rows, y) && b == FirstOf(y, q.limit);
    SatisfyingWithin(rows, q.where);
    WithinIncreasing(Satisfying(rows, q.where), rows);
    DistinctIds(Satisfying(rows, q.where), x);
    SameOrder(x, y, q.order);
  }

  lemma {:induction false} SatisfyingWithin(rows: seq<Row>, c: P.Condition)
    ensures Within(Satisfying(rows, c), rows)
  {
    if rows != [] {
      SatisfyingWithin(rows[1..], c);
      if Satisfies(rows[0], c) {
        assert Satisfying(rows, c)[1..] == Satisfying(rows[1..], c);
      } else {
        assert Satisfying(rows, c) == Satisfying(rows[1..], c);
      }
    }
  }

  /** No two rows have the same rowid, and no row is there twice. */
  ghost predicate Unique(rows: seq<Row>) {
    && (forall r, s :: r in rows && s in rows && r.id == s.id ==> r == s)
    && (forall r :: r in rows ==> multiset(rows)[r] == 1)
  }

  lemma DistinctIds(rows: seq<Row>, all: seq<Row>)
    requires Increasing(rows) && multiset(all) == multiset(rows)
    ensures Unique(all)
  {
    forall r | r in all ensures r in rows {
      assert r in multiset(all);
    }
    OnceEach(rows);
    forall r | r in all ensures multiset(all)[r] == 1 {
      assert r in rows;
    }
  }

  lemma {:induction false} OnceEach(rows: seq<Row>)
    requires Increasing(rows)
    ensures forall r :: r in rows ==> multiset(rows)[r] == 1
  {
    if rows != [] {
      OnceEach(rows[1..]);
      assert rows == [rows[0]] + rows[1..];
      assert rows[0] !in rows[1..];
    }
  }

  lemma {:induction false} SameOrder(x: seq<Row>, y: seq<Row>, order: S.OrderType)
    requires multiset(x) == multiset(y) && InOrder(x, order) && InOrder(y, order) && Unique(x)
    ensures x == y
    decreases |x|
  {
    hide InOrder, Unique;
    SameLength(x, y);
    if x != [] {
      FirstIsFirst(x, y, order);
      RestOf(x, order);
      RestOf(y, order);
      UniqueRest(x);
      SameOrder(x[1..], y[1..], order);
      assert x == [x[0]] + x[1..] && y == [y[0]] + y[1..];
    }
  }

  lemma RestOf(x: seq<Row>, order: S.OrderType)
    requires x != [] && InOrder(x, order)
    ensures InOrder(x[1..], order) && multiset(x[1..]) == multiset(x) - multiset{x[0]}
  {
    assert x == [x[0]] + x[1..];
  }

  lemma SameLength(x: seq<Row>, y: seq<Row>)
    requires multiset(x) == multiset(y)
    ensures |x| == |y|
  {
    assert |x| == |multiset(x)| && |y| == |multiset(y)|;
  }

  lemma UniqueRest(x: seq<Row>)
    requires x != [] && Unique(x)
    ensures Unique(x[1..])
  {
    assert x == [x[0]] + x[1..];
    forall r | r in x[1..] ensures multiset(x[1..])[r] == 1 {
      assert r in x && multiset(x) == multiset{x[0]} + multiset(x[1..]);
      assert multiset(x[1..])[r] >= 1;
    }
  }

  /** The first row of one order is the first of the other. */
  lemma FirstIsFirst(x: seq<Row>, y: seq<Row>, order: S.OrderType)
    requires multiset(x) == multiset(y) && InOrder(x, order) && InOrder(y, order) && Unique(x) && x != [] && y != []
    ensures x[0] == y[0]
  {
    assert x[0] in multiset(y) && y[0] in multiset(x);
    var i :| 0 <= i < |y| && y[i] == x[0];
    var j :| 0 <= j < |x| && x[j] == y[0];
    assert x[0].id == y[0].id;
  }

  lemma DigitsDiffer(a: nat, b: nat)
    ensures Digits(a) == Digits(b) <==> a == b
  {
    assert Number(Digits(a)) == a && Number(Digits(b)) == b;
  }

  lemma RowidIff(r: Row, id: nat)
    ensures Satisfies(r, P.ConditionOf([S.Column("rowid", S.INTEGER, Digits(id))], S.AND)) <==> r.id == id
  {
    var cols := [S.Column("rowid", S.INTEGER, Digits(id))];
    DigitsDiffer(r.id, id);
    assert P.TestsOf(cols)[0] == P.Test("rowid", P.Bare(Digits(id)));
    hide Digits;
  }

  lemma {:induction false} DeleteIsRest(rows: seq<Row>, id: nat)
    ensures Delete(rows, id) == NotSatisfying(rows, P.ConditionOf([S.Column("rowid", S.INTEGER, Digits(id))], S.AND))
  {
    if rows != [] {
      RowidIff(rows[0], id);
      DeleteIsRest(rows[1..], id);
      hide Satisfies, Digits;
    }
  }

  /** The delete of a row, read from its text, leaves the rows of the table that its condition does not hold for. */
  lemma QueueDeletes(table: string, id: nat, rows: seq<Row>)
    requires P.IsWord(table)
    ensures var q := P.Asks(DeleteText(table, id));
            && q.Some? && q.value.DeleteFrom? && q.value.table == table
            && Delete(rows, id) == NotSatisfying(rows, q.value.where)
  {
    hide P.IsWord, P.WordNames, P.WordValues, P.Asks, S.WriteAll, S.RemoveStatement, P.ConditionOf;
    QueueColumns(EVERYTHING, id);
    P.RemoveAsks(table, [S.Column("rowid", S.INTEGER, Digits(id))], S.AND);
    DeleteIsRest(rows, id);
  }
}
