/** What a reader finds in a rendered statement: the statement itself, with every TEXT value as it was. */
module SqlReadBack {
  import opened Options
  import opened Numerals
  import opened SqlText

  predicate Plain(s: string) {
    '\'' !in s
  }

  predicate PlainNames(cols: seq<Column>) {
    forall i :: 0 <= i < |cols| ==> Plain(cols[i].name)
  }

  /** Numbers are rendered as they are; they have to be free of quotes, TEXT does not. */
  predicate PlainNumbers(cols: seq<Column>) {
    forall i :: 0 <= i < |cols| ==> cols[i].typ == TEXT || Plain(cols[i].value)
  }

  // ----- no literal directly follows another -----

  ghost predicate Tidy(es: seq<Elem>) {
    forall i :: 0 < i < |es| ==> es[i - 1].Raw? || es[i].Raw?
  }

  predicate StartsRaw(es: seq<Elem>) {
    es == [] || es[0].Raw?
  }

  predicate EndsRaw(es: seq<Elem>) {
    es == [] || es[|es| - 1].Raw?
  }

  lemma TidyConcat(a: seq<Elem>, b: seq<Elem>)
    requires Tidy(a) && Tidy(b) && (EndsRaw(a) || StartsRaw(b))
    ensures Tidy(a + b)
  {
    var es := a + b;
    forall i | 0 < i < |es| ensures es[i - 1].Raw? || es[i].Raw? {
      if i < |a| {
        assert es[i - 1] == a[i - 1];
      } else if i > |a| {
        assert es[i - 1] == b[i - 1 - |a|] && es[i] == b[i - |a|];
      }
    }
  }

  lemma {:induction false} TidyJoin(parts: seq<seq<Elem>>, sep: string)
    requires sep != "" && forall i :: 0 <= i < |parts| ==> Tidy(parts[i])
    ensures Tidy(JoinElems(parts, sep))
  {
    if |parts| > 1 {
      TidyJoin(parts[1..], sep);
      hide Tidy;
      assert Tidy(Chars(sep)) by { TidyChars(sep); }
      TidyConcat(parts[0], Chars(sep));
      TidyConcat(parts[0] + Chars(sep), JoinElems(parts[1..], sep));
    }
  }

  lemma TidyChars(s: string)
    ensures Tidy(Chars(s)) && StartsRaw(Chars(s)) && EndsRaw(Chars(s))
  {
  }

  lemma TidyAssignment(col: Column)
    ensures Tidy(Assignment(col))
  {
    TidyChars(col.name + "=");
    TidyConcat(Chars(col.name + "="), Value(col));
  }

  lemma TidyAssignments(cols: seq<Column>, sep: string)
    requires sep != ""
    ensures Tidy(JoinElems(Assignments(cols), sep))
  {
    forall i | 0 <= i < |cols| ensures Tidy(Assignments(cols)[i]) {
      TidyAssignment(cols[i]);
    }
    TidyJoin(Assignments(cols), sep);
  }

  lemma TidyWhere(lead: string, criteria: seq<Column>, op: LogicalOperator)
    requires lead != ""
    ensures Tidy(Where(lead, criteria, op)) && StartsRaw(Where(lead, criteria, op))
  {
    if criteria != [] {
      TidyAssignments(criteria, " " + OperatorText(op) + " ");
      TidyChars(lead);
      TidyConcat(Chars(lead), JoinElems(Assignments(criteria), " " + OperatorText(op) + " "));
    }
  }

  lemma TidyNames(cols: seq<Column>)
    ensures Tidy(JoinElems(Names(cols), ", "))
  {
    forall i | 0 <= i < |cols| ensures Tidy(Names(cols)[i]) {
      TidyChars(cols[i].name);
    }
    TidyJoin(Names(cols), ", ");
  }

  lemma TidyOrderBy(orderBy: seq<Column>, order: OrderType)
    ensures Tidy(OrderBy(orderBy, order)) && StartsRaw(OrderBy(orderBy, order))
  {
    if orderBy != [] {
      TidyNames(orderBy);
      var a, b, c := Chars(" ORDER BY "), JoinElems(Names(orderBy), ", "), Chars(" " + OrderText(order));
      TidyChars(" ORDER BY ");
      TidyChars(" " + OrderText(order));
      hide Tidy;
      TidyConcat(a, b);
      TidyConcat(a + b, c);
    }
  }

  // ----- no quote outside the literals -----

  lemma FreeConcat(a: seq<Elem>, b: seq<Elem>)
    ensures QuoteFree(a + b) <==> QuoteFree(a) && QuoteFree(b)
  {
  }

  lemma FreeChars(s: string)
    ensures QuoteFree(Chars(s)) <==> Plain(s)
  {
    if '\'' in s {
      var i :| 0 <= i < |s| && s[i] == '\'';
      assert Chars(s)[i] == Raw('\'');
    }
  }

  lemma {:induction false} FreeJoin(parts: seq<seq<Elem>>, sep: string)
    requires Plain(sep)
    ensures QuoteFree(JoinElems(parts, sep)) <==> forall i :: 0 <= i < |parts| ==> QuoteFree(parts[i])
  {
    if |parts| > 1 {
      var rest := parts[1..];
      FreeJoin(rest, sep);
      FreeChars(sep);
      hide QuoteFree;
      FreeConcat(parts[0] + Chars(sep), JoinElems(rest, sep));
      FreeConcat(parts[0], Chars(sep));
      assert (forall i :: 0 <= i < |rest| ==> QuoteFree(rest[i])) <==> (forall i :: 0 < i < |parts| ==> QuoteFree(parts[i])) by {
        assert forall i :: 0 <= i < |rest| ==> rest[i] == parts[i + 1];
        assert forall i :: 0 < i < |parts| ==> parts[i] == rest[i - 1];
      }
    }
  }

  lemma FreeValue(col: Column)
    ensures QuoteFree(Value(col)) <==> col.typ == TEXT || Plain(col.value)
  {
    FreeChars(col.value);
  }

  lemma FreeAssignment(col: Column)
    ensures QuoteFree(Assignment(col)) <==> Plain(col.name) && (col.typ == TEXT || Plain(col.value))
  {
    FreeConcat(Chars(col.name + "="), Value(col));
    FreeChars(col.name + "=");
    FreeValue(col);
  }

  lemma FreeAssignments(cols: seq<Column>, sep: string)
    requires Plain(sep)
    ensures QuoteFree(JoinElems(Assignments(cols), sep)) <==> PlainNames(cols) && PlainNumbers(cols)
  {
    hide QuoteFree, Assignment, Plain;
    FreeJoin(Assignments(cols), sep);
    forall i | 0 <= i < |cols|
      ensures QuoteFree(Assignments(cols)[i]) <==> Plain(cols[i].name) && (cols[i].typ == TEXT || Plain(cols[i].value))
    {
      FreeAssignment(cols[i]);
    }
  }

  lemma FreeValues(cols: seq<Column>)
    ensures QuoteFree(JoinElems(Values(cols), ", ")) <==> PlainNumbers(cols)
  {
    FreeJoin(Values(cols), ", ");
    hide QuoteFree, Value, Plain;
    forall i | 0 <= i < |cols| ensures QuoteFree(Values(cols)[i]) <==> cols[i].typ == TEXT || Plain(cols[i].value) {
      FreeValue(cols[i]);
    }
  }

  lemma FreeNames(cols: seq<Column>)
    ensures QuoteFree(JoinElems(Names(cols), ", ")) <==> PlainNames(cols)
  {
    FreeJoin(Names(cols), ", ");
    hide QuoteFree, Plain;
    forall i | 0 <= i < |cols| ensures QuoteFree(Names(cols)[i]) <==> Plain(cols[i].name) {
      FreeChars(cols[i].name);
    }
  }

  lemma FreeWhere(lead: string, criteria: seq<Column>, op: LogicalOperator)
    requires Plain(lead)
    ensures QuoteFree(Where(lead, criteria, op)) <==> PlainNames(criteria) && PlainNumbers(criteria)
  {
    if criteria != [] {
      var sep := " " + OperatorText(op) + " ";
      assert Plain(sep);
      FreeAssignments(criteria, sep);
      FreeChars(lead);
      FreeConcat(Chars(lead), JoinElems(Assignments(criteria), sep));
    }
  }

  lemma FreeOrderBy(orderBy: seq<Column>, order: OrderType)
    ensures QuoteFree(OrderBy(orderBy, order)) <==> PlainNames(orderBy)
  {
    if orderBy != [] {
      var a, b, c := Chars(" ORDER BY "), JoinElems(Names(orderBy), ", "), Chars(" " + OrderText(order));
      FreeNames(orderBy);
      FreeChars(" ORDER BY ");
      FreeChars(" " + OrderText(order));
      assert Plain(" ORDER BY ") && Plain(" " + OrderText(order));
      hide QuoteFree;
      FreeConcat(a, b);
      FreeConcat(a + b, c);
    }
  }

  // ----- the literals are the TEXT values -----

  function Literals(es: seq<Elem>): seq<string> {
    if es == [] then [] else (if es[0].Literal? then [es[0].text] else []) + Literals(es[1..])
  }

  /** The TEXT values, in order. */
  function Texts(cols: seq<Column>): seq<string> {
    if cols == [] then [] else (if cols[0].typ == TEXT then [cols[0].value] else []) + Texts(cols[1..])
  }

  lemma {:induction false} LiteralsConcat(a: seq<Elem>, b: seq<Elem>)
    ensures Literals(a + b) == Literals(a) + Literals(b)
  {
    if a == [] {
      assert a + b == b;
    } else {
      assert a + b == [a[0]] + (a[1..] + b) && a == [a[0]] + a[1..];
      FirstLiteral(a[0], a[1..] + b);
      FirstLiteral(a[0], a[1..]);
      LiteralsConcat(a[1..], b);
    }
  }

  lemma FirstLiteral(e: Elem, rest: seq<Elem>)
    ensures Literals([e] + rest) == (if e.Literal? then [e.text] else []) + Literals(rest)
  {
    assert ([e] + rest)[1..] == rest;
  }

  lemma {:induction false} NoLiterals(es: seq<Elem>)
    requires forall i :: 0 <= i < |es| ==> es[i].Raw?
    ensures Literals(es) == []
  {
    if es != [] {
      NoLiterals(es[1..]);
    }
  }

  lemma LiteralsOfChars(s: string)
    ensures Literals(Chars(s)) == []
  {
    NoLiterals(Chars(s));
  }

  lemma LiteralsAfter(a: seq<Elem>, b: seq<Elem>)
    requires Literals(a) == []
    ensures Literals(a + b) == Literals(b)
  {
    LiteralsConcat(a, b);
  }

  lemma LiteralsBefore(a: seq<Elem>, b: seq<Elem>)
    requires Literals(b) == []
    ensures Literals(a + b) == Literals(a)
  {
    LiteralsConcat(a, b);
  }

  lemma LiteralsOfValue(col: Column)
    ensures Literals(Value(col)) == if col.typ == TEXT then [col.value] else []
  {
    if col.typ == TEXT {
      assert Value(col)[1..] == [];
    } else {
      NoLiterals(Value(col));
    }
  }

  lemma {:induction false} LiteralsOfJoin(parts: seq<seq<Elem>>, cols: seq<Column>, sep: string)
    requires |parts| == |cols|
    requires forall i :: 0 <= i < |cols| ==> Literals(parts[i]) == if cols[i].typ == TEXT then [cols[i].value] else []
    ensures Literals(JoinElems(parts, sep)) == Texts(cols)
  {
    if |parts| == 1 {
      assert cols[1..] == [];
    } else if |parts| > 1 {
      LiteralsOfJoin(parts[1..], cols[1..], sep);
      hide Literals;
      LiteralsConcat(parts[0] + Chars(sep), JoinElems(parts[1..], sep));
      LiteralsConcat(parts[0], Chars(sep));
      NoLiterals(Chars(sep));
    } else {
      assert Literals([]) == [];
    }
  }

  lemma LiteralsOfAssignments(cols: seq<Column>, sep: string)
    ensures Literals(JoinElems(Assignments(cols), sep)) == Texts(cols)
  {
    forall i | 0 <= i < |cols| ensures Literals(Assignments(cols)[i]) == if cols[i].typ == TEXT then [cols[i].value] else [] {
      LiteralsConcat(Chars(cols[i].name + "="), Value(cols[i]));
      NoLiterals(Chars(cols[i].name + "="));
      LiteralsOfValue(cols[i]);
    }
    LiteralsOfJoin(Assignments(cols), cols, sep);
  }

  lemma LiteralsOfValues(cols: seq<Column>)
    ensures Literals(JoinElems(Values(cols), ", ")) == Texts(cols)
  {
    forall i | 0 <= i < |cols| ensures Literals(Values(cols)[i]) == if cols[i].typ == TEXT then [cols[i].value] else [] {
      LiteralsOfValue(cols[i]);
    }
    LiteralsOfJoin(Values(cols), cols, ", ");
  }

  lemma {:induction false} LiteralsOfNames(cols: seq<Column>)
    ensures Literals(JoinElems(Names(cols), ", ")) == []
  {
    RawJoin(Names(cols), ", ");
    NoLiterals(JoinElems(Names(cols), ", "));
  }

  lemma {:induction false} RawJoin(parts: seq<seq<Elem>>, sep: string)
    requires forall i, k :: 0 <= i < |parts| && 0 <= k < |parts[i]| ==> parts[i][k].Raw?
    ensures forall k :: 0 <= k < |JoinElems(parts, sep)| ==> JoinElems(parts, sep)[k].Raw?
  {
    if |parts| > 1 {
      RawJoin(parts[1..], sep);
    }
  }

  lemma LiteralsOfWhere(lead: string, criteria: seq<Column>, op: LogicalOperator)
    ensures Literals(Where(lead, criteria, op)) == Texts(criteria)
  {
    if criteria != [] {
      var sep := " " + OperatorText(op) + " ";
      LiteralsOfAssignments(criteria, sep);
      LiteralsConcat(Chars(lead), JoinElems(Assignments(criteria), sep));
      NoLiterals(Chars(lead));
    }
  }

  // ----- whole statements -----

  lemma TidyInsert(table: string, cols: seq<Column>)
    ensures Tidy(InsertStatement(table, cols))
  {
    var a, b, c, d, e := Chars("INSERT INTO " + table + " ("), JoinElems(Names(cols), ", "), Chars(") VALUES ("),
                         JoinElems(Values(cols), ", "), Chars(")");
    TidyChars("INSERT INTO " + table + " (");
    TidyChars(") VALUES (");
    TidyChars(")");
    TidyNames(cols);
    TidyJoin(Values(cols), ", ");
    hide Tidy;
    TidyConcat(a, b);
    TidyConcat(a + b, c);
    TidyConcat(a + b + c, d);
    TidyConcat(a + b + c + d, e);
  }

  lemma TidyIsClean(es: seq<Elem>)
    requires Tidy(es)
    ensures Clean(es) <==> QuoteFree(es)
  {
  }

  lemma PlainAround(lead: string, name: string, trail: string)
    requires Plain(lead) && Plain(trail)
    ensures Plain(lead + name + trail) <==> Plain(name)
  {
  }

  lemma FreeInsert(table: string, cols: seq<Column>)
    ensures QuoteFree(InsertStatement(table, cols)) <==> Plain(table) && PlainNames(cols) && PlainNumbers(cols)
  {
    var a, b, c, d, e := Chars("INSERT INTO " + table + " ("), JoinElems(Names(cols), ", "), Chars(") VALUES ("),
                         JoinElems(Values(cols), ", "), Chars(")");
    PlainAround("INSERT INTO ", table, " (");
    assert Plain(") VALUES (") && Plain(")");
    assert InsertStatement(table, cols) == a + b + c + d + e;
    hide *;
    FreeNames(cols);
    FreeValues(cols);
    FreeChars("INSERT INTO " + table + " (");
    FreeChars(") VALUES (");
    FreeChars(")");
    FreeConcat(a, b);
    FreeConcat(a + b, c);
    FreeConcat(a + b + c, d);
    FreeConcat(a + b + c + d, e);
  }

  lemma InsertLiterals(table: string, cols: seq<Column>)
    ensures Literals(InsertStatement(table, cols)) == Texts(cols)
  {
    var a, b, c, d, e := Chars("INSERT INTO " + table + " ("), JoinElems(Names(cols), ", "), Chars(") VALUES ("),
                         JoinElems(Values(cols), ", "), Chars(")");
    assert InsertStatement(table, cols) == a + b + c + d + e;
    hide *;
    LiteralsOfNames(cols);
    LiteralsOfValues(cols);
    LiteralsOfChars("INSERT INTO " + table + " (");
    LiteralsOfChars(") VALUES (");
    LiteralsOfChars(")");
    LiteralsAfter(a, b);
    LiteralsAfter(a + b, c);
    LiteralsAfter(a + b + c, d);
    LiteralsBefore(a + b + c + d, e);
  }

  /** An INSERT is read back as it was rendered, whatever characters the TEXT values hold, exactly when the table,
      the names and the numbers are free of quotes; and its literals are the TEXT values in order. */
  lemma InsertReadBack(table: string, cols: seq<Column>)
    ensures Read(WriteAll(InsertStatement(table, cols))) == Some(InsertStatement(table, cols)) <==>
            Plain(table) && PlainNames(cols) && PlainNumbers(cols)
    ensures Literals(InsertStatement(table, cols)) == Texts(cols)
  {
    hide *;
    ReadBackIff(InsertStatement(table, cols));
    TidyInsert(table, cols);
    TidyIsClean(InsertStatement(table, cols));
    FreeInsert(table, cols);
    InsertLiterals(table, cols);
  }

  lemma TidyUpdate(table: string, fields: seq<Column>, criteria: seq<Column>, op: LogicalOperator)
    ensures Tidy(UpdateStatement(table, fields, criteria, op))
  {
    var a, b, c := Chars("UPDATE " + table + " SET "), JoinElems(Assignments(fields), ", "), Where(" WHERE ", criteria, op);
    assert UpdateStatement(table, fields, criteria, op) == a + b + c;
    hide *;
    TidyChars("UPDATE " + table + " SET ");
    TidyAssignments(fields, ", ");
    TidyWhere(" WHERE ", criteria, op);
    TidyConcat(a, b);
    TidyConcat(a + b, c);
  }

  lemma UpdateReadBack(table: string, fields: seq<Column>, criteria: seq<Column>, op: LogicalOperator)
    ensures var st := UpdateStatement(table, fields, criteria, op);
            && (Read(WriteAll(st)) == Some(st) <==>
                Plain(table) && PlainNames(fields) && PlainNumbers(fields) && PlainNames(criteria) && PlainNumbers(criteria))
            && Literals(st) == Texts(fields) + Texts(criteria)
  {
    var st := UpdateStatement(table, fields, criteria, op);
    var a, b, c := Chars("UPDATE " + table + " SET "), JoinElems(Assignments(fields), ", "), Where(" WHERE ", criteria, op);
    PlainAround("UPDATE ", table, " SET ");
    assert Plain(", ") && Plain(" WHERE ") && st == a + b + c;
    hide *;
    ReadBackIff(st);
    TidyUpdate(table, fields, criteria, op);
    TidyIsClean(st);
    FreeAssignments(fields, ", ");
    FreeWhere(" WHERE ", criteria, op);
    FreeChars("UPDATE " + table + " SET ");
    FreeConcat(a, b);
    FreeConcat(a + b, c);
    LiteralsOfAssignments(fields, ", ");
    LiteralsOfWhere(" WHERE ", criteria, op);
    LiteralsOfChars("UPDATE " + table + " SET ");
    LiteralsAfter(a, b);
    LiteralsConcat(a + b, c);
  }

  lemma RemoveReadBack(table: string, criteria: seq<Column>, op: LogicalOperator)
    ensures var st := RemoveStatement(table, criteria, op);
            && (Read(WriteAll(st)) == Some(st) <==> Plain(table) && PlainNames(criteria) && PlainNumbers(criteria))
            && Literals(st) == Texts(criteria)
  {
    var st := RemoveStatement(table, criteria, op);
    var a, b := Chars("DELETE FROM " + table), Where(" WHERE ", criteria, op);
    ReadBackIff(st);
    TidyChars("DELETE FROM " + table);
    TidyWhere(" WHERE ", criteria, op);
    TidyConcat(a, b);
    assert Clean(st) <==> QuoteFree(st);
    FreeWhere(" WHERE ", criteria, op);
    FreeChars("DELETE FROM " + table);
    assert Plain("DELETE FROM " + table) <==> Plain(table);
    hide QuoteFree, Literals, Where, Read, WriteAll, Clean, Tidy, PlainNames, PlainNumbers;
    FreeConcat(a, b);
    LiteralsOfWhere(" WHERE ", criteria, op);
    LiteralsOfChars("DELETE FROM " + table);
    LiteralsAfter(a, b);
  }

  lemma PlainLimit(limit: int)
    ensures Plain(Limit(limit))
  {
    if limit > 0 {
      assert !IsDigit('\'');
      assert forall i :: 0 <= i < |Digits(limit)| ==> Digits(limit)[i] != '\'';
    }
  }

  /** The list of fields a SELECT starts with. */
  function FieldList(fields: seq<Column>): seq<Elem> {
    if fields == [] then Chars("*") else JoinElems(Names(fields), ", ")
  }

  lemma FieldListFacts(fields: seq<Column>)
    ensures Tidy(FieldList(fields)) && (QuoteFree(FieldList(fields)) <==> PlainNames(fields)) && Literals(FieldList(fields)) == []
  {
    if fields == [] {
      TidyChars("*");
      FreeChars("*");
      NoLiterals(Chars("*"));
    } else {
      TidyNames(fields);
      FreeNames(fields);
      LiteralsOfNames(fields);
    }
  }

  lemma OrderByLiterals(orderBy: seq<Column>, order: OrderType)
    ensures Literals(OrderBy(orderBy, order)) == []
  {
    if orderBy != [] {
      var a, b, c := Chars(" ORDER BY "), JoinElems(Names(orderBy), ", "), Chars(" " + OrderText(order));
      LiteralsOfNames(orderBy);
      NoLiterals(a);
      NoLiterals(c);
      LiteralsConcat(a, b);
      LiteralsConcat(a + b, c);
    }
  }

  lemma TidySix(a: seq<Elem>, b: seq<Elem>, c: seq<Elem>, d: seq<Elem>, e: seq<Elem>, f: seq<Elem>)
    requires Tidy(a) && Tidy(b) && Tidy(c) && Tidy(d) && Tidy(e) && Tidy(f)
    requires EndsRaw(a) && StartsRaw(c) && StartsRaw(d) && StartsRaw(e) && StartsRaw(f)
    ensures Tidy(a + b + c + d + e + f)
  {
    hide Tidy;
    TidyConcat(a, b);
    TidyConcat(a + b, c);
    TidyConcat(a + b + c, d);
    TidyConcat(a + b + c + d, e);
    TidyConcat(a + b + c + d + e, f);
  }

  lemma FreeSix(a: seq<Elem>, b: seq<Elem>, c: seq<Elem>, d: seq<Elem>, e: seq<Elem>, f: seq<Elem>)
    ensures QuoteFree(a + b + c + d + e + f) <==>
            QuoteFree(a) && QuoteFree(b) && QuoteFree(c) && QuoteFree(d) && QuoteFree(e) && QuoteFree(f)
  {
    hide QuoteFree;
    FreeConcat(a, b);
    FreeConcat(a + b, c);
    FreeConcat(a + b + c, d);
    FreeConcat(a + b + c + d, e);
    FreeConcat(a + b + c + d + e, f);
  }

  lemma SelectLiterals(table: string, fields: seq<Column>, criteria: seq<Column>, op: LogicalOperator,
                       orderBy: seq<Column>, order: OrderType, limit: int)
    ensures Literals(SelectStatement(table, fields, criteria, op, orderBy, order, limit)) == Texts(criteria)
  {
    var a, b, c := Chars("SELECT "), FieldList(fields), Chars(" FROM " + table + " ");
    var d, e, f := Where("WHERE ", criteria, op), OrderBy(orderBy, order), Chars(Limit(limit));
    assert SelectStatement(table, fields, criteria, op, orderBy, order, limit) == a + b + c + d + e + f;
    hide *;
    LiteralsOfChars("SELECT ");
    LiteralsOfChars(" FROM " + table + " ");
    LiteralsOfChars(Limit(limit));
    FieldListFacts(fields);
    LiteralsOfWhere("WHERE ", criteria, op);
    OrderByLiterals(orderBy, order);
    LiteralsAfter(a, b);
    LiteralsAfter(a + b, c);
    LiteralsAfter(a + b + c, d);
    LiteralsBefore(a + b + c + d, e);
    LiteralsBefore(a + b + c + d + e, f);
  }

  lemma SelectTidy(table: string, fields: seq<Column>, criteria: seq<Column>, op: LogicalOperator,
                   orderBy: seq<Column>, order: OrderType, limit: int)
    ensures Tidy(SelectStatement(table, fields, criteria, op, orderBy, order, limit))
  {
    var a, b, c := Chars("SELECT "), FieldList(fields), Chars(" FROM " + table + " ");
    var d, e, f := Where("WHERE ", criteria, op), OrderBy(orderBy, order), Chars(Limit(limit));
    assert SelectStatement(table, fields, criteria, op, orderBy, order, limit) == a + b + c + d + e + f;
    hide *;
    FieldListFacts(fields);
    TidyChars("SELECT ");
    TidyChars(" FROM " + table + " ");
    TidyChars(Limit(limit));
    TidyWhere("WHERE ", criteria, op);
    TidyOrderBy(orderBy, order);
    TidySix(a, b, c, d, e, f);
  }

  lemma SelectFree(table: string, fields: seq<Column>, criteria: seq<Column>, op: LogicalOperator,
                   orderBy: seq<Column>, order: OrderType, limit: int)
    ensures QuoteFree(SelectStatement(table, fields, criteria, op, orderBy, order, limit)) <==>
            Plain(table) && PlainNames(fields) && PlainNames(criteria) && PlainNumbers(criteria) && PlainNames(orderBy)
  {
    var a, b, c := Chars("SELECT "), FieldList(fields), Chars(" FROM " + table + " ");
    var d, e, f := Where("WHERE ", criteria, op), OrderBy(orderBy, order), Chars(Limit(limit));
    assert SelectStatement(table, fields, criteria, op, orderBy, order, limit) == a + b + c + d + e + f;
    PlainAround(" FROM ", table, " ");
    assert Plain("SELECT ") && Plain("WHERE ");
    hide *;
    FieldListFacts(fields);
    PlainLimit(limit);
    FreeChars("SELECT ");
    FreeChars(" FROM " + table + " ");
    FreeChars(Limit(limit));
    FreeWhere("WHERE ", criteria, op);
    FreeOrderBy(orderBy, order);
    FreeSix(a, b, c, d, e, f);
  }

  lemma SelectReadBack(table: string, fields: seq<Column>, criteria: seq<Column>, op: LogicalOperator,
                       orderBy: seq<Column>, order: OrderType, limit: int)
    ensures var st := SelectStatement(table, fields, criteria, op, orderBy, order, limit);
            && (Read(WriteAll(st)) == Some(st) <==>
                Plain(table) && PlainNames(fields) && PlainNames(criteria) && PlainNumbers(criteria) && PlainNames(orderBy))
            && Literals(st) == Texts(criteria)
  {
    hide *;
    ReadBackIff(SelectStatement(table, fields, criteria, op, orderBy, order, limit));
    TidyIsClean(SelectStatement(table, fields, criteria, op, orderBy, order, limit)) by {
      SelectTidy(table, fields, criteria, op, orderBy, order, limit);
    }
    SelectFree(table, fields, criteria, op, orderBy, order, limit);
    SelectLiterals(table, fields, criteria, op, orderBy, order, limit);
  }
}
