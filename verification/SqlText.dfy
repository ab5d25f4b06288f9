/**
 The text of SQL statements: how names and values are rendered, and what a reader of the text finds in
 it. A reader scans character string literals as section 5.3 of ISO/IEC 9075:1992 defines them: text
 between single quotes, in which two quotes in a row stand for one.
 */
module SqlText {
  import opened Options
  import opened Numerals

  // ----- reading -----

  /** What a statement is made of: characters outside literals, and literals. */
  datatype Elem = Raw(c: char) | Literal(text: string)

  /** Scans a text outside any literal. A literal that never ends makes the text unreadable. */
  function Read(s: string): Option<seq<Elem>>
    decreases |s|, 0
  {
    if s == "" then Some([])
    else if s[0] == '\'' then ReadLiteral(s[1..], "")
    else Before(Raw(s[0]), Read(s[1..]))
  }

  /** Scans a text inside a literal of which `text` has been read. */
  function ReadLiteral(s: string, text: string): Option<seq<Elem>>
    decreases |s|, 1
  {
    if s == "" then None
    else if s[0] != '\'' then ReadLiteral(s[1..], text + [s[0]])
    else if |s| > 1 && s[1] == '\'' then ReadLiteral(s[2..], text + ['\''])
    else Before(Literal(text), Read(s[1..]))
  }

  function Before(e: Elem, rest: Option<seq<Elem>>): Option<seq<Elem>> {
    if rest.Some? then Some([e] + rest.value) else None
  }

  // ----- writing -----

  /** Every single quote is doubled. */
  function EscapeSingleQuotes(s: string): string {
    if s == "" then "" else (if s[0] == '\'' then "''" else [s[0]]) + EscapeSingleQuotes(s[1..])
  }

  function Write(e: Elem): string {
    match e
    case Raw(c) => [c]
    case Literal(text) => "'" + EscapeSingleQuotes(text) + "'"
  }

  function WriteAll(es: seq<Elem>): string {
    if es == [] then "" else Write(es[0]) + WriteAll(es[1..])
  }

  /** No quote stands outside the literals, and no literal directly follows another. */
  ghost predicate Clean(es: seq<Elem>) {
    && QuoteFree(es)
    && forall i :: 0 < i < |es| ==> es[i - 1].Raw? || es[i].Raw?
  }

  predicate QuoteFree(es: seq<Elem>) {
    Raw('\'') !in es
  }

  // ----- what is written is read back -----

  lemma {:induction false} ReadEscaped(text: string, done: string, rest: string)
    requires rest == "" || rest[0] != '\''
    ensures ReadLiteral(EscapeSingleQuotes(text) + "'" + rest, done) == Before(Literal(done + text), Read(rest))
  {
    var s := EscapeSingleQuotes(text) + "'" + rest;
    if text == "" {
      assert s == "'" + rest && s[1..] == rest;
      assert done + text == done;
    } else {
      var more := EscapeSingleQuotes(text[1..]) + "'" + rest;
      ReadEscaped(text[1..], done + [text[0]], rest);
      assert done + [text[0]] + text[1..] == done + text;
      if text[0] == '\'' {
        assert s == "''" + more && s[2..] == more;
      } else {
        assert s == [text[0]] + more && s[1..] == more;
      }
    }
  }

  lemma CleanTail(es: seq<Elem>)
    requires es != [] && Clean(es)
    ensures Clean(es[1..])
    ensures es[0].Literal? ==> WriteAll(es[1..]) == "" || WriteAll(es[1..])[0] != '\''
  {
    var rest := es[1..];
    assert forall i :: 0 <= i < |rest| ==> rest[i] == es[i + 1];
    if es[0].Literal? && rest != [] {
      assert es[1].Raw? && es[1] in es;
    }
  }

  lemma {:induction false} ReadBack(es: seq<Elem>)
    requires Clean(es)
    ensures Read(WriteAll(es)) == Some(es)
  {
    if es != [] {
      CleanTail(es);
      ReadBack(es[1..]);
      assert es == [es[0]] + es[1..] && es[0] in es;
      assert WriteAll(es) == Write(es[0]) + WriteAll(es[1..]);
      hide WriteAll, Read, Clean;
      if es[0].Raw? {
        ReadRaw(es[0].c, WriteAll(es[1..]));
      } else {
        ReadWritten(es[0].text, WriteAll(es[1..]));
      }
    }
  }

  lemma ReadRaw(c: char, rest: string)
    requires c != '\''
    ensures Read([c] + rest) == Before(Raw(c), Read(rest))
  {
    assert ([c] + rest)[1..] == rest;
  }

  lemma ReadWritten(text: string, rest: string)
    requires rest == "" || rest[0] != '\''
    ensures Read(Write(Literal(text)) + rest) == Before(Literal(text), Read(rest))
  {
    var s := Write(Literal(text)) + rest;
    assert s[1..] == EscapeSingleQuotes(text) + "'" + rest;
    assert "" + text == text;
    ReadEscaped(text, "", rest);
  }

  lemma {:induction false} ReadIsClean(s: string)
    ensures Read(s).Some? ==> Clean(Read(s).value)
    ensures s != "" && s[0] != '\'' && Read(s).Some? ==> Read(s).value != [] && Read(s).value[0].Raw?
    decreases |s|, 0
  {
    if s != "" {
      if s[0] == '\'' {
        LiteralIsClean(s[1..], "");
      } else {
        ReadIsClean(s[1..]);
      }
    }
  }

  lemma {:induction false} LiteralIsClean(s: string, text: string)
    ensures ReadLiteral(s, text).Some? ==> Clean(ReadLiteral(s, text).value)
    decreases |s|, 1
  {
    if s == "" {
    } else if s[0] != '\'' {
      LiteralIsClean(s[1..], text + [s[0]]);
    } else if |s| > 1 && s[1] == '\'' {
      LiteralIsClean(s[2..], text + ['\'']);
    } else {
      ReadIsClean(s[1..]);
    }
  }

  /** A written statement is read back as it was exactly when it is clean. */
  lemma ReadBackIff(es: seq<Elem>)
    ensures Read(WriteAll(es)) == Some(es) <==> Clean(es)
  {
    if Clean(es) {
      ReadBack(es);
    }
    ReadIsClean(WriteAll(es));
  }

  // ----- statements -----

  datatype ColumnType = INTEGER | TEXT | REAL

  datatype Column = Column(name: string, typ: ColumnType, value: string)

  datatype LogicalOperator = AND | OR

  datatype OrderType = ASC | DESC

  function OperatorText(op: LogicalOperator): string {
    if op == AND then "AND" else "OR"
  }

  function OrderText(order: OrderType): string {
    if order == ASC then "ASC" else "DESC"
  }

  function Chars(s: string): (r: seq<Elem>)
    ensures |r| == |s| && forall i :: 0 <= i < |s| ==> r[i] == Raw(s[i])
  {
    seq(|s|, i requires 0 <= i < |s| => Raw(s[i]))
  }

  /** A value as a statement holds it: TEXT as a literal, anything else as it is. */
  function Value(col: Column): seq<Elem> {
    if col.typ == TEXT then [Literal(col.value)] else Chars(col.value)
  }

  function Assignment(col: Column): seq<Elem> {
    Chars(col.name + "=") + Value(col)
  }

  function Values(cols: seq<Column>): (r: seq<seq<Elem>>)
    ensures |r| == |cols| && forall i :: 0 <= i < |cols| ==> r[i] == Value(cols[i])
  {
    seq(|cols|, i requires 0 <= i < |cols| => Value(cols[i]))
  }

  function Assignments(cols: seq<Column>): (r: seq<seq<Elem>>)
    ensures |r| == |cols| && forall i :: 0 <= i < |cols| ==> r[i] == Assignment(cols[i])
  {
    seq(|cols|, i requires 0 <= i < |cols| => Assignment(cols[i]))
  }

  function Names(cols: seq<Column>): (r: seq<seq<Elem>>)
    ensures |r| == |cols| && forall i :: 0 <= i < |cols| ==> r[i] == Chars(cols[i].name)
  {
    seq(|cols|, i requires 0 <= i < |cols| => Chars(cols[i].name))
  }

  /** Parts with a separator between them. */
  function JoinElems(parts: seq<seq<Elem>>, sep: string): seq<Elem> {
    if parts == [] then []
    else if |parts| == 1 then parts[0]
    else parts[0] + Chars(sep) + JoinElems(parts[1..], sep)
  }

  function Where(lead: string, criteria: seq<Column>, op: LogicalOperator): seq<Elem> {
    if criteria == [] then [] else Chars(lead) + JoinElems(Assignments(criteria), " " + OperatorText(op) + " ")
  }

  function InsertStatement(table: string, cols: seq<Column>): seq<Elem> {
    Chars("INSERT INTO " + table + " (") + JoinElems(Names(cols), ", ") + Chars(") VALUES (") +
    JoinElems(Values(cols), ", ") + Chars(")")
  }

  function UpdateStatement(table: string, fields: seq<Column>, criteria: seq<Column>, op: LogicalOperator): seq<Elem> {
    Chars("UPDATE " + table + " SET ") + JoinElems(Assignments(fields), ", ") + Where(" WHERE ", criteria, op)
  }

  function RemoveStatement(table: string, criteria: seq<Column>, op: LogicalOperator): seq<Elem> {
    Chars("DELETE FROM " + table) + Where(" WHERE ", criteria, op)
  }

  function OrderBy(orderBy: seq<Column>, order: OrderType): seq<Elem> {
    if orderBy == [] then [] else Chars(" ORDER BY ") + JoinElems(Names(orderBy), ", ") + Chars(" " + OrderText(order))
  }

  /** A limit that is not positive is no limit. */
  function Limit(limit: int): string {
    if limit > 0 then " LIMIT " + Digits(limit) else ""
  }

  function SelectStatement(table: string, fields: seq<Column>, criteria: seq<Column>, op: LogicalOperator,
                           orderBy: seq<Column>, order: OrderType, limit: int): seq<Elem> {
    Chars("SELECT ") + (if fields == [] then Chars("*") else JoinElems(Names(fields), ", ")) + Chars(" FROM " + table + " ") +
    Where("WHERE ", criteria, op) + OrderBy(orderBy, order) + Chars(Limit(limit))
  }

  // ----- rendering loops -----

  function Join(parts: seq<string>, sep: string): string {
    if parts == [] then ""
    else if |parts| == 1 then parts[0]
    else parts[0] + sep + Join(parts[1..], sep)
  }

  lemma {:induction false} WriteConcat(a: seq<Elem>, b: seq<Elem>)
    ensures WriteAll(a + b) == WriteAll(a) + WriteAll(b)
  {
    if a == [] {
      assert a + b == b;
    } else {
      assert (a + b)[1..] == a[1..] + b;
      WriteConcat(a[1..], b);
    }
  }

  lemma {:induction false} WriteChars(s: string)
    ensures WriteAll(Chars(s)) == s
  {
    if s != "" {
      assert Chars(s)[1..] == Chars(s[1..]);
      WriteChars(s[1..]);
    }
  }

  lemma WriteValue(col: Column)
    ensures WriteAll(Value(col)) == if col.typ == TEXT then "'" + EscapeSingleQuotes(col.value) + "'" else col.value
  {
    if col.typ == TEXT {
      assert Value(col)[1..] == [];
    } else {
      WriteChars(col.value);
    }
  }

  lemma WriteAssignment(col: Column)
    ensures WriteAll(Assignment(col)) == col.name + "=" + WriteAll(Value(col))
  {
    WriteConcat(Chars(col.name + "="), Value(col));
    WriteChars(col.name + "=");
  }

  /** The strings of the parts. */
  ghost predicate Writes(strings: seq<string>, parts: seq<seq<Elem>>) {
    |strings| == |parts| && forall i :: 0 <= i < |parts| ==> strings[i] == WriteAll(parts[i])
  }

  lemma {:induction false} WriteJoin(strings: seq<string>, parts: seq<seq<Elem>>, sep: string)
    requires Writes(strings, parts)
    ensures Join(strings, sep) == WriteAll(JoinElems(parts, sep))
  {
    if |parts| > 1 {
      WriteJoin(strings[1..], parts[1..], sep);
      WriteConcat(parts[0] + Chars(sep), JoinElems(parts[1..], sep));
      WriteConcat(parts[0], Chars(sep));
      WriteChars(sep);
    }
  }

  method NameList(cols: seq<Column>) returns (names: seq<string>)
    ensures Writes(names, Names(cols))
  {
    names := [];
    for i := 0 to |cols|
      invariant |names| == i && forall k :: 0 <= k < i ==> names[k] == WriteAll(Names(cols)[k])
    {
      WriteChars(cols[i].name);
      names := names + [cols[i].name];
    }
  }

  method ValueList(cols: seq<Column>) returns (values: seq<string>)
    ensures Writes(values, Values(cols))
  {
    values := [];
    for i := 0 to |cols|
      invariant |values| == i && forall k :: 0 <= k < i ==> values[k] == WriteAll(Values(cols)[k])
    {
      hide Value, Values, WriteAll, EscapeSingleQuotes;
      var value := if cols[i].typ == TEXT then "'" + EscapeSingleQuotes(cols[i].value) + "'" else cols[i].value;
      WriteValue(cols[i]);
      assert value == WriteAll(Values(cols)[i]);
      values := values + [value];
    }
  }

  method AssignmentList(cols: seq<Column>) returns (items: seq<string>)
    ensures Writes(items, Assignments(cols))
  {
    items := [];
    for i := 0 to |cols|
      invariant |items| == i && forall k :: 0 <= k < i ==> items[k] == WriteAll(Assignments(cols)[k])
    {
      WriteValue(cols[i]);
      WriteAssignment(cols[i]);
      hide Value, WriteAll, EscapeSingleQuotes, Assignment;
      if cols[i].typ == TEXT {
        items := items + [cols[i].name + "=" + ("'" + EscapeSingleQuotes(cols[i].value) + "'")];
      } else {
        items := items + [cols[i].name + "=" + cols[i].value];
      }
    }
  }

  method WhereClause(lead: string, criteria: seq<Column>, op: LogicalOperator) returns (clause: string)
    ensures clause == WriteAll(Where(lead, criteria, op))
  {
    clause := "";
    if criteria != [] {
      var conditions := AssignmentList(criteria);
      var sep := " " + OperatorText(op) + " ";
      WriteJoin(conditions, Assignments(criteria), sep);
      WriteConcat(Chars(lead), JoinElems(Assignments(criteria), sep));
      WriteChars(lead);
      clause := lead + Join(conditions, sep);
    }
  }

  method Insert(table: string, cols: seq<Column>) returns (query: string)
    ensures query == WriteAll(InsertStatement(table, cols))
  {
    var names := NameList(cols);
    var values := ValueList(cols);
    WriteJoin(names, Names(cols), ", ");
    WriteJoin(values, Values(cols), ", ");
    hide WriteAll, Join, JoinElems, Writes;
    var a, b, c, d, e := Chars("INSERT INTO " + table + " ("), JoinElems(Names(cols), ", "), Chars(") VALUES ("),
                         JoinElems(Values(cols), ", "), Chars(")");
    WriteConcat(a + b + c + d, e);
    WriteConcat(a + b + c, d);
    WriteConcat(a + b, c);
    WriteConcat(a, b);
    WriteChars("INSERT INTO " + table + " (");
    WriteChars(") VALUES (");
    WriteChars(")");
    query := "INSERT INTO " + table + " (" + Join(names, ", ") + ") VALUES (" + Join(values, ", ") + ")";
  }

  /** Without a field to set the statement is not made; the process ends instead. */
  method Update(table: string, fields: seq<Column>, criteria: seq<Column>, op: LogicalOperator) returns (query: Option<string>)
    ensures query == if fields == [] then None else Some(WriteAll(UpdateStatement(table, fields, criteria, op)))
  {
    if fields == [] {
      return None;
    }
    var setFields := AssignmentList(fields);
    WriteJoin(setFields, Assignments(fields), ", ");
    var whereClause := WhereClause(" WHERE ", criteria, op);
    hide WriteAll, Join, JoinElems, Writes, Where;
    var a, b := Chars("UPDATE " + table + " SET "), JoinElems(Assignments(fields), ", ");
    WriteConcat(a + b, Where(" WHERE ", criteria, op));
    WriteConcat(a, b);
    WriteChars("UPDATE " + table + " SET ");
    query := Some("UPDATE " + table + " SET " + Join(setFields, ", ") + whereClause);
  }

  method Remove(table: string, criteria: seq<Column>, op: LogicalOperator) returns (query: string)
    ensures query == WriteAll(RemoveStatement(table, criteria, op))
  {
    var whereClause := WhereClause(" WHERE ", criteria, op);
    WriteConcat(Chars("DELETE FROM " + table), Where(" WHERE ", criteria, op));
    WriteChars("DELETE FROM " + table);
    query := "DELETE FROM " + table + whereClause;
  }

  method OrderClause(orderBy: seq<Column>, order: OrderType) returns (clause: string)
    ensures clause == WriteAll(OrderBy(orderBy, order))
  {
    clause := "";
    if orderBy != [] {
      var names := NameList(orderBy);
      WriteJoin(names, Names(orderBy), ", ");
      hide WriteAll, Join, JoinElems, Writes;
      var a, b, c := Chars(" ORDER BY "), JoinElems(Names(orderBy), ", "), Chars(" " + OrderText(order));
      WriteConcat(a + b, c);
      WriteConcat(a, b);
      WriteChars(" ORDER BY ");
      WriteChars(" " + OrderText(order));
      clause := " ORDER BY " + Join(names, ", ");
      clause := clause + (" " + OrderText(order));
    }
  }

  method SelectedFields(fields: seq<Column>) returns (selected: string)
    ensures selected == WriteAll(if fields == [] then Chars("*") else JoinElems(Names(fields), ", "))
  {
    if fields == [] {
      WriteChars("*");
      selected := "*";
    } else {
      var names := NameList(fields);
      WriteJoin(names, Names(fields), ", ");
      selected := Join(names, ", ");
    }
  }

  method Select(table: string, fields: seq<Column>, criteria: seq<Column>, op: LogicalOperator, orderBy: seq<Column>,
                order: OrderType, limit: int) returns (query: string)
    ensures query == WriteAll(SelectStatement(table, fields, criteria, op, orderBy, order, limit))
  {
    var selected := SelectedFields(fields);
    var condition := WhereClause("WHERE ", criteria, op);
    var ordering := OrderClause(orderBy, order);
    hide WriteAll, JoinElems, Where, OrderBy;
    var a, b, c := Chars("SELECT "), if fields == [] then Chars("*") else JoinElems(Names(fields), ", "), Chars(" FROM " + table + " ");
    var d, e, f := Where("WHERE ", criteria, op), OrderBy(orderBy, order), Chars(Limit(limit));
    WriteSix(a, b, c, d, e, f);
    WriteChars("SELECT ");
    WriteChars(" FROM " + table + " ");
    WriteChars(Limit(limit));
    condition := condition + ordering;
    if limit > 0 {
      condition := condition + (" LIMIT " + Digits(limit));
    }
    assert condition == WriteAll(d) + WriteAll(e) + WriteAll(f);
    hide *;
    query := "SELECT " + selected + (" FROM " + table + " ") + condition;
  }

  lemma WriteSix(a: seq<Elem>, b: seq<Elem>, c: seq<Elem>, d: seq<Elem>, e: seq<Elem>, f: seq<Elem>)
    ensures WriteAll(a + b + c + d + e + f) == WriteAll(a) + WriteAll(b) + WriteAll(c) + (WriteAll(d) + WriteAll(e) + WriteAll(f))
  {
    hide WriteAll;
    WriteConcat(a + b + c + d + e, f);
    WriteConcat(a + b + c + d, e);
    WriteConcat(a + b + c, d);
    WriteConcat(a + b, c);
    WriteConcat(a, b);
  }
}
