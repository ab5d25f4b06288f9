/**
 What a statement asks for, read from its text: the literals and characters a reader finds are put together
 to words, symbols and strings, and these to the clauses of a statement.
 */
module SqlParse {
  import opened Options
  import opened Numerals
  import opened SqlText
  import opened SqlReadBack

  // ----- words, symbols and strings -----

  datatype Token = Word(text: string) | Sym(c: char) | Str(text: string)

  predicate IsSymbol(c: char) {
    c == '(' || c == ')' || c == ',' || c == '='
  }

  predicate InWord(e: Elem) {
    e.Raw? && e.c != ' ' && !IsSymbol(e.c)
  }

  function Lex(es: seq<Elem>): (r: seq<Token>)
    ensures es != [] && InWord(es[0]) ==> r != [] && r[0].Word?
  {
    if es == [] then []
    else
      var rest := Lex(es[1..]);
      match es[0]
      case Literal(text) => [Str(text)] + rest
      case Raw(c) =>
        if c == ' ' then rest
        else if IsSymbol(c) then [Sym(c)] + rest
        else if |es| > 1 && InWord(es[1]) then [Word([c] + rest[0].text)] + rest[1..]
        else [Word([c])] + rest
  }

  /** No word goes on from one part to the next. */
  predicate StartsApart(es: seq<Elem>) {
    es == [] || !InWord(es[0])
  }

  predicate EndsApart(es: seq<Elem>) {
    es == [] || !InWord(es[|es| - 1])
  }

  lemma {:induction false} LexConcat(a: seq<Elem>, b: seq<Elem>)
    requires EndsApart(a) || StartsApart(b)
    ensures Lex(a + b) == Lex(a) + Lex(b)
  {
    if a == [] {
      assert a + b == b;
    } else {
      assert (a + b)[1..] == a[1..] + b;
      LexConcat(a[1..], b);
      LexIs(a);
      LexIs(a + b);
      hide Lex;
      PutConcat(a[0], GoesOn(a), Lex(a[1..]), Lex(b));
      if |a| > 1 {
        assert (a + b)[1] == a[1];
      }
    }
  }

  /** The second element goes on with a word. */
  predicate GoesOn(es: seq<Elem>) {
    |es| > 1 && InWord(es[1])
  }

  /** One element before tokens, the first of which it joins when both belong to a word. */
  function PutFirst(e: Elem, goesOn: bool, rest: seq<Token>): seq<Token>
    requires goesOn ==> rest != [] && rest[0].Word?
  {
    match e
    case Literal(text) => [Str(text)] + rest
    case Raw(c) =>
      if c == ' ' then rest
      else if IsSymbol(c) then [Sym(c)] + rest
      else if goesOn then [Word([c] + rest[0].text)] + rest[1..]
      else [Word([c])] + rest
  }

  lemma LexIs(es: seq<Elem>)
    requires es != []
    ensures GoesOn(es) ==> Lex(es[1..]) != [] && Lex(es[1..])[0].Word?
    ensures Lex(es) == PutFirst(es[0], GoesOn(es), Lex(es[1..]))
  {
  }

  lemma PutConcat(e: Elem, goesOn: bool, x: seq<Token>, y: seq<Token>)
    requires goesOn ==> x != [] && x[0].Word?
    ensures PutFirst(e, goesOn, x + y) == PutFirst(e, goesOn, x) + y
  {
    if goesOn {
      assert (x + y)[1..] == x[1..] + y;
    }
  }

  lemma Regroup(a: seq<Token>, b: seq<Token>, c: seq<Token>)
    ensures a + b + c == a + (b + c)
  {
  }

  /** A name, a table or a number: not empty, and made of characters that belong to a word. */
  predicate IsWord(s: string) {
    s != "" && forall i :: 0 <= i < |s| ==> s[i] != ' ' && s[i] != '\'' && !IsSymbol(s[i])
  }

  lemma {:induction false} LexWord(s: string)
    requires IsWord(s)
    ensures Lex(Chars(s)) == [Word(s)]
  {
    assert Chars(s)[1..] == Chars(s[1..]);
    if |s| > 1 {
      LexWord(s[1..]);
      assert [s[0]] + s[1..] == s;
    } else {
      assert s == [s[0]];
    }
  }

  lemma CharsConcat(a: string, b: string)
    ensures Chars(a + b) == Chars(a) + Chars(b)
  {
  }

  /** A word between spaces. */
  lemma LexSpaced(s: string)
    requires IsWord(s)
    ensures Lex(Chars(s + " ")) == [Word(s)] && Lex(Chars(" " + s)) == [Word(s)] && Lex(Chars(" " + s + " ")) == [Word(s)]
  {
    LexWord(s);
    CharsConcat(s, " ");
    CharsConcat(" ", s);
    CharsConcat(" " + s, " ");
    assert Lex(Chars(" ")) == [] by { assert Chars(" ")[1..] == []; }
    hide Lex;
    LexConcat(Chars(s), Chars(" "));
    LexConcat(Chars(" "), Chars(s));
    LexConcat(Chars(" ") + Chars(s), Chars(" "));
  }

  /** A text that starts, or ends, with a space or a symbol. */
  lemma Edges(s: string)
    ensures s != "" && (s[0] == ' ' || IsSymbol(s[0])) ==> StartsApart(Chars(s))
    ensures s != "" && (s[|s| - 1] == ' ' || IsSymbol(s[|s| - 1])) ==> EndsApart(Chars(s))
  {
  }

  /** Texts one after another, when a space or a symbol is between them. */
  lemma LexTexts(a: string, b: string)
    requires (a != "" && (a[|a| - 1] == ' ' || IsSymbol(a[|a| - 1]))) || (b != "" && (b[0] == ' ' || IsSymbol(b[0])))
    ensures Lex(Chars(a + b)) == Lex(Chars(a)) + Lex(Chars(b))
  {
    hide Lex;
    CharsConcat(a, b);
    Edges(a);
    Edges(b);
    LexConcat(Chars(a), Chars(b));
  }

  lemma LexSymbol(c: char)
    requires IsSymbol(c)
    ensures Lex(Chars([c])) == [Sym(c)]
  {
    assert Chars([c])[1..] == [];
  }

  // ----- lists -----

  /** Parts of tokens with a token between them. */
  function Separated(parts: seq<seq<Token>>, sep: Token): seq<Token> {
    if parts == [] then []
    else if |parts| == 1 then parts[0]
    else parts[0] + [sep] + Separated(parts[1..], sep)
  }

  function LexAll(parts: seq<seq<Elem>>): (r: seq<seq<Token>>)
    ensures |r| == |parts| && forall i :: 0 <= i < |parts| ==> r[i] == Lex(parts[i])
  {
    seq(|parts|, i requires 0 <= i < |parts| => Lex(parts[i]))
  }

  lemma {:induction false} LexJoin(parts: seq<seq<Elem>>, sep: string, token: Token)
    requires sep != "" && Lex(Chars(sep)) == [token] && EndsApart(Chars(sep)) && StartsApart(Chars(sep))
    ensures Lex(JoinElems(parts, sep)) == Separated(LexAll(parts), token)
  {
    if |parts| > 1 {
      LexJoin(parts[1..], sep, token);
      assert LexAll(parts)[1..] == LexAll(parts[1..]);
      hide Lex;
      LexConcat(parts[0] + Chars(sep), JoinElems(parts[1..], sep)) by {
        assert (parts[0] + Chars(sep))[|parts[0]| + |sep| - 1] == Chars(sep)[|sep| - 1];
      }
      LexConcat(parts[0], Chars(sep));
    }
  }

  /** Takes parts of the given size as long as the token between them follows. */
  function Chunks(ts: seq<Token>, size: nat, sep: Token): (seq<seq<Token>>, seq<Token>)
    requires size > 0
  {
    if |ts| < size then ([], ts)
    else if |ts| > size && ts[size] == sep then
      var (parts, rest) := Chunks(ts[size + 1..], size, sep);
      ([ts[..size]] + parts, rest)
    else ([ts[..size]], ts[size..])
  }

  lemma {:induction false} ChunksOf(parts: seq<seq<Token>>, size: nat, sep: Token, rest: seq<Token>)
    requires size > 0 && parts != [] && (forall i :: 0 <= i < |parts| ==> |parts[i]| == size)
    requires rest == [] || rest[0] != sep
    ensures Chunks(Separated(parts, sep) + rest, size, sep) == (parts, rest)
  {
    if |parts| == 1 {
      assert parts == [parts[0]];
      LastChunk(parts[0], sep, rest);
    } else {
      assert Separated(parts, sep) == parts[0] + [sep] + Separated(parts[1..], sep);
      hide Chunks, Separated;
      ChunksOf(parts[1..], size, sep, rest);
      NextChunk(parts[0], sep, Separated(parts[1..], sep) + rest, parts[1..], rest);
      assert parts == [parts[0]] + parts[1..];
      Regroup(parts[0] + [sep], Separated(parts[1..], sep), rest);
    }
  }

  lemma LastChunk(part: seq<Token>, sep: Token, rest: seq<Token>)
    requires part != [] && (rest == [] || rest[0] != sep)
    ensures Chunks(part + rest, |part|, sep) == ([part], rest)
  {
    assert (part + rest)[..|part|] == part && (part + rest)[|part|..] == rest;
  }

  lemma NextChunk(part: seq<Token>, sep: Token, more: seq<Token>, parts: seq<seq<Token>>, rest: seq<Token>)
    requires part != [] && Chunks(more, |part|, sep) == (parts, rest)
    ensures Chunks(part + [sep] + more, |part|, sep) == ([part] + parts, rest)
  {
    var ts := part + [sep] + more;
    assert ts[..|part|] == part && ts[|part| + 1..] == more;
  }

  /** Every element has a value. */
  function All<T, R>(xs: seq<T>, f: T -> Option<R>): Option<seq<R>> {
    if xs == [] then Some([])
    else
      var first, rest := f(xs[0]), All(xs[1..], f);
      if first.Some? && rest.Some? then Some([first.value] + rest.value) else None
  }

  lemma {:induction false} AllSome<T, R>(xs: seq<T>, f: T -> Option<R>, ys: seq<R>)
    requires |xs| == |ys| && forall i :: 0 <= i < |xs| ==> f(xs[i]) == Some(ys[i])
    ensures All(xs, f) == Some(ys)
  {
    if xs != [] {
      AllSome(xs[1..], f, ys[1..]);
      assert ys == [ys[0]] + ys[1..];
    }
  }

  // ----- clauses -----

  datatype Operand = Quoted(text: string) | Bare(text: string)

  /** `name=value`: a condition, or what a field is set to. */
  datatype Test = Test(name: string, value: Operand)

  /** All of the tests, or any of them. */
  datatype Condition = Condition(tests: seq<Test>, any: bool)

  datatype Statement =
    | SelectFrom(names: seq<string>, table: string, where: Condition, orderBy: seq<string>, order: OrderType, limit: Option<nat>)
    | DeleteFrom(table: string, where: Condition)
    | UpdateSet(table: string, fields: seq<Test>, where: Condition)
    | InsertInto(table: string, names: seq<string>, values: seq<Operand>)

  function OperandOf(ts: seq<Token>): Option<Operand> {
    if |ts| != 1 then None
    else match ts[0]
      case Str(text) => Some(Quoted(text))
      case Word(text) => Some(Bare(text))
      case Sym(_) => None
  }

  function NameOf(ts: seq<Token>): Option<string> {
    if |ts| == 1 && ts[0].Word? then Some(ts[0].text) else None
  }

  function TestOf(ts: seq<Token>): Option<Test> {
    if |ts| == 3 && ts[0].Word? && ts[1] == Sym('=') && OperandOf(ts[2..]).Some?
    then Some(Test(ts[0].text, OperandOf(ts[2..]).value)) else None
  }

  function ReadNames(ts: seq<Token>): Option<(seq<string>, seq<Token>)> {
    var (parts, rest) := Chunks(ts, 1, Sym(','));
    match All(parts, NameOf)
    case Some(names) => Some((names, rest))
    case None => None
  }

  function ReadValues(ts: seq<Token>): Option<(seq<Operand>, seq<Token>)> {
    var (parts, rest) := Chunks(ts, 1, Sym(','));
    match All(parts, OperandOf)
    case Some(values) => Some((values, rest))
    case None => None
  }

  function ReadTests(ts: seq<Token>, sep: Token): Option<(seq<Test>, seq<Token>)> {
    var (parts, rest) := Chunks(ts, 3, sep);
    match All(parts, TestOf)
    case Some(tests) => Some((tests, rest))
    case None => None
  }

  function ReadWhere(ts: seq<Token>): Option<(Condition, seq<Token>)> {
    if ts == [] || ts[0] != Word("WHERE") then Some((Condition([], false), ts))
    else
      var any := |ts| > 4 && ts[4] == Word("OR");
      match ReadTests(ts[1..], if any then Word("OR") else Word("AND"))
      case Some((tests, rest)) => Some((Condition(tests, any), rest))
      case None => None
  }

  function ReadOrder(ts: seq<Token>): Option<(seq<string>, OrderType, seq<Token>)> {
    if |ts| < 2 || ts[0] != Word("ORDER") || ts[1] != Word("BY") then Some(([], ASC, ts))
    else match ReadNames(ts[2..])
      case None => None
      case Some((names, rest)) =>
        if rest != [] && rest[0] == Word("ASC") then Some((names, ASC, rest[1..]))
        else if rest != [] && rest[0] == Word("DESC") then Some((names, DESC, rest[1..]))
        else None
  }

  function ReadLimit(ts: seq<Token>): Option<Option<nat>> {
    if ts == [] then Some(None)
    else if |ts| == 2 && ts[0] == Word("LIMIT") && ts[1].Word? && ts[1].text != "" && AllDigits(ts[1].text)
    then Some(Some(Number(ts[1].text))) else None
  }

  function ReadSelect(ts: seq<Token>): Option<Statement> {
    match ReadNames(ts)
    case None => None
    case Some((names, rest)) =>
      if |rest| < 2 || rest[0] != Word("FROM") || !rest[1].Word? then None
      else match ReadWhere(rest[2..])
        case None => None
        case Some((where, more)) =>
          match ReadOrder(more)
          case None => None
          case Some((orderBy, order, end)) =>
            match ReadLimit(end)
            case None => None
            case Some(limit) => Some(SelectFrom(names, rest[1].text, where, orderBy, order, limit))
  }

  function ReadDelete(ts: seq<Token>): Option<Statement> {
    if |ts| < 2 || ts[0] != Word("FROM") || !ts[1].Word? then None
    else match ReadWhere(ts[2..])
      case Some((where, end)) => if end == [] then Some(DeleteFrom(ts[1].text, where)) else None
      case None => None
  }

  function ReadUpdate(ts: seq<Token>): Option<Statement> {
    if |ts| < 2 || !ts[0].Word? || ts[1] != Word("SET") then None
    else match ReadTests(ts[2..], Sym(','))
      case None => None
      case Some((fields, rest)) =>
        match ReadWhere(rest)
        case Some((where, end)) => if end == [] then Some(UpdateSet(ts[0].text, fields, where)) else None
        case None => None
  }

  function ReadInsert(ts: seq<Token>): Option<Statement> {
    if |ts| < 3 || ts[0] != Word("INTO") || !ts[1].Word? || ts[2] != Sym('(') then None
    else match ReadNames(ts[3..])
      case None => None
      case Some((names, rest)) =>
        if |rest| < 3 || rest[..3] != [Sym(')'), Word("VALUES"), Sym('(')] then None
        else match ReadValues(rest[3..])
          case Some((values, end)) => if end == [Sym(')')] then Some(InsertInto(ts[1].text, names, values)) else None
          case None => None
  }

  /** The statement a text holds. */
  function Asks(text: string): Option<Statement> {
    match Read(text)
    case None => None
    case Some(es) =>
      var ts := Lex(es);
      if ts == [] then None
      else if ts[0] == Word("SELECT") then ReadSelect(ts[1..])
      else if ts[0] == Word("DELETE") then ReadDelete(ts[1..])
      else if ts[0] == Word("UPDATE") then ReadUpdate(ts[1..])
      else if ts[0] == Word("INSERT") then ReadInsert(ts[1..])
      else None
  }

  // ----- what each clause is read as -----

  /** The columns have names that are words, and the numbers among them too. */
  predicate WordNames(cols: seq<Column>) {
    forall i :: 0 <= i < |cols| ==> IsWord(cols[i].name)
  }

  predicate WordValues(cols: seq<Column>) {
    forall i :: 0 <= i < |cols| ==> cols[i].typ == TEXT || IsWord(cols[i].value)
  }

  function NamesOf(cols: seq<Column>): (r: seq<string>)
    ensures |r| == |cols| && forall i :: 0 <= i < |cols| ==> r[i] == cols[i].name
  {
    seq(|cols|, i requires 0 <= i < |cols| => cols[i].name)
  }

  function OperandsOf(cols: seq<Column>): (r: seq<Operand>)
    ensures |r| == |cols|
    ensures forall i :: 0 <= i < |cols| ==> r[i] == if cols[i].typ == TEXT then Quoted(cols[i].value) else Bare(cols[i].value)
  {
    seq(|cols|, i requires 0 <= i < |cols| => if cols[i].typ == TEXT then Quoted(cols[i].value) else Bare(cols[i].value))
  }

  function TestsOf(cols: seq<Column>): (r: seq<Test>)
    ensures |r| == |cols| && forall i :: 0 <= i < |cols| ==> r[i] == Test(cols[i].name, OperandsOf(cols)[i])
  {
    seq(|cols|, i requires 0 <= i < |cols| => Test(cols[i].name, OperandsOf(cols)[i]))
  }

  lemma LexComma()
    ensures Lex(Chars(", ")) == [Sym(',')] && EndsApart(Chars(", ")) && StartsApart(Chars(", "))
  {
    assert Chars(", ")[1..][1..] == [];
  }

  /** A list of names is read up to what follows. */
  lemma NamesRead(cols: seq<Column>, rest: seq<Token>)
    requires cols != [] && WordNames(cols) && (rest == [] || rest[0] != Sym(','))
    ensures ReadNames(Lex(JoinElems(Names(cols), ", ")) + rest) == Some((NamesOf(cols), rest))
  {
    LexComma();
    LexJoin(Names(cols), ", ", Sym(','));
    var parts := LexAll(Names(cols));
    forall i | 0 <= i < |cols| ensures parts[i] == [Word(cols[i].name)] {
      LexWord(cols[i].name);
    }
    hide Lex;
    ChunksOf(parts, 1, Sym(','), rest);
    AllSome(parts, NameOf, NamesOf(cols));
  }

  lemma ValueTokens(col: Column)
    requires col.typ == TEXT || IsWord(col.value)
    ensures Lex(Value(col)) == [if col.typ == TEXT then Str(col.value) else Word(col.value)]
  {
    if col.typ == TEXT {
      assert Value(col)[1..] == [];
    } else {
      LexWord(col.value);
    }
  }

  lemma TestTokens(col: Column)
    requires IsWord(col.name) && (col.typ == TEXT || IsWord(col.value))
    ensures Lex(Assignment(col)) == [Word(col.name), Sym('='), if col.typ == TEXT then Str(col.value) else Word(col.value)]
  {
    assert Assignment(col) == Chars(col.name + "=") + Value(col);
    assert IsSymbol('=') && "=" == ['='];
    hide *;
    ValueTokens(col);
    LexWord(col.name);
    LexSymbol('=');
    LexTexts(col.name, "=");
    Edges(col.name + "=");
    LexConcat(Chars(col.name + "="), Value(col));
  }

  lemma ValuesRead(cols: seq<Column>, rest: seq<Token>)
    requires cols != [] && WordValues(cols) && (rest == [] || rest[0] != Sym(','))
    ensures ReadValues(Lex(JoinElems(Values(cols), ", ")) + rest) == Some((OperandsOf(cols), rest))
  {
    LexComma();
    LexJoin(Values(cols), ", ", Sym(','));
    var parts := LexAll(Values(cols));
    forall i | 0 <= i < |cols|
      ensures parts[i] == [if cols[i].typ == TEXT then Str(cols[i].value) else Word(cols[i].value)]
    {
      ValueTokens(cols[i]);
    }
    hide Lex;
    ChunksOf(parts, 1, Sym(','), rest);
    AllSome(parts, OperandOf, OperandsOf(cols));
  }

  lemma TestParts(cols: seq<Column>)
    requires WordNames(cols) && WordValues(cols)
    ensures var parts := LexAll(Assignments(cols));
            forall i :: 0 <= i < |cols| ==> |parts[i]| == 3 && TestOf(parts[i]) == Some(TestsOf(cols)[i])
  {
    var parts := LexAll(Assignments(cols));
    forall i | 0 <= i < |cols| ensures |parts[i]| == 3 && TestOf(parts[i]) == Some(TestsOf(cols)[i]) {
      hide Lex;
      TestTokens(cols[i]);
      assert parts[i][2..] == [parts[i][2]];
    }
  }

  lemma FirstChunk(parts: seq<seq<Token>>, sep: Token, rest: seq<Token>)
    requires parts != [] && forall i :: 0 <= i < |parts| ==> |parts[i]| == 3
    ensures var ts := Separated(parts, sep) + rest;
            |ts| >= 3 && (|parts| > 1 ==> |ts| > 3 && ts[3] == sep) && (|parts| == 1 ==> ts[3..] == rest)
  {
    if |parts| > 1 {
      assert (parts[0] + [sep])[3] == sep;
    }
  }

  lemma ReadTestsIs(ts: seq<Token>, sep: Token, parts: seq<seq<Token>>, tests: seq<Test>, rest: seq<Token>)
    requires Chunks(ts, 3, sep) == (parts, rest) && All(parts, TestOf) == Some(tests)
    ensures ReadTests(ts, sep) == Some((tests, rest))
  {
  }

  /** Assignments with any separator are read up to what follows. */
  lemma TestsRead(cols: seq<Column>, sep: string, token: Token, rest: seq<Token>)
    requires cols != [] && WordNames(cols) && WordValues(cols) && (rest == [] || rest[0] != token)
    requires sep != "" && Lex(Chars(sep)) == [token] && EndsApart(Chars(sep)) && StartsApart(Chars(sep))
    ensures var ts := Lex(JoinElems(Assignments(cols), sep)) + rest;
            && ReadTests(ts, token) == Some((TestsOf(cols), rest)) && |ts| >= 3
            && (|cols| > 1 ==> |ts| > 3 && ts[3] == token) && (|cols| == 1 ==> ts[3..] == rest)
  {
    hide *;
    LexJoin(Assignments(cols), sep, token);
    var parts := LexAll(Assignments(cols));
    TestParts(cols);
    ChunksOf(parts, 3, token, rest);
    AllSome(parts, TestOf, TestsOf(cols));
    ReadTestsIs(Separated(parts, token) + rest, token, parts, TestsOf(cols), rest);
    FirstChunk(parts, token, rest);
  }

  lemma LexOperator(op: LogicalOperator)
    ensures var sep := " " + OperatorText(op) + " ";
            && Lex(Chars(sep)) == [Word(if op == OR then "OR" else "AND")] && EndsApart(Chars(sep)) && StartsApart(Chars(sep))
  {
    hide Lex;
    assert IsWord("AND") && IsWord("OR");
    LexSpaced("AND");
    LexSpaced("OR");
  }

  function ConditionOf(criteria: seq<Column>, op: LogicalOperator): Condition {
    Condition(TestsOf(criteria), op == OR && |criteria| > 1)
  }

  lemma NoTests(op: LogicalOperator)
    ensures ConditionOf([], op) == Condition([], false)
  {
  }

  /** A condition is read with its operator, up to what follows. */
  lemma WhereRead(lead: string, criteria: seq<Column>, op: LogicalOperator, rest: seq<Token>)
    requires WordNames(criteria) && WordValues(criteria)
    requires lead != "" && Lex(Chars(lead)) == [Word("WHERE")] && EndsApart(Chars(lead))
    requires rest == [] || (rest[0] != Word("AND") && rest[0] != Word("OR") && rest[0] != Word("WHERE"))
    ensures ReadWhere(Lex(Where(lead, criteria, op)) + rest) == Some((ConditionOf(criteria, op), rest))
  {
    if criteria == [] {
      NoTests(op);
      assert Lex([]) + rest == rest;
    } else {
      assert ConditionOf(criteria, op) == Condition(TestsOf(criteria), op == OR && |criteria| > 1);
      hide *;
      WhereTokens(lead, criteria, op);
      OperatorRead(criteria, op, rest);
      var tests := Lex(JoinElems(Assignments(criteria), " " + OperatorText(op) + " "));
      WhereIs(tests + rest);
      Regroup([Word("WHERE")], tests, rest);
    }
  }

  lemma WhereTokens(lead: string, criteria: seq<Column>, op: LogicalOperator)
    requires criteria != [] && Lex(Chars(lead)) == [Word("WHERE")] && EndsApart(Chars(lead))
    ensures Lex(Where(lead, criteria, op)) ==
            [Word("WHERE")] + Lex(JoinElems(Assignments(criteria), " " + OperatorText(op) + " "))
  {
    hide Lex, JoinElems, OperatorText, Assignments, EndsApart;
    LexConcat(Chars(lead), JoinElems(Assignments(criteria), " " + OperatorText(op) + " "));
  }

  lemma WhereIs(ts: seq<Token>)
    ensures var any := |ts| > 3 && ts[3] == Word("OR");
            var tests := ReadTests(ts, if any then Word("OR") else Word("AND"));
            ReadWhere([Word("WHERE")] + ts) == if tests.Some? then Some((Condition(tests.value.0, any), tests.value.1)) else None
  {
    assert ([Word("WHERE")] + ts)[1..] == ts;
  }

  /** The operator shows when there is more than one test; with one, either is read the same. */
  lemma OperatorRead(criteria: seq<Column>, op: LogicalOperator, rest: seq<Token>)
    requires criteria != [] && WordNames(criteria) && WordValues(criteria)
    requires rest == [] || (rest[0] != Word("AND") && rest[0] != Word("OR"))
    ensures var ts := Lex(JoinElems(Assignments(criteria), " " + OperatorText(op) + " ")) + rest;
            var any := |ts| > 3 && ts[3] == Word("OR");
            && any == (op == OR && |criteria| > 1)
            && ReadTests(ts, if any then Word("OR") else Word("AND")) == Some((TestsOf(criteria), rest))
  {
    var sep := " " + OperatorText(op) + " ";
    LexOperator(op);
    LexOperator(AND);
    hide Lex, ReadTests, OperatorText, WordNames, WordValues;
    TestsRead(criteria, sep, Word(if op == OR then "OR" else "AND"), rest);
    var ts := Lex(JoinElems(Assignments(criteria), sep)) + rest;
    if |criteria| == 1 {
      assert |ts| > 3 ==> ts[3] == ts[3..][0];
      TestsRead(criteria, " " + OperatorText(AND) + " ", Word("AND"), rest);
      assert JoinElems(Assignments(criteria), sep) == JoinElems(Assignments(criteria), " " + OperatorText(AND) + " ");
    }
  }

  lemma FieldsRead(fields: seq<Column>, rest: seq<Token>)
    requires WordNames(fields) && (rest == [] || rest[0] != Sym(','))
    ensures ReadNames(Lex(FieldList(fields)) + rest) == Some((if fields == [] then ["*"] else NamesOf(fields), rest))
  {
    if fields == [] {
      var star := [Column("*", INTEGER, "")];
      assert NamesOf(star) == ["*"] && JoinElems(Names(star), ", ") == Chars("*");
      NamesRead(star, rest);
    } else {
      NamesRead(fields, rest);
    }
  }

  lemma LexOrderBy()
    ensures Lex(Chars(" ORDER BY ")) == [Word("ORDER"), Word("BY")]
  {
    hide Lex;
    assert IsWord("ORDER") && IsWord("BY");
    LexSpaced("ORDER");
    LexSpaced("BY");
    assert " ORDER BY " == (" " + "ORDER") + (" " + "BY" + " ");
    LexTexts(" " + "ORDER", " " + "BY" + " ");
  }

  lemma LexDirection(order: OrderType)
    ensures Lex(Chars(" " + OrderText(order))) == [Word(if order == DESC then "DESC" else "ASC")]
  {
    hide Lex;
    assert IsWord("ASC") && IsWord("DESC");
    LexSpaced("ASC");
    LexSpaced("DESC");
  }

  lemma OrderTokens(orderBy: seq<Column>, order: OrderType)
    requires orderBy != []
    ensures Lex(OrderBy(orderBy, order)) ==
            [Word("ORDER"), Word("BY")] + Lex(JoinElems(Names(orderBy), ", ")) + [Word(if order == DESC then "DESC" else "ASC")]
  {
    var a, b, c := Chars(" ORDER BY "), JoinElems(Names(orderBy), ", "), Chars(" " + OrderText(order));
    hide Lex, JoinElems, StartsApart, EndsApart, OrderText;
    Edges(" ORDER BY ");
    Edges(" " + OrderText(order));
    LexOrderBy();
    LexDirection(order);
    LexConcat(a, b);
    LexConcat(a + b, c);
  }

  lemma OrderIs(ts: seq<Token>, names: seq<string>, order: OrderType, rest: seq<Token>)
    requires ReadNames(ts) == Some((names, [Word(if order == DESC then "DESC" else "ASC")] + rest))
    ensures ReadOrder([Word("ORDER"), Word("BY")] + ts) == Some((names, order, rest))
  {
    assert ([Word("ORDER"), Word("BY")] + ts)[2..] == ts;
    assert ([Word(if order == DESC then "DESC" else "ASC")] + rest)[1..] == rest;
    hide ReadNames;
  }

  /** The order is read with its direction. */
  lemma OrderRead(orderBy: seq<Column>, order: OrderType, rest: seq<Token>)
    requires WordNames(orderBy) && (rest == [] || rest[0] == Word("LIMIT"))
    ensures ReadOrder(Lex(OrderBy(orderBy, order)) + rest) ==
            Some((NamesOf(orderBy), if orderBy == [] then ASC else order, rest))
  {
    if orderBy == [] {
      assert Lex([]) + rest == rest;
    } else {
      hide *;
      var start, names := [Word("ORDER"), Word("BY")], Lex(JoinElems(Names(orderBy), ", "));
      var way := [Word(if order == DESC then "DESC" else "ASC")];
      OrderTokens(orderBy, order);
      NamesRead(orderBy, way + rest);
      OrderIs(names + (way + rest), NamesOf(orderBy), order, rest);
      Regroup(start + names, way, rest);
      Regroup(start, names, way + rest);
    }
  }

  lemma LimitTokens(n: nat)
    ensures Lex(Chars(" LIMIT " + Digits(n))) == [Word("LIMIT"), Word(Digits(n))]
  {
    assert IsWord("LIMIT");
    assert " LIMIT " == " " + "LIMIT" + " ";
    hide *;
    LexSpaced("LIMIT");
    DigitsAreWord(n);
    LexWord(Digits(n));
    LexTexts(" LIMIT ", Digits(n));
  }

  lemma DigitsAreWord(n: nat)
    ensures IsWord(Digits(n))
  {
    assert forall i :: 0 <= i < |Digits(n)| ==> IsDigit(Digits(n)[i]);
  }

  lemma LimitRead(limit: int)
    ensures ReadLimit(Lex(Chars(Limit(limit)))) == Some(if limit > 0 then Some(limit) else None)
    ensures Lex(Chars(Limit(limit))) == [] || Lex(Chars(Limit(limit)))[0] == Word("LIMIT")
    ensures StartsApart(Chars(Limit(limit)))
  {
    if limit > 0 {
      hide Lex;
      LimitTokens(limit);
    }
  }

  lemma LexSix(a: seq<Elem>, b: seq<Elem>, c: seq<Elem>, d: seq<Elem>, e: seq<Elem>, f: seq<Elem>)
    requires EndsApart(a) && StartsApart(c) && c != [] && EndsApart(c) && StartsApart(e) && StartsApart(f)
    ensures Lex(a + b + c + d + e + f) == Lex(a) + Lex(b) + Lex(c) + Lex(d) + Lex(e) + Lex(f)
  {
    hide Lex;
    LexConcat(a, b);
    LexConcat(a + b, c);
    LexConcat(a + b + c, d);
    LexConcat(a + b + c + d, e);
    LexConcat(a + b + c + d + e, f);
  }

  lemma TwoWords(a: string, b: string)
    requires IsWord(a) && IsWord(b)
    ensures Lex(Chars(a + " " + b)) == [Word(a), Word(b)]
  {
    hide Lex;
    LexWord(a);
    LexSpaced(b);
    assert a + " " + b == a + (" " + b);
    LexTexts(a, " " + b);
  }

  lemma FromTokens(table: string)
    requires IsWord(table)
    ensures Lex(Chars("SELECT ")) == [Word("SELECT")] && EndsApart(Chars("SELECT "))
    ensures var c := Chars(" FROM " + table + " ");
            Lex(c) == [Word("FROM"), Word(table)] && c != [] && StartsApart(c) && EndsApart(c)
  {
    hide Lex;
    assert IsWord("SELECT") && IsWord("FROM");
    LexSpaced("SELECT");
    assert "SELECT" + " " == "SELECT ";
    LexSpaced("FROM");
    LexSpaced(table);
    assert " FROM " + table + " " == (" " + "FROM") + (" " + table + " ");
    LexTexts(" " + "FROM", " " + table + " ");
  }

  lemma OrderStarts(orderBy: seq<Column>, order: OrderType)
    ensures StartsApart(OrderBy(orderBy, order))
  {
    if orderBy != [] {
      assert OrderBy(orderBy, order)[0] == Chars(" ORDER BY ")[0];
    }
  }

  lemma SelectTokens(table: string, fields: seq<Column>, criteria: seq<Column>, op: LogicalOperator,
                     orderBy: seq<Column>, order: OrderType, limit: int)
    requires IsWord(table)
    ensures Lex(SelectStatement(table, fields, criteria, op, orderBy, order, limit)) ==
            [Word("SELECT")] + Lex(FieldList(fields)) + [Word("FROM"), Word(table)] + Lex(Where("WHERE ", criteria, op)) +
            Lex(OrderBy(orderBy, order)) + Lex(Chars(Limit(limit)))
  {
    var a, b, c := Chars("SELECT "), FieldList(fields), Chars(" FROM " + table + " ");
    var d, e, f := Where("WHERE ", criteria, op), OrderBy(orderBy, order), Chars(Limit(limit));
    hide Lex, Where, OrderBy, Limit, JoinElems, StartsApart, EndsApart, IsWord;
    assert SelectStatement(table, fields, criteria, op, orderBy, order, limit) == a + b + c + d + e + f;
    hide *;
    FromTokens(table);
    OrderStarts(orderBy, order);
    LimitRead(limit);
    LexSix(a, b, c, d, e, f);
  }

  /** What a SELECT was made from. */
  function SelectOf(table: string, fields: seq<Column>, criteria: seq<Column>, op: LogicalOperator,
                    orderBy: seq<Column>, order: OrderType, limit: int): Statement {
    SelectFrom(if fields == [] then ["*"] else NamesOf(fields), table, ConditionOf(criteria, op), NamesOf(orderBy),
               if orderBy == [] then ASC else order, if limit > 0 then Some(limit) else None)
  }

  lemma IsWhere()
    ensures Lex(Chars("WHERE ")) == [Word("WHERE")] && EndsApart(Chars("WHERE "))
    ensures Lex(Chars(" WHERE ")) == [Word("WHERE")] && EndsApart(Chars(" WHERE ")) && StartsApart(Chars(" WHERE "))
  {
    hide Lex;
    assert IsWord("WHERE");
    LexSpaced("WHERE");
    assert "WHERE" + " " == "WHERE " && " " + "WHERE" + " " == " WHERE ";
  }

  lemma OrderFirst(orderBy: seq<Column>, order: OrderType)
    ensures Lex(OrderBy(orderBy, order)) == [] || Lex(OrderBy(orderBy, order))[0] == Word("ORDER")
  {
    if orderBy != [] {
      hide Lex;
      OrderTokens(orderBy, order);
    }
  }

  lemma SelectRead(table: string, fields: seq<Column>, criteria: seq<Column>, op: LogicalOperator,
                   orderBy: seq<Column>, order: OrderType, limit: int)
    requires IsWord(table) && WordNames(fields) && WordNames(criteria) && WordValues(criteria) && WordNames(orderBy)
    ensures ReadSelect(Lex(FieldList(fields)) + [Word("FROM"), Word(table)] + Lex(Where("WHERE ", criteria, op)) +
                       Lex(OrderBy(orderBy, order)) + Lex(Chars(Limit(limit)))) ==
            Some(SelectOf(table, fields, criteria, op, orderBy, order, limit))
  {
    IsWhere();
    hide *;
    var b, d, e, f := Lex(FieldList(fields)), Lex(Where("WHERE ", criteria, op)), Lex(OrderBy(orderBy, order)), Lex(Chars(Limit(limit)));
    var from := [Word("FROM"), Word(table)];
    FieldsRead(fields, from + (d + (e + f)));
    LimitRead(limit);
    OrderFirst(orderBy, order);
    WhereRead("WHERE ", criteria, op, e + f);
    OrderRead(orderBy, order, f);
    SelectIs(b + (from + (d + (e + f))), table, d + (e + f), fields, criteria, op, orderBy, order, limit);
    Regroup(b + from + d, e, f);
    Regroup(b + from, d, e + f);
    Regroup(b, from, d + (e + f));
  }

  lemma SelectIs(ts: seq<Token>, table: string, after: seq<Token>, fields: seq<Column>, criteria: seq<Column>,
                 op: LogicalOperator, orderBy: seq<Column>, order: OrderType, limit: int)
    requires ReadNames(ts) == Some((if fields == [] then ["*"] else NamesOf(fields), [Word("FROM"), Word(table)] + after))
    requires var e, f := Lex(OrderBy(orderBy, order)), Lex(Chars(Limit(limit)));
             && ReadWhere(after) == Some((ConditionOf(criteria, op), e + f))
             && ReadOrder(e + f) == Some((NamesOf(orderBy), if orderBy == [] then ASC else order, f))
             && ReadLimit(f) == Some(if limit > 0 then Some(limit) else None)
    ensures ReadSelect(ts) == Some(SelectOf(table, fields, criteria, op, orderBy, order, limit))
  {
    assert ([Word("FROM"), Word(table)] + after)[2..] == after;
    hide Lex, ReadNames, ReadWhere, ReadOrder, ReadLimit, ConditionOf, OrderBy, Limit;
  }

  /** Words have no quotes, so a statement made of them is read back. */
  lemma WordsArePlain(cols: seq<Column>)
    ensures WordNames(cols) ==> PlainNames(cols)
    ensures WordValues(cols) ==> PlainNumbers(cols)
  {
  }

  /** The first word decides how the rest is read. */
  lemma AsksOf(es: seq<Elem>, first: string, rest: seq<Token>)
    requires Read(WriteAll(es)) == Some(es) && Lex(es) == [Word(first)] + rest
    ensures Asks(WriteAll(es)) ==
            if first == "SELECT" then ReadSelect(rest) else if first == "DELETE" then ReadDelete(rest)
            else if first == "UPDATE" then ReadUpdate(rest) else if first == "INSERT" then ReadInsert(rest) else None
  {
    hide Read, WriteAll, Lex, ReadSelect, ReadDelete, ReadUpdate, ReadInsert;
    assert ([Word(first)] + rest)[1..] == rest;
  }

  lemma WordIsPlain(s: string)
    requires IsWord(s)
    ensures Plain(s)
  {
  }

  /** A SELECT asks for exactly what it was made from, whatever the TEXT values hold: its fields, its table, its
      conditions with the operator between them, its order with the direction, and its limit if positive. */
  lemma SelectAsks(table: string, fields: seq<Column>, criteria: seq<Column>, op: LogicalOperator,
                   orderBy: seq<Column>, order: OrderType, limit: int)
    requires IsWord(table) && WordNames(fields) && WordNames(criteria) && WordValues(criteria) && WordNames(orderBy)
    ensures Asks(WriteAll(SelectStatement(table, fields, criteria, op, orderBy, order, limit))) ==
            Some(SelectOf(table, fields, criteria, op, orderBy, order, limit))
  {
    hide *;
    var st := SelectStatement(table, fields, criteria, op, orderBy, order, limit);
    WordIsPlain(table);
    WordsArePlain(fields);
    WordsArePlain(criteria);
    WordsArePlain(orderBy);
    SelectReadBack(table, fields, criteria, op, orderBy, order, limit);
    SelectTokens(table, fields, criteria, op, orderBy, order, limit);
    SelectRead(table, fields, criteria, op, orderBy, order, limit);
    var b, c, d, e, f := Lex(FieldList(fields)), [Word("FROM"), Word(table)], Lex(Where("WHERE ", criteria, op)),
                         Lex(OrderBy(orderBy, order)), Lex(Chars(Limit(limit)));
    assert [Word("SELECT")] + b + c + d + e + f == [Word("SELECT")] + (b + c + d + e + f);
    AsksOf(st, "SELECT", b + c + d + e + f);
  }

  lemma WhereStarts(criteria: seq<Column>, op: LogicalOperator)
    ensures StartsApart(Where(" WHERE ", criteria, op))
  {
    if criteria != [] {
      assert Where(" WHERE ", criteria, op)[0] == Chars(" WHERE ")[0];
    }
  }

  lemma DeleteIs(table: string, ts: seq<Token>, where: Condition)
    requires ReadWhere(ts) == Some((where, []))
    ensures ReadDelete([Word("FROM"), Word(table)] + ts) == Some(DeleteFrom(table, where))
  {
    hide ReadWhere;
    assert ([Word("FROM"), Word(table)] + ts)[2..] == ts;
  }

  lemma RemoveParts(table: string, criteria: seq<Column>, op: LogicalOperator)
    ensures RemoveStatement(table, criteria, op) == Chars("DELETE FROM " + table) + Where(" WHERE ", criteria, op)
  {
  }

  lemma UpdateParts(table: string, fields: seq<Column>, criteria: seq<Column>, op: LogicalOperator)
    ensures UpdateStatement(table, fields, criteria, op) ==
            Chars("UPDATE " + table + " SET ") + JoinElems(Assignments(fields), ", ") + Where(" WHERE ", criteria, op)
  {
  }

  /** A DELETE removes what its conditions say. */
  lemma RemoveAsks(table: string, criteria: seq<Column>, op: LogicalOperator)
    requires IsWord(table) && WordNames(criteria) && WordValues(criteria)
    ensures Asks(WriteAll(RemoveStatement(table, criteria, op))) == Some(DeleteFrom(table, ConditionOf(criteria, op)))
  {
    hide *;
    var st, w := RemoveStatement(table, criteria, op), Where(" WHERE ", criteria, op);
    RemoveParts(table, criteria, op);
    WordIsPlain(table);
    WordsArePlain(criteria);
    RemoveReadBack(table, criteria, op);
    DeleteTokens(table);
    IsWhere();
    WhereStarts(criteria, op);
    LexConcat(Chars("DELETE FROM " + table), w);
    WhereRead(" WHERE ", criteria, op, []);
    assert Lex(w) + [] == Lex(w);
    DeleteIs(table, Lex(w), ConditionOf(criteria, op));
    assert [Word("DELETE"), Word("FROM"), Word(table)] + Lex(w) == [Word("DELETE")] + ([Word("FROM"), Word(table)] + Lex(w));
    AsksOf(st, "DELETE", [Word("FROM"), Word(table)] + Lex(w));
  }

  lemma DeleteTokens(table: string)
    requires IsWord(table)
    ensures Lex(Chars("DELETE FROM " + table)) == [Word("DELETE"), Word("FROM"), Word(table)]
  {
    hide Lex;
    assert IsWord("DELETE") && IsWord("FROM");
    LexSpaced("DELETE");
    TwoWords("FROM", table);
    assert "DELETE FROM " + table == ("DELETE" + " ") + ("FROM" + " " + table);
    LexTexts("DELETE" + " ", "FROM" + " " + table);
  }

  lemma UpdateTokens(table: string)
    requires IsWord(table)
    ensures Lex(Chars("UPDATE " + table + " SET ")) == [Word("UPDATE"), Word(table), Word("SET")]
    ensures EndsApart(Chars("UPDATE " + table + " SET "))
  {
    hide Lex;
    assert IsWord("UPDATE") && IsWord("SET");
    LexSpaced("SET");
    TwoWords("UPDATE", table);
    assert "UPDATE " + table + " SET " == ("UPDATE" + " " + table) + (" " + "SET" + " ");
    LexTexts("UPDATE" + " " + table, " " + "SET" + " ");
    Edges("UPDATE " + table + " SET ");
  }

  lemma UpdateIs(table: string, ts: seq<Token>, fields: seq<Test>, rest: seq<Token>, where: Condition)
    requires ReadTests(ts, Sym(',')) == Some((fields, rest)) && ReadWhere(rest) == Some((where, []))
    ensures ReadUpdate([Word(table), Word("SET")] + ts) == Some(UpdateSet(table, fields, where))
  {
    hide ReadTests, ReadWhere;
    assert ([Word(table), Word("SET")] + ts)[2..] == ts;
  }

  /** An UPDATE sets its fields where its conditions hold. */
  lemma UpdateAsks(table: string, fields: seq<Column>, criteria: seq<Column>, op: LogicalOperator)
    requires IsWord(table) && fields != [] && WordNames(fields) && WordValues(fields) && WordNames(criteria) && WordValues(criteria)
    ensures Asks(WriteAll(UpdateStatement(table, fields, criteria, op))) ==
            Some(UpdateSet(table, TestsOf(fields), ConditionOf(criteria, op)))
  {
    hide *;
    var st, a, b, w := UpdateStatement(table, fields, criteria, op), Chars("UPDATE " + table + " SET "),
                       JoinElems(Assignments(fields), ", "), Where(" WHERE ", criteria, op);
    UpdateParts(table, fields, criteria, op);
    WordIsPlain(table);
    WordsArePlain(fields);
    WordsArePlain(criteria);
    UpdateReadBack(table, fields, criteria, op);
    UpdateTokens(table);
    IsWhere();
    LexComma();
    WhereStarts(criteria, op);
    LexConcat(a + b, w);
    LexConcat(a, b);
    WhereFirst(criteria, op);
    TestsRead(fields, ", ", Sym(','), Lex(w));
    WhereRead(" WHERE ", criteria, op, []);
    assert Lex(w) + [] == Lex(w);
    UpdateIs(table, Lex(b) + Lex(w), TestsOf(fields), Lex(w), ConditionOf(criteria, op));
    var rest := [Word(table), Word("SET")] + (Lex(b) + Lex(w));
    assert [Word("UPDATE"), Word(table), Word("SET")] + Lex(b) + Lex(w) == [Word("UPDATE")] + rest;
    AsksOf(st, "UPDATE", rest);
  }

  lemma WhereFirst(criteria: seq<Column>, op: LogicalOperator)
    ensures Lex(Where(" WHERE ", criteria, op)) == [] || Lex(Where(" WHERE ", criteria, op))[0] == Word("WHERE")
  {
    if criteria != [] {
      hide Lex, EndsApart;
      IsWhere();
      LexConcat(Chars(" WHERE "), JoinElems(Assignments(criteria), " " + OperatorText(op) + " "));
    }
  }

  lemma InsertTokens(table: string, cols: seq<Column>)
    requires IsWord(table)
    ensures Lex(InsertStatement(table, cols)) ==
            [Word("INSERT"), Word("INTO"), Word(table), Sym('(')] + Lex(JoinElems(Names(cols), ", ")) +
            [Sym(')'), Word("VALUES"), Sym('(')] + Lex(JoinElems(Values(cols), ", ")) + [Sym(')')]
  {
    var a, b, c, d, e := Chars("INSERT INTO " + table + " ("), JoinElems(Names(cols), ", "), Chars(") VALUES ("),
                         JoinElems(Values(cols), ", "), Chars(")");
    assert InsertStatement(table, cols) == a + b + c + d + e;
    OpenTokens(table);
    ValuesTokens();
    hide *;
    LexConcat(a, b);
    LexConcat(a + b, c);
    LexConcat(a + b + c, d);
    LexConcat(a + b + c + d, e);
  }

  lemma OpenTokens(table: string)
    requires IsWord(table)
    ensures Lex(Chars("INSERT INTO " + table + " (")) == [Word("INSERT"), Word("INTO"), Word(table), Sym('(')]
    ensures EndsApart(Chars("INSERT INTO " + table + " ("))
  {
    hide Lex;
    assert IsWord("INSERT") && IsWord("INTO");
    LexSpaced("INSERT");
    TwoWords("INTO", table);
    var names := ("INSERT" + " ") + ("INTO" + " " + table);
    LexTexts("INSERT" + " ", "INTO" + " " + table);
    assert "INSERT INTO " + table + " (" == (names + " ") + "(";
    LexTexts(names, " ");
    LexTexts(names + " ", "(");
    LexSymbol('(');
    LexSpace();
    Edges("INSERT INTO " + table + " (");
  }

  lemma LexSpace()
    ensures Lex(Chars(" ")) == []
  {
    assert Chars(" ")[1..] == [];
  }

  lemma ValuesTokens()
    ensures Lex(Chars(") VALUES (")) == [Sym(')'), Word("VALUES"), Sym('(')] && Lex(Chars(")")) == [Sym(')')]
    ensures StartsApart(Chars(") VALUES (")) && EndsApart(Chars(") VALUES (")) && StartsApart(Chars(")"))
  {
    hide Lex;
    assert IsWord("VALUES");
    LexSpaced("VALUES");
    LexSymbol(')');
    LexSymbol('(');
    assert ") VALUES (" == (")" + (" " + "VALUES" + " ")) + "(";
    LexTexts(")", " " + "VALUES" + " ");
    LexTexts(")" + (" " + "VALUES" + " "), "(");
    Edges(") VALUES (");
    Edges(")");
  }

  lemma InsertIs(table: string, n: seq<Token>, v: seq<Token>, names: seq<string>, values: seq<Operand>)
    requires ReadNames(n + ([Sym(')'), Word("VALUES"), Sym('(')] + v)) == Some((names, [Sym(')'), Word("VALUES"), Sym('(')] + v))
    requires ReadValues(v) == Some((values, [Sym(')')]))
    ensures ReadInsert([Word("INTO"), Word(table), Sym('(')] + (n + ([Sym(')'), Word("VALUES"), Sym('(')] + v))) ==
            Some(InsertInto(table, names, values))
  {
    hide ReadNames, ReadValues;
    var rest := [Sym(')'), Word("VALUES"), Sym('(')] + v;
    assert ([Word("INTO"), Word(table), Sym('(')] + (n + rest))[3..] == n + rest;
    assert rest[..3] == [Sym(')'), Word("VALUES"), Sym('(')] && rest[3..] == v;
  }

  /** An INSERT puts each value under its own name. */
  lemma InsertAsks(table: string, cols: seq<Column>)
    requires IsWord(table) && cols != [] && WordNames(cols) && WordValues(cols)
    ensures Asks(WriteAll(InsertStatement(table, cols))) == Some(InsertInto(table, NamesOf(cols), OperandsOf(cols)))
  {
    hide *;
    var st := InsertStatement(table, cols);
    WordIsPlain(table);
    WordsArePlain(cols);
    InsertReadBack(table, cols);
    InsertTokens(table, cols);
    var n, v := Lex(JoinElems(Names(cols), ", ")), Lex(JoinElems(Values(cols), ", ")) + [Sym(')')];
    var rest := [Sym(')'), Word("VALUES"), Sym('(')] + v;
    NamesRead(cols, rest);
    ValuesRead(cols, [Sym(')')]);
    InsertIs(table, n, v, NamesOf(cols), OperandsOf(cols));
    assert Lex(st) == [Word("INSERT")] + ([Word("INTO"), Word(table), Sym('(')] + (n + rest));
    AsksOf(st, "INSERT", [Word("INTO"), Word(table), Sym('(')] + (n + rest));
  }
}
