/** Splitting of a command line into arguments, with double quotes and backslashes. */
module Tokenizer {
  import opened Results

  /** A command line read once: a character of an argument, or a gap between arguments. */
  datatype Mark = Gap | Char(c: char)

  /** What quotes and backslashes make of a command line. A quoted space is a character; a backslash
      before a quote or a backslash disappears, and before anything else only inside quotes. */
  function Marks(command: string, quoting: bool): seq<Mark> {
    if command == "" then []
    else if command[0] == ' ' then [if quoting then Char(' ') else Gap] + Marks(command[1..], quoting)
    else if command[0] == '"' then Marks(command[1..], !quoting)
    else if command[0] != '\\' then [Char(command[0])] + Marks(command[1..], quoting)
    else if |command| == 1 then [Char('\\')]
    else Escaped(command[1], quoting) + Marks(command[2..], quoting)
  }

  function Escaped(c: char, quoting: bool): seq<Mark> {
    (if !quoting && c != '\\' && c != '"' then [Char('\\')] else []) + [Char(c)]
  }

  /** The texts before, between and after the gaps. */
  function Split(marks: seq<Mark>): (r: seq<string>)
    ensures r != []
  {
    if marks == [] then [""]
    else if marks[0].Gap? then [""] + Split(marks[1..])
    else Glue([marks[0].c], Split(marks[1..]))
  }

  function Glue(accum: string, fields: seq<string>): seq<string>
    requires fields != []
  {
    [accum + fields[0]] + fields[1..]
  }

  function NonEmpty(fields: seq<string>): (r: seq<string>)
    ensures forall i :: 0 <= i < |r| ==> r[i] != "" && r[i] in fields
  {
    if fields == [] then [] else (if fields[0] == "" then [] else [fields[0]]) + NonEmpty(fields[1..])
  }

  /** The arguments of a command line: the texts around its gaps that are not empty. */
  function Tokens(command: string): seq<string> {
    NonEmpty(Split(Marks(command, false)))
  }

  function Tokenized(command: string): Result<seq<string>, string> {
    if Tokens(command) == [] then Err("Empty command string") else Ok(Tokens(command))
  }

  // ----- the scan -----

  lemma GlueTwice(a: string, b: string, fields: seq<string>)
    requires fields != []
    ensures Glue(a, Glue(b, fields)) == Glue(a + b, fields)
  {
    assert a + (b + fields[0]) == (a + b) + fields[0];
  }

  /** What is still to come: the argument being read continues, then the rest follows. */
  function Ahead(accum: string, command: string, quoting: bool): seq<string> {
    NonEmpty(Glue(accum, Split(Marks(command, quoting))))
  }

  lemma AheadChar(accum: string, c: char, marks: seq<Mark>)
    ensures Glue(accum, Split([Char(c)] + marks)) == Glue(accum + [c], Split(marks))
  {
    var all := [Char(c)] + marks;
    assert all[1..] == marks;
    GlueTwice(accum, [c], Split(marks));
  }

  lemma AheadGap(accum: string, marks: seq<Mark>)
    ensures NonEmpty(Glue(accum, Split([Gap] + marks))) == (if accum == "" then [] else [accum]) + NonEmpty(Glue("", Split(marks)))
  {
    var all := [Gap] + marks;
    assert all[1..] == marks;
    GlueFirst(accum, Split(marks));
    Unglued(Split(marks));
    assert ([accum] + Split(marks))[1..] == Split(marks);
  }

  lemma AheadEscaped(accum: string, c: char, quoting: bool, marks: seq<Mark>)
    ensures Glue(accum, Split(Escaped(c, quoting) + marks)) ==
            Glue((if !quoting && c != '\\' && c != '"' then accum + "\\" else accum) + [c], Split(marks))
  {
    if !quoting && c != '\\' && c != '"' {
      assert Escaped(c, quoting) + marks == [Char('\\')] + ([Char(c)] + marks);
      AheadChar(accum, '\\', [Char(c)] + marks);
      AheadChar(accum + "\\", c, marks);
    } else {
      assert Escaped(c, quoting) + marks == [Char(c)] + marks;
      AheadChar(accum, c, marks);
    }
  }

  lemma AheadNone(accum: string)
    ensures NonEmpty(Glue(accum, Split([]))) == if accum == "" then [] else [accum]
  {
    GlueFirst(accum, []);
    assert [""] + [] == [""];
    assert [accum][1..] == [];
  }

  /** The index moves forward in every round, past the end of a trailing backslash too. */
  method TokenizeCommand(command: string) returns (r: Result<seq<string>, string>)
    ensures r == Tokenized(command)
    ensures r.Ok? ==> r.value != [] && "" !in r.value
  {
    hide Marks, Split, NonEmpty, Glue, Escaped;
    var result: seq<string> := [];
    var accum := "";
    var quoting := false;
    var i := 0;
    assert command[0..] == command;
    Unglued(Split(Marks(command, false)));
    while i < |command|
      invariant 0 <= i <= |command|
      invariant Tokens(command) == result + Ahead(accum, command[i..], quoting)
    {
      MarksAt(command, i, quoting);
      var c := command[i];
      if c == ' ' {
        if quoting {
          AheadChar(accum, c, Marks(command[i + 1..], quoting));
          accum := accum + [c];
        } else {
          AheadGap(accum, Marks(command[i + 1..], quoting));
          ghost var rest := Ahead("", command[i + 1..], quoting);
          assert accum == "" ==> [] + rest == rest;
          if accum != "" {
            assert result + ([accum] + rest) == result + [accum] + rest;
            result := result + [accum];
            accum := "";
          }
        }
        i := i + 1;
      } else if c == '"' {
        i := i + 1;
        quoting := !quoting;
      } else if c == '\\' {
        i := i + 1;
        if i < |command| {
          AheadEscaped(accum, command[i], quoting, Marks(command[i + 1..], quoting));
          if !quoting && command[i] != '\\' && command[i] != '"' {
            accum := accum + "\\";
          }
          accum := accum + [command[i]];
          i := i + 1;
        } else {
          MarksNone(quoting);
          assert command[i..] == "";
          AheadChar(accum, '\\', []);
          accum := accum + "\\";
        }
      } else {
        AheadChar(accum, c, Marks(command[i + 1..], quoting));
        accum := accum + [c];
        i := i + 1;
      }
    }
    MarksNone(quoting);
    AheadNone(accum);
    assert command[i..] == "";
    assert Tokens(command) == if accum == "" then result else result + [accum];
    if accum != "" {
      result := result + [accum];
    }
    r := if result == [] then Err("Empty command string") else Ok(result);
  }

  lemma Unglued(fields: seq<string>)
    requires fields != []
    ensures Glue("", fields) == fields
  {
    assert "" + fields[0] == fields[0];
  }

  lemma GlueFirst(accum: string, rest: seq<string>)
    ensures Glue(accum, [""] + rest) == [accum] + rest
  {
    assert ([""] + rest)[1..] == rest;
    assert accum + "" == accum;
  }

  lemma MarksNone(quoting: bool)
    ensures Marks("", quoting) == []
  {
  }

  /** The marks from an index on, by the character there. */
  lemma MarksAt(command: string, i: nat, quoting: bool)
    requires i < |command|
    ensures var c, rest := command[i], command[i + 1..];
            Marks(command[i..], quoting) ==
            if c == ' ' then [if quoting then Char(' ') else Gap] + Marks(rest, quoting)
            else if c == '"' then Marks(rest, !quoting)
            else if c != '\\' then [Char(c)] + Marks(rest, quoting)
            else if rest == "" then [Char('\\')] + []
            else Escaped(rest[0], quoting) + Marks(command[i + 2..], quoting)
  {
    hide Escaped;
    assert command[i..][1..] == command[i + 1..];
    if i + 2 <= |command| {
      assert command[i..][2..] == command[i + 2..];
    }
  }

  // ----- laws -----

  /** Quoting of an argument: what a quote or a backslash needs inside quotes. */
  function Escape(token: string): string {
    if token == "" then ""
    else (if token[0] == '"' || token[0] == '\\' then ['\\'] else []) + [token[0]] + Escape(token[1..])
  }

  function Quote(token: string): string {
    "\"" + Escape(token) + "\""
  }

  /** A command line that quotes every argument. */
  function Render(tokens: seq<string>): string {
    if tokens == [] then ""
    else if |tokens| == 1 then Quote(tokens[0])
    else Quote(tokens[0]) + " " + Render(tokens[1..])
  }

  lemma EscapeHead(token: string, rest: string)
    requires token != ""
    ensures var c, more := token[0], Escape(token[1..]) + rest;
            Escape(token) + rest == if c == '"' || c == '\\' then ['\\', c] + more else [c] + more
  {
  }

  lemma EscapeFirst(token: string, rest: string)
    requires token != ""
    ensures Marks(Escape(token) + rest, true) == [Char(token[0])] + Marks(Escape(token[1..]) + rest, true)
  {
    hide Marks, Escape;
    var c, more := token[0], Escape(token[1..]) + rest;
    EscapeHead(token, rest);
    if c == '"' || c == '\\' {
      MarksOfEscaped(c, more);
    } else {
      MarksOfPlain(c, more);
    }
  }

  lemma MarksOfEscaped(c: char, more: string)
    ensures Marks(['\\', c] + more, true) == [Char(c)] + Marks(more, true)
  {
    assert (['\\', c] + more)[2..] == more;
  }

  lemma MarksOfPlain(c: char, more: string)
    requires c != '"' && c != '\\'
    ensures Marks([c] + more, true) == [Char(c)] + Marks(more, true)
  {
    assert ([c] + more)[1..] == more;
  }

  lemma {:induction false} EscapeMarks(token: string, rest: string)
    ensures Split(Marks(Escape(token) + rest, true)) == Glue(token, Split(Marks(rest, true)))
  {
    if token == "" {
      assert Escape(token) + rest == rest;
      Unglued(Split(Marks(rest, true)));
    } else {
      EscapeFirst(token, rest);
      EscapeMarks(token[1..], rest);
      hide Marks, Split, Glue, Escape;
      var marks := Marks(Escape(token[1..]) + rest, true);
      AheadChar("", token[0], marks);
      Unglued(Split([Char(token[0])] + marks));
      assert "" + [token[0]] == [token[0]];
      GlueTwice([token[0]], token[1..], Split(Marks(rest, true)));
      assert token == [token[0]] + token[1..];
    }
  }

  /** A quoted argument is read as the argument. */
  lemma QuoteMarks(token: string, rest: string)
    ensures Split(Marks(Quote(token) + rest, false)) == Glue(token, Split(Marks(rest, false)))
  {
    hide Split, Glue, Escape;
    var tail := "\"" + rest;
    assert tail[1..] == rest;
    var body := Escape(token) + tail;
    assert Quote(token) + rest == "\"" + body;
    assert ("\"" + body)[1..] == body;
    EscapeMarks(token, tail);
  }

  lemma {:induction false} RenderTokens(tokens: seq<string>)
    requires tokens != []
    ensures Split(Marks(Render(tokens), false)) == tokens
  {
    if |tokens| == 1 {
      QuoteMarks(tokens[0], "");
      assert Quote(tokens[0]) + "" == Quote(tokens[0]);
      GlueFirst(tokens[0], []);
      assert [""] + [] == [""];
    } else {
      RenderTokens(tokens[1..]);
      GapFirst(Render(tokens[1..]));
      hide Marks, Split, Glue, Quote;
      QuoteMarks(tokens[0], " " + Render(tokens[1..]));
      assert Render(tokens) == Quote(tokens[0]) + (" " + Render(tokens[1..]));
      GlueFirst(tokens[0], tokens[1..]);
    }
  }

  lemma GapFirst(rest: string)
    ensures Split(Marks(" " + rest, false)) == [""] + Split(Marks(rest, false))
  {
    assert (" " + rest)[1..] == rest;
    var marks := Marks(rest, false);
    assert ([Gap] + marks)[1..] == marks;
  }

  lemma {:induction false} NonEmptyAll(fields: seq<string>)
    ensures NonEmpty(fields) == fields <==> "" !in fields
    ensures |NonEmpty(fields)| <= |fields|
  {
    if fields != [] {
      NonEmptyAll(fields[1..]);
      assert fields == [fields[0]] + fields[1..];
      if fields[0] != "" && NonEmpty(fields) == fields {
        assert NonEmpty(fields)[1..] == NonEmpty(fields[1..]);
      }
    }
  }

  /** Tokenizing a rendered list gives back its non-empty arguments. It gives back the list itself
      exactly when the list has an argument and no argument is empty. */
  lemma RoundTrip(tokens: seq<string>)
    ensures Tokens(Render(tokens)) == NonEmpty(tokens)
    ensures Tokenized(Render(tokens)) == Ok(tokens) <==> tokens != [] && "" !in tokens
  {
    if tokens != [] {
      RenderTokens(tokens);
    } else {
      assert Split(Marks("", false)) == [""];
      assert [""][1..] == [];
    }
    NonEmptyAll(tokens);
  }

  // ----- text outside quotes -----

  /** No space, quote or backslash. */
  predicate Bare(s: string) {
    ' ' !in s && '"' !in s && '\\' !in s
  }

  lemma {:induction false} BareMarks(s: string, rest: string, quoting: bool)
    requires Bare(s) || (quoting && '"' !in s && '\\' !in s)
    ensures Split(Marks(s + rest, quoting)) == Glue(s, Split(Marks(rest, quoting)))
  {
    if s == "" {
      assert s + rest == rest;
      Unglued(Split(Marks(rest, quoting)));
    } else {
      var more := s[1..] + rest;
      assert s[0] in s && forall c <- s[1..] :: c in s;
      BareMarks(s[1..], rest, quoting);
      assert s + rest == [s[0]] + more;
      MarksAt([s[0]] + more, 0, quoting);
      assert ([s[0]] + more)[0..] == [s[0]] + more && ([s[0]] + more)[1..] == more;
      hide Marks, Split, Glue, Bare;
      AheadChar("", s[0], Marks(more, quoting));
      Unglued(Split([Char(s[0])] + Marks(more, quoting)));
      assert "" + [s[0]] == [s[0]];
      GlueTwice([s[0]], s[1..], Split(Marks(rest, quoting)));
      assert s == [s[0]] + s[1..];
    }
  }

  /** The end of a command line. */
  lemma BareEnd(s: string, quoting: bool)
    requires Bare(s)
    ensures Split(Marks(s, quoting)) == [s]
  {
    BareMarks(s, "", quoting);
    assert s + "" == s && Split(Marks("", quoting)) == [""];
    GlueFirst(s, []);
    assert [""] + [] == [""];
  }

  /** Words with a space between them. */
  function Spaced(words: seq<string>): string {
    if words == [] then ""
    else if |words| == 1 then words[0]
    else words[0] + " " + Spaced(words[1..])
  }

  lemma {:induction false} SpacedFields(words: seq<string>)
    requires words != [] && forall i :: 0 <= i < |words| ==> Bare(words[i])
    ensures Split(Marks(Spaced(words), false)) == words
  {
    if |words| == 1 {
      BareEnd(words[0], false);
    } else {
      SpacedFields(words[1..]);
      GapFirst(Spaced(words[1..]));
      hide Marks, Split, Glue, Bare;
      BareMarks(words[0], " " + Spaced(words[1..]), false);
      assert Spaced(words) == words[0] + (" " + Spaced(words[1..]));
      GlueFirst(words[0], words[1..]);
    }
  }

  /** Words without quotes and backslashes are split at the spaces. */
  lemma UnquotedWords(words: seq<string>)
    requires forall i :: 0 <= i < |words| ==> Bare(words[i]) && words[i] != ""
    ensures Tokens(Spaced(words)) == words
  {
    if words == [] {
      assert [""][1..] == [];
    } else {
      SpacedFields(words);
      NonEmptyAll(words);
    }
  }

  lemma OneField(s: string)
    ensures NonEmpty([s]) == if s == "" then [] else [s]
  {
    assert [s][1..] == [];
  }

  /** Quotes inside a word keep what they enclose, spaces too, and disappear. */
  lemma QuotedPart(a: string, q: string, b: string)
    requires Bare(a) && Bare(b) && '"' !in q && '\\' !in q && a + q + b != ""
    ensures Tokens(a + "\"" + q + "\"" + b) == [a + q + b]
  {
    var tail, inner := "\"" + b, q + ("\"" + b);
    assert tail[1..] == b && ("\"" + inner)[1..] == inner;
    BareEnd(b, false);
    BareMarks(q, tail, true);
    assert Marks(tail, true) == Marks(b, false) && Marks("\"" + inner, false) == Marks(inner, true);
    BareMarks(a, "\"" + inner, false);
    assert a + "\"" + q + "\"" + b == a + ("\"" + inner);
    GlueTwice(a, q, [b]);
    assert Glue(a + q, [b]) == [a + q + b];
    OneField(a + q + b);
    hide Marks, Split;
  }

  /** What a backslash and the character after it come to outside quotes. */
  function Unescaped(c: char): string {
    if c == '"' || c == '\\' then [c] else ['\\', c]
  }

  lemma EscapedEnd(c: char, b: string)
    requires Bare(b)
    ensures Split(Marks(['\\', c] + b, false)) == [Unescaped(c) + b]
  {
    var tail := ['\\', c] + b;
    BareEnd(b, false);
    MarksAt(tail, 0, false);
    assert tail[0..] == tail && tail[1..][0] == c && tail[2..] == b;
    hide Marks, Split, Bare, Escaped;
    AheadEscaped("", c, false, Marks(b, false));
    Unglued(Split(Marks(tail, false)));
    assert (if c != '\\' && c != '"' then "" + "\\" else "") + [c] == Unescaped(c);
    assert Glue(Unescaped(c), [b]) == [Unescaped(c) + b];
  }

  /** Outside quotes a backslash goes before a quote or a backslash, and stays before anything else. */
  lemma BackslashOutside(a: string, c: char, b: string)
    requires Bare(a) && Bare(b)
    ensures Tokens(a + ['\\', c] + b) == [a + (if c == '"' || c == '\\' then [c] else ['\\', c]) + b]
  {
    assert a + ['\\', c] + b == a + (['\\', c] + b);
    assert a + Unescaped(c) + b == a + (Unescaped(c) + b) != "";
    hide Marks, Split, Bare;
    EscapedEnd(c, b);
    BareMarks(a, ['\\', c] + b, false);
    assert Glue(a, [Unescaped(c) + b]) == [a + (Unescaped(c) + b)];
    OneField(a + (Unescaped(c) + b));
  }

  /** A backslash at the end stays. */
  lemma BackslashLast(a: string)
    requires Bare(a)
    ensures Tokens(a + "\\") == [a + "\\"]
  {
    assert Marks("\\", false) == [Char('\\')] + [];
    AheadChar(a, '\\', []);
    BareMarks(a, "\\", false);
    hide Marks;
    GlueFirst(a + ['\\'], []);
    assert Split([]) == [""] + [];
    OneField(a + "\\");
  }

  lemma QuoteEnd(b: string)
    requires Bare(b)
    ensures Split(Marks(b + "\"", true)) == [b]
  {
    assert "\""[1..] == "" && Marks("\"", true) == Marks("", false);
    assert Split(Marks("", false)) == [""] + [];
    hide Marks, Split;
    BareMarks(b, "\"", true);
    GlueFirst(b, []);
    assert [b] + [] == [b];
  }

  lemma EscapedInside(c: char, b: string)
    requires Bare(b)
    ensures Split(Marks("\\" + [c] + (b + "\""), true)) == [[c] + b]
  {
    var tail := "\\" + [c] + (b + "\"");
    MarksAt(tail, 0, true);
    assert tail[0..] == tail && tail[1..][0] == c && tail[2..] == b + "\"";
    hide Marks, Split, Bare, Escaped;
    QuoteEnd(b);
    AheadEscaped("", c, true, Marks(b + "\"", true));
    Unglued(Split(Marks(tail, true)));
    assert "" + [c] == [c];
    assert Glue([c], [b]) == [[c] + b];
  }

  lemma FromQuote(inner: string)
    ensures Marks("\"" + inner, false) == Marks(inner, true)
  {
    assert ("\"" + inner)[1..] == inner;
  }

  /** Inside quotes a backslash goes, whatever it is before. */
  lemma BackslashInside(a: string, c: char, b: string)
    requires Bare(a) && Bare(b)
    ensures Tokens("\"" + a + "\\" + [c] + b + "\"") == [a + [c] + b]
  {
    var tail := "\\" + [c] + (b + "\"");
    hide Marks, Split, Bare;
    FromQuote(a + tail);
    EscapedInside(c, b);
    BareMarks(a, tail, true);
    assert "\"" + a + "\\" + [c] + b + "\"" == "\"" + (a + tail);
    assert Glue(a, [[c] + b]) == [a + ([c] + b)];
    assert a + ([c] + b) == a + [c] + b;
    OneField(a + [c] + b);
  }

  lemma {:induction false} AllGaps(marks: seq<Mark>)
    ensures NonEmpty(Split(marks)) == [] <==> forall i :: 0 <= i < |marks| ==> marks[i].Gap?
  {
    if marks == [] {
      assert Split(marks)[1..] == [];
    } else {
      AllGaps(marks[1..]);
      assert marks == [marks[0]] + marks[1..];
    }
  }

  /** How many quotes a text has. */
  function Quotes(s: string): nat {
    if s == "" then 0 else (if s[0] == '"' then 1 else 0) + Quotes(s[1..])
  }

  /** The character is a quote, or a space with as many quotes before it as leave it unquoted. */
  predicate Blank(command: string, quoting: bool, i: nat)
    requires i < |command|
  {
    command[i] == '"' || (command[i] == ' ' && (Quotes(command[..i]) % 2 == 1) == quoting)
  }

  lemma BlankNext(command: string, quoting: bool, i: nat)
    requires 0 < i < |command|
    ensures Blank(command, quoting, i) <==> Blank(command[1..], quoting != (command[0] == '"'), i - 1)
  {
    assert command[..i][1..] == command[1..][..i - 1];
  }

  ghost predicate AllBlank(command: string, quoting: bool) {
    forall i :: 0 <= i < |command| ==> Blank(command, quoting, i)
  }

  lemma AllBlankFirst(command: string, quoting: bool)
    requires command != ""
    ensures AllBlank(command, quoting) <==>
            Blank(command, quoting, 0) && AllBlank(command[1..], quoting != (command[0] == '"'))
  {
    var quoting' := quoting != (command[0] == '"');
    forall i | 0 < i < |command| ensures Blank(command, quoting, i) <==> Blank(command[1..], quoting', i - 1) {
      BlankNext(command, quoting, i);
    }
    hide Blank;
    if AllBlank(command[1..], quoting') {
      forall i | 0 < i < |command| ensures Blank(command, quoting, i) {
        assert Blank(command[1..], quoting', i - 1);
      }
    }
    if AllBlank(command, quoting) {
      forall i | 0 <= i < |command| - 1 ensures Blank(command[1..], quoting', i) {
        assert Blank(command, quoting, i + 1);
      }
    }
  }

  ghost predicate OnlyGaps(marks: seq<Mark>) {
    forall i :: 0 <= i < |marks| ==> marks[i].Gap?
  }

  lemma FirstGap(m: Mark, marks: seq<Mark>)
    ensures OnlyGaps([m] + marks) <==> m.Gap? && OnlyGaps(marks)
  {
    if OnlyGaps([m] + marks) {
      assert ([m] + marks)[0] == m;
      forall i | 0 <= i < |marks| ensures marks[i].Gap? {
        assert ([m] + marks)[i + 1] == marks[i];
      }
    }
  }

  lemma {:induction false} OnlyGapsIff(command: string, quoting: bool)
    ensures OnlyGaps(Marks(command, quoting)) <==> AllBlank(command, quoting)
  {
    if command != "" {
      var c, rest := command[0], command[1..];
      AllBlankFirst(command, quoting);
      OnlyGapsIff(rest, quoting != (c == '"'));
      assert command[..0] == "" && (Blank(command, quoting, 0) <==> c == '"' || (c == ' ' && !quoting));
      hide OnlyGaps, AllBlank, Blank;
      if c == ' ' {
        FirstGap(if quoting then Char(' ') else Gap, Marks(rest, quoting));
      } else if c != '"' && c != '\\' {
        FirstGap(Char(c), Marks(rest, quoting));
      } else if c == '\\' {
        EscapeIsNoGap(command, quoting);
      }
    }
  }

  lemma EscapeIsNoGap(command: string, quoting: bool)
    requires command != "" && command[0] == '\\'
    ensures !OnlyGaps(Marks(command, quoting))
  {
    assert !Marks(command, quoting)[0].Gap?;
  }

  /** A command line is refused exactly when it has nothing but quotes and spaces, and an even number of
      quotes before each space. */
  lemma RefusedIff(command: string)
    ensures Tokenized(command).Err? <==>
            forall i :: 0 <= i < |command| ==> command[i] == '"' || (command[i] == ' ' && Quotes(command[..i]) % 2 == 0)
  {
    AllGaps(Marks(command, false));
    OnlyGapsIff(command, false);
    assert forall i :: 0 <= i < |command| ==>
      (Blank(command, false, i) <==> command[i] == '"' || (command[i] == ' ' && Quotes(command[..i]) % 2 == 0));
    hide Quotes, Marks;
  }
}
