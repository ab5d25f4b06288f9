/**
 The body of a request: a header line, then the metadata and the data of each message on lines of
 their own.
 */
module QueueFraming {
  import opened QueueTable

  const NEWLINE: byte := 10

  /** What one message adds to the body: its metadata and its data, each on a line of its own, if any. */
  function Lines(f: Fields): seq<Text> {
    (if f.metadata == [] then [] else [f.metadata]) + (if f.message == EMPTY_OBJECT then [] else [f.message])
  }

  const EMPTY_OBJECT: Text := [123, 125]

  function BodyLines(header: Text, messages: seq<Fields>): seq<Text> {
    if messages == [] then [header] else BodyLines(header, messages[..|messages| - 1]) + Lines(messages[|messages| - 1])
  }

  /** Lines joined with a newline before each but the first. */
  function Join(lines: seq<Text>): Text
    requires lines != []
  {
    if |lines| == 1 then lines[0] else Join(lines[..|lines| - 1]) + [NEWLINE] + lines[|lines| - 1]
  }

  /** The parts of a text between its newlines. */
  function Split(t: Text): (r: seq<Text>)
    ensures r != []
  {
    if t == [] then [[]]
    else
      var r, c := Split(t[..|t| - 1]), t[|t| - 1];
      if c == NEWLINE then r + [[]] else r[|r| - 1 := r[|r| - 1] + [c]]
  }

  predicate OneLine(t: Text) {
    NEWLINE !in t
  }

  lemma {:induction false} SplitLine(t: Text, line: Text)
    requires OneLine(line)
    ensures Split(t + [NEWLINE] + line) == Split(t) + [line]
  {
    if line == [] {
      assert (t + [NEWLINE] + line)[..|t|] == t;
    } else {
      var k := |line| - 1;
      SplitLine(t, line[..k]);
      assert (t + [NEWLINE] + line)[..|t| + 1 + k] == t + [NEWLINE] + line[..k];
      assert line[k] in line;
      assert line[..k] + [line[k]] == line;
    }
  }

  lemma {:induction false} SplitOne(line: Text)
    requires OneLine(line)
    ensures Split(line) == [line]
  {
    if line != [] {
      var k := |line| - 1;
      SplitOne(line[..k]);
      assert line[k] in line;
      assert line[..k] + [line[k]] == line;
    }
  }

  /** Splitting a body at its newlines gives back the lines it was joined from. */
  lemma {:induction false} SplitJoin(lines: seq<Text>)
    requires lines != [] && forall i :: 0 <= i < |lines| ==> OneLine(lines[i])
    ensures Split(Join(lines)) == lines
  {
    if |lines| == 1 {
      SplitOne(lines[0]);
    } else {
      var k := |lines| - 1;
      SplitJoin(lines[..k]);
      SplitLine(Join(lines[..k]), lines[k]);
      assert lines[..k] + [lines[k]] == lines;
    }
  }

  lemma {:induction false} JoinMore(lines: seq<Text>, more: seq<Text>)
    requires lines != []
    ensures Join(lines + more) == Join(lines) + Prefixed(more)
    decreases |more|
  {
    if more == [] {
      assert lines + more == lines;
    } else {
      var k := |more| - 1;
      assert (lines + more)[..|lines| + k] == lines + more[..k];
      JoinMore(lines, more[..k]);
    }
  }

  /** Each line with a newline in front. */
  function Prefixed(lines: seq<Text>): Text {
    if lines == [] then [] else Prefixed(lines[..|lines| - 1]) + [NEWLINE] + lines[|lines| - 1]
  }

  lemma {:induction false} LinesAreClean(header: Text, messages: seq<Fields>)
    requires OneLine(header) && forall i :: 0 <= i < |messages| ==> OneLine(messages[i].metadata) && OneLine(messages[i].message)
    ensures forall l <- BodyLines(header, messages) :: OneLine(l)
    ensures BodyLines(header, messages) != []
  {
    if messages != [] {
      LinesAreClean(header, messages[..|messages| - 1]);
    }
  }

  /** The body of a request, built by appending to a string. When no part contains a newline, splitting
      it at newlines gives back the header and the parts of every message, in order. */
  method RenderBody(header: Text, messages: seq<Fields>) returns (body: Text)
    ensures body == header + Pieces(messages)
    ensures BodyLines(header, messages) != [] && body == Join(BodyLines(header, messages))
    ensures OneLine(header) && (forall m <- messages :: OneLine(m.metadata) && OneLine(m.message)) ==>
      Split(body) == BodyLines(header, messages)
  {
    body := header;
    assert BodyLines(header, messages[..0]) == [header];
    for i := 0 to |messages|
      invariant BodyLines(header, messages[..i]) != [] && body == Join(BodyLines(header, messages[..i]))
    {
      hide *;
      var m := messages[i];
      BodyMore(header, messages, i);
      PrefixedLines(m);
      body := body + ((if m.metadata == [] then [] else [NEWLINE] + m.metadata) +
                      (if m.message == EMPTY_OBJECT then [] else [NEWLINE] + m.message));
    }
    assert messages[..|messages|] == messages;
    BodyIs(header, messages);
    if OneLine(header) && (forall m <- messages :: OneLine(m.metadata) && OneLine(m.message)) {
      LinesAreClean(header, messages);
      SplitJoin(BodyLines(header, messages));
    }
  }

  // ----- the bytes of a body -----

  /** What a message adds to a body: metadata and data, each after a newline, where there is any. */
  function Piece(m: Fields): Text {
    (if m.metadata == [] then [] else [10] + m.metadata) + (if m.message == [123, 125] then [] else [10] + m.message)
  }

  function Pieces(messages: seq<Fields>): Text {
    if messages == [] then [] else Pieces(messages[..|messages| - 1]) + Piece(messages[|messages| - 1])
  }

  /** The body is the header and what each message adds, in order. */
  lemma {:induction false} BodyIs(header: Text, messages: seq<Fields>)
    ensures BodyLines(header, messages) != [] && Join(BodyLines(header, messages)) == header + Pieces(messages)
  {
    if messages == [] {
      assert header + [] == header;
    } else {
      var k := |messages| - 1;
      BodyIs(header, messages[..k]);
      PrefixedLines(messages[k]);
      assert Prefixed(Lines(messages[k])) == Piece(messages[k]);
      assert messages[..k + 1] == messages;
      hide BodyLines, Join, Lines, Prefixed, Piece;
      BodyMore(header, messages, k);
      assert header + Pieces(messages[..k]) + Piece(messages[k]) == header + (Pieces(messages[..k]) + Piece(messages[k]));
    }
  }

  lemma BodyMore(header: Text, messages: seq<Fields>, i: nat)
    requires i < |messages| && BodyLines(header, messages[..i]) != []
    ensures BodyLines(header, messages[..i + 1]) != []
    ensures Join(BodyLines(header, messages[..i + 1])) == Join(BodyLines(header, messages[..i])) + Prefixed(Lines(messages[i]))
  {
    assert messages[..i + 1][..i] == messages[..i];
    JoinMore(BodyLines(header, messages[..i]), Lines(messages[i]));
  }

  lemma PrefixedLines(m: Fields)
    ensures Prefixed(Lines(m)) == (if m.metadata == [] then [] else [NEWLINE] + m.metadata) +
                                  (if m.message == EMPTY_OBJECT then [] else [NEWLINE] + m.message)
  {
    var meta := if m.metadata == [] then [] else [m.metadata];
    PrefixedMore([], m.metadata);
    assert [] + [m.metadata] == [m.metadata];
    PrefixedMore(meta, m.message);
    assert m.message == EMPTY_OBJECT ==> Lines(m) == meta;
  }

  lemma PrefixedMore(lines: seq<Text>, line: Text)
    ensures Prefixed(lines + [line]) == Prefixed(lines) + [NEWLINE] + line
  {
    assert (lines + [line])[..|lines|] == lines;
  }
}
