/** Matching of names against patterns with `*` and `?`. */
module Glob {

  /** What one pattern character stands for: `*` for any text, `?` for any character, any other for itself. */
  predicate PieceMatches(piece: string, c: char) {
    c == '*' || (|piece| == 1 && (c == '?' || piece[0] == c))
  }

  function Flatten(pieces: seq<string>): string {
    if pieces == [] then "" else pieces[0] + Flatten(pieces[1..])
  }

  ghost predicate Splits(pieces: seq<string>, entry: string, pattern: string) {
    && |pieces| == |pattern| && Flatten(pieces) == entry
    && forall i :: 0 <= i < |pattern| ==> PieceMatches(pieces[i], pattern[i])
  }

  /** The entry splits into pieces that the pattern's characters stand for, one by one. */
  ghost predicate Matches(entry: string, pattern: string) {
    exists pieces :: Splits(pieces, entry, pattern)
  }

  lemma {:induction false} FlattenConcat(a: seq<string>, b: seq<string>)
    ensures Flatten(a + b) == Flatten(a) + Flatten(b)
  {
    if a == [] {
      assert a + b == b;
    } else {
      assert (a + b)[1..] == a[1..] + b;
      FlattenConcat(a[1..], b);
    }
  }

  /** The entry can be cut so that the two parts match the two patterns. */
  ghost predicate Cuts(entry: string, p1: string, p2: string) {
    exists k :: 0 <= k <= |entry| && Matches(entry[..k], p1) && Matches(entry[k..], p2)
  }

  lemma CutOfMatch(entry: string, p1: string, p2: string)
    requires Matches(entry, p1 + p2)
    ensures Cuts(entry, p1, p2)
  {
    var pieces :| Splits(pieces, entry, p1 + p2);
    var a, b := pieces[..|p1|], pieces[|p1|..];
    assert a + b == pieces;
    FlattenConcat(a, b);
    var k := |Flatten(a)|;
    assert entry[..k] == Flatten(a) && entry[k..] == Flatten(b);
    forall i | 0 <= i < |p1| ensures PieceMatches(a[i], p1[i]) {
      assert (p1 + p2)[i] == p1[i];
    }
    forall i | 0 <= i < |p2| ensures PieceMatches(b[i], p2[i]) {
      assert (p1 + p2)[|p1| + i] == p2[i];
    }
    assert Splits(a, entry[..k], p1) && Splits(b, entry[k..], p2);
  }

  lemma MatchOfCut(entry: string, p1: string, p2: string)
    requires Cuts(entry, p1, p2)
    ensures Matches(entry, p1 + p2)
  {
    var k :| 0 <= k <= |entry| && Matches(entry[..k], p1) && Matches(entry[k..], p2);
    var a :| Splits(a, entry[..k], p1);
    var b :| Splits(b, entry[k..], p2);
    FlattenConcat(a, b);
    assert entry[..k] + entry[k..] == entry;
    assert Splits(a + b, entry, p1 + p2);
  }

  /** Patterns compose: a match of two patterns in a row is a cut into a match of each. */
  lemma Compose(entry: string, p1: string, p2: string)
    ensures Matches(entry, p1 + p2) <==> Cuts(entry, p1, p2)
  {
    if Matches(entry, p1 + p2) {
      CutOfMatch(entry, p1, p2);
    }
    if Cuts(entry, p1, p2) {
      MatchOfCut(entry, p1, p2);
    }
  }

  lemma OneCharacter(entry: string, c: char)
    ensures Matches(entry, [c]) <==> PieceMatches(entry, c)
  {
    if Matches(entry, [c]) {
      var pieces :| Splits(pieces, entry, [c]);
      assert pieces == [pieces[0]] && Flatten(pieces) == pieces[0] + Flatten([]);
    }
    if PieceMatches(entry, c) {
      assert Flatten([entry]) == entry + Flatten([]);
      assert Splits([entry], entry, [c]);
    }
  }

  lemma NoPattern(entry: string)
    ensures Matches(entry, "") <==> entry == ""
  {
    if entry == "" {
      assert Splits([], entry, "");
    }
  }

  // ----- the recurrence of the table -----

  /** A pattern that ends in `*` matches without it, or absorbs the last character. */
  lemma LastStar(entry: string, p: string)
    ensures Matches(entry, p + "*") <==>
            Matches(entry, p) || (entry != "" && Matches(entry[..|entry| - 1], p + "*"))
  {
    Compose(entry, p, "*");
    forall k | 0 <= k <= |entry| ensures Matches(entry[k..], "*") {
      OneCharacter(entry[k..], '*');
    }
    assert entry[..|entry|] == entry;
    if entry != "" {
      var short := entry[..|entry| - 1];
      Compose(short, p, "*");
      forall k | 0 <= k <= |short| ensures short[..k] == entry[..k] && Matches(short[k..], "*") {
        OneCharacter(short[k..], '*');
      }
    }
  }

  /** A pattern that ends in another character matches when the last characters agree and the rest matches. */
  lemma LastOne(entry: string, p: string, c: char)
    requires c != '*'
    ensures Matches(entry, p + [c]) <==>
            entry != "" && (c == '?' || entry[|entry| - 1] == c) && Matches(entry[..|entry| - 1], p)
  {
    Compose(entry, p, [c]);
    forall k | 0 <= k <= |entry| ensures Matches(entry[k..], [c]) <==> PieceMatches(entry[k..], c) {
      OneCharacter(entry[k..], c);
    }
    if entry != "" {
      var k := |entry| - 1;
      assert entry[k..] == [entry[k]];
    }
  }

  /** A cell of the table in terms of its neighbours. */
  lemma CellRule(entry: string, pattern: string, i: nat, j: nat)
    requires i <= |entry| && 0 < j <= |pattern|
    ensures var c := pattern[j - 1];
            Matches(entry[..i], pattern[..j]) <==>
            if c == '*' then Matches(entry[..i], pattern[..j - 1]) || (i > 0 && Matches(entry[..i - 1], pattern[..j]))
            else i > 0 && (c == '?' || entry[i - 1] == c) && Matches(entry[..i - 1], pattern[..j - 1])
  {
    var c := pattern[j - 1];
    assert pattern[..j] == pattern[..j - 1] + [c];
    if i > 0 {
      assert entry[..i][..i - 1] == entry[..i - 1];
    }
    if c == '*' {
      LastStar(entry[..i], pattern[..j - 1]);
    } else {
      LastOne(entry[..i], pattern[..j - 1], c);
    }
  }

  method FirstRow(dp: array2<bool>, entry: string, pattern: string)
    requires dp.Length0 == |entry| + 1 && dp.Length1 == |pattern| + 1
    requires forall i, j :: 0 <= i <= |entry| && 0 <= j <= |pattern| ==> !dp[i, j]
    modifies dp
    ensures forall j :: 0 <= j <= |pattern| ==> dp[0, j] == Matches(entry[..0], pattern[..j])
    ensures forall i, j :: 0 < i <= |entry| && 0 <= j <= |pattern| ==> !dp[i, j]
  {
    dp[0, 0] := true;
    NoPattern("");
    for j := 1 to |pattern| + 1
      invariant forall k :: 0 <= k < j ==> dp[0, k] == Matches(entry[..0], pattern[..k])
      invariant forall k :: j <= k <= |pattern| ==> !dp[0, k]
      invariant forall i, k :: 0 < i <= |entry| && 0 <= k <= |pattern| ==> !dp[i, k]
    {
      CellRule(entry, pattern, 0, j);
      hide Matches;
      if pattern[j - 1] == '*' {
        dp[0, j] := dp[0, j - 1];
      }
    }
  }

  method NextRow(dp: array2<bool>, entry: string, pattern: string, i: nat)
    requires dp.Length0 == |entry| + 1 && dp.Length1 == |pattern| + 1 && 0 < i <= |entry|
    requires forall i', j :: 0 <= i' < i && 0 <= j <= |pattern| ==> dp[i', j] == Matches(entry[..i'], pattern[..j])
    requires forall i', j :: i <= i' <= |entry| && 0 <= j <= |pattern| ==> !dp[i', j]
    modifies dp
    ensures forall i', j :: 0 <= i' <= i && 0 <= j <= |pattern| ==> dp[i', j] == Matches(entry[..i'], pattern[..j])
    ensures forall i', j :: i < i' <= |entry| && 0 <= j <= |pattern| ==> !dp[i', j]
  {
    NoPattern(entry[..i]);
    hide Matches;
    for j := 1 to |pattern| + 1
      invariant forall k :: 0 <= k < j ==> dp[i, k] == Matches(entry[..i], pattern[..k])
      invariant forall k :: j <= k <= |pattern| ==> !dp[i, k]
      invariant forall i', k :: 0 <= i' < i && 0 <= k <= |pattern| ==> dp[i', k] == Matches(entry[..i'], pattern[..k])
      invariant forall i', k :: i < i' <= |entry| && 0 <= k <= |pattern| ==> !dp[i', k]
    {
      CellRule(entry, pattern, i, j);
      if pattern[j - 1] == '*' {
        dp[i, j] := dp[i, j - 1] || dp[i - 1, j];
      } else if pattern[j - 1] == '?' || entry[i - 1] == pattern[j - 1] {
        dp[i, j] := dp[i - 1, j - 1];
      }
    }
  }

  method PatternMatch(entry: string, pattern: string) returns (r: bool)
    ensures r <==> Matches(entry, pattern)
  {
    var dp := new bool[|entry| + 1, |pattern| + 1]((i, j) => false);
    FirstRow(dp, entry, pattern);
    for i := 1 to |entry| + 1
      invariant forall i', j :: 0 <= i' < i && 0 <= j <= |pattern| ==> dp[i', j] == Matches(entry[..i'], pattern[..j])
      invariant forall i', j :: i <= i' <= |entry| && 0 <= j <= |pattern| ==> !dp[i', j]
    {
      NextRow(dp, entry, pattern, i);
    }
    assert entry[..|entry|] == entry && pattern[..|pattern|] == pattern;
    assert dp[|entry|, |pattern|] == Matches(entry[..|entry|], pattern[..|pattern|]);
    r := dp[|entry|, |pattern|];
  }

  // ----- laws -----

  /** A doubled star behaves as one, wherever it stands. */
  lemma DoubleStar(entry: string, p1: string, p2: string)
    ensures Matches(entry, p1 + "**" + p2) <==> Matches(entry, p1 + "*" + p2)
  {
    forall e: string ensures Matches(e, p1 + "**") <==> Matches(e, p1 + "*") {
      StarTwice(e, p1);
    }
    Compose(entry, p1 + "**", p2);
    Compose(entry, p1 + "*", p2);
    hide Matches;
  }

  lemma {:induction false} StarTwice(entry: string, p: string)
    ensures Matches(entry, p + "**") <==> Matches(entry, p + "*")
    decreases |entry|
  {
    assert p + "**" == p + "*" + "*";
    LastStar(entry, p + "*");
    LastStar(entry, p);
    if entry != "" {
      StarTwice(entry[..|entry| - 1], p);
    }
  }

  /** A pattern without wildcards matches itself and nothing else. */
  lemma {:induction false} Literal(entry: string, pattern: string)
    requires '*' !in pattern && '?' !in pattern
    ensures Matches(entry, pattern) <==> entry == pattern
  {
    if pattern == "" {
      NoPattern(entry);
    } else {
      var n := |pattern| - 1;
      var c := pattern[n];
      assert pattern == pattern[..n] + [c] && c in pattern;
      LastOne(entry, pattern[..n], c);
      if entry != "" {
        Literal(entry[..|entry| - 1], pattern[..n]);
        assert entry == entry[..|entry| - 1] + [entry[|entry| - 1]];
      }
    }
  }
}
