/**
 Batches bounded by size: how many of the oldest messages are sent together, and why a table that
 reports enough content always fills a batch.
 */
module QueueBatch {
  import opened QueueTable

  /** What a message holds, one part after another. A row without data is rendered as `null`. */
  function Content(f: Fields): Text {
    f.moduleName + f.moduleType + f.metadata + if f.message == [] then [110, 117, 108, 108] else f.message
  }

  function Contents(rows: seq<Row>): Text {
    if rows == [] then [] else Contents(rows[..|rows| - 1]) + Content(rows[|rows| - 1].fields)
  }

  /** The bytes of some messages. */
  function Total(rows: seq<Row>): nat {
    |Contents(rows)|
  }

  /** The bytes a message adds to a batch. */
  function Size(f: Fields): nat {
    |f.moduleName| + |f.moduleType| + |f.metadata| + if f.message == [] then 4 else |f.message|
  }

  /** The shortest prefix whose content has `n` bytes, or everything if none has. Zero means no bound. */
  ghost predicate IsBatch(b: seq<Row>, rows: seq<Row>, n: nat) {
    && b <= rows
    && (n == 0 ==> b == rows)
    && (n > 0 ==> (Total(b) >= n || b == rows) && forall k :: 0 <= k < |b| ==> Total(b[..k]) < n)
  }

  /** A batch is determined by the rows and the bound. */
  lemma BatchIsUnique(a: seq<Row>, b: seq<Row>, rows: seq<Row>, n: nat)
    requires IsBatch(a, rows, n) && IsBatch(b, rows, n)
    ensures a == b
  {
    assert |a| <= |b| ==> b[..|a|] == a;
    assert |b| <= |a| ==> a[..|b|] == b;
  }

  lemma TotalMore(rows: seq<Row>, i: nat)
    requires i < |rows|
    ensures Total(rows[..i + 1]) == Total(rows[..i]) + Size(rows[i].fields)
  {
    assert rows[..i + 1][..i] == rows[..i];
  }

  /** The first prefix that is large enough, or the whole, is the batch. */
  lemma PrefixIsBatch(rows: seq<Row>, k: nat, n: nat)
    requires k <= |rows| && (k == |rows| || (n > 0 && Total(rows[..k]) >= n))
    requires n > 0 ==> forall i :: 0 <= i < k ==> Total(rows[..i]) < n
    ensures IsBatch(rows[..k], rows, n)
  {
    hide Total;
    assert forall i :: 0 <= i < k ==> rows[..k][..i] == rows[..i];
  }

  // ----- the size the database reports -----

  /** Continuation bytes of a UTF-8 sequence. */
  function SkipContinuation(t: Text): (r: Text)
    ensures |r| <= |t|
  {
    if t != [] && 0x80 <= t[0] < 0xC0 then SkipContinuation(t[1..]) else t
  }

  /** The database counts characters, up to the first NUL. */
  function Chars(t: Text): (c: nat)
    ensures c <= |t|
    decreases |t|
  {
    if t == [] || t[0] == 0 then 0
    else if t[0] >= 0xC0 then 1 + Chars(SkipContinuation(t[1..]))
    else 1 + Chars(t[1..])
  }

  function RowChars(f: Fields): nat {
    Chars(f.moduleName) + Chars(f.moduleType) + Chars(f.metadata) + Chars(f.message)
  }

  function TableChars(rows: seq<Row>): nat {
    if rows == [] then 0 else TableChars(rows[..|rows| - 1]) + RowChars(rows[|rows| - 1].fields)
  }

  const TWO_32 := 0x1_0000_0000

  /** The stored size of a table: the sum of characters, read as a 32-bit number. */
  function StoredSize(rows: seq<Row>): nat {
    TableChars(rows) % TWO_32
  }

  lemma {:induction false} CharsAreBytes(rows: seq<Row>)
    ensures TableChars(rows) <= Total(rows)
  {
    if rows != [] {
      var k := |rows| - 1;
      CharsAreBytes(rows[..k]);
      assert rows[..k + 1] == rows;
      TotalMore(rows, k);
    }
  }

  // ----- what the database counts -----

  /** The UTF-8 sequence of a code point. */
  function Utf8(c: nat): (t: Text)
    requires c < 0x110000
    ensures t != [] && (forall i :: 0 < i < |t| ==> 0x80 <= t[i] < 0xC0) && !(0x80 <= t[0] < 0xC0)
    ensures (|t| == 1 <==> t[0] < 0x80) && (t[0] == 0 <==> c == 0)
  {
    if c < 0x80 then [c as byte]
    else if c < 0x800 then [(0xC0 + c / 64) as byte, (0x80 + c % 64) as byte]
    else if c < 0x10000 then [(0xE0 + c / 4096) as byte, (0x80 + c / 64 % 64) as byte, (0x80 + c % 64) as byte]
    else [(0xF0 + c / 262144) as byte, (0x80 + c / 4096 % 64) as byte, (0x80 + c / 64 % 64) as byte, (0x80 + c % 64) as byte]
  }

  predicate CodePoints(cs: seq<nat>) {
    forall i :: 0 <= i < |cs| ==> cs[i] < 0x110000
  }

  function Encode(cs: seq<nat>): (t: Text)
    requires CodePoints(cs)
    ensures t == [] || !(0x80 <= t[0] < 0xC0)
  {
    if cs == [] then [] else Utf8(cs[0]) + Encode(cs[1..])
  }

  lemma {:induction false} SkipAll(conts: Text, rest: Text)
    requires (forall i :: 0 <= i < |conts| ==> 0x80 <= conts[i] < 0xC0) && (rest == [] || !(0x80 <= rest[0] < 0xC0))
    ensures SkipContinuation(conts + rest) == rest
  {
    if conts == [] {
      assert conts + rest == rest;
    } else {
      SkipAll(conts[1..], rest);
      assert (conts + rest)[1..] == conts[1..] + rest;
    }
  }

  /** Of an encoded text the database counts the code points before the first that is zero. */
  lemma {:induction false} CharsOfEncoded(cs: seq<nat>, k: nat)
    requires CodePoints(cs) && k <= |cs| && (forall i :: 0 <= i < k ==> cs[i] != 0) && (k < |cs| ==> cs[k] == 0)
    ensures Chars(Encode(cs)) == k
  {
    if k > 0 {
      var first, rest := Utf8(cs[0]), Encode(cs[1..]);
      CharsOfEncoded(cs[1..], k - 1);
      hide Utf8, Encode;
      var t := first + rest;
      assert t[1..] == first[1..] + rest;
      SkipAll(first[1..], rest);
    }
  }

  predicate IsAscii(t: Text) {
    forall i :: 0 <= i < |t| ==> 0 < t[i] < 0x80
  }

  /** Every part is plain text and there is data. */
  predicate Ascii(f: Fields) {
    IsAscii(f.moduleName) && IsAscii(f.moduleType) && IsAscii(f.metadata) && IsAscii(f.message) && f.message != []
  }

  lemma {:induction false} CharsOfAscii(t: Text)
    requires IsAscii(t)
    ensures Chars(t) == |t|
  {
    if t != [] {
      CharsOfAscii(t[1..]);
    }
  }

  /** For plain text what the database reports is the number of bytes, cut to 32 bits. */
  lemma {:induction false} AsciiIsExact(rows: seq<Row>)
    requires forall i :: 0 <= i < |rows| ==> Ascii(rows[i].fields)
    ensures TableChars(rows) == Total(rows) && StoredSize(rows) == Total(rows) % 0x1_0000_0000
  {
    if rows != [] {
      var k := |rows| - 1;
      AsciiIsExact(rows[..k]);
      assert rows[..k + 1] == rows;
      TotalMore(rows, k);
      var f := rows[k].fields;
      CharsOfAscii(f.moduleName);
      CharsOfAscii(f.moduleType);
      CharsOfAscii(f.metadata);
      CharsOfAscii(f.message);
    }
  }

  /** Whenever the reported size reaches the batch size, the batch that is then read has at least that
      many bytes: neither counting characters nor dropping the high bits overstates the content. */
  lemma ReportedSizeSuffices(b: seq<Row>, rows: seq<Row>, n: nat)
    requires IsBatch(b, rows, n) && StoredSize(rows) >= n
    ensures Total(b) >= n
  {
    CharsAreBytes(rows);
  }
}
