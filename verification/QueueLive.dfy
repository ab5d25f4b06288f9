/**
 Live rows with the place of their message in the history of all messages ever stored, and what is left
 of them after deletes of which some fail.
 */
module QueueLive {
  import opened QueueTable
  import opened QueueStorage

  datatype Live = Live(row: Row, at: nat)

  function RowsOf(live: seq<Live>): (r: seq<Row>)
    ensures |r| == |live| && forall i :: 0 <= i < |live| ==> r[i] == live[i].row
  {
    seq(|live|, i requires 0 <= i < |live| => live[i].row)
  }

  /** Rowids and places both follow the order of the rows. */
  predicate Ordered(live: seq<Live>) {
    forall i, j :: 0 <= i < j < |live| ==> live[i].row.id < live[j].row.id && live[i].at < live[j].at
  }

  /** The message at place `k` is live. */
  predicate IsLive(live: seq<Live>, k: nat) {
    exists i :: 0 <= i < |live| && live[i].at == k
  }

  lemma OrderedRows(live: seq<Live>)
    requires Ordered(live)
    ensures Increasing(RowsOf(live))
  {
  }

  /** The rows without those among the first whose delete succeeds. */
  function Kept(live: seq<Live>, gone: seq<bool>): seq<Live>
    requires |gone| <= |live|
  {
    if gone == [] then live else Rest(live[0], gone[0]) + Kept(live[1..], gone[1..])
  }

  function Rest(l: Live, gone: bool): seq<Live> {
    if gone then [] else [l]
  }

  /** The message at place `k` is one whose delete succeeds. */
  predicate Taken(live: seq<Live>, gone: seq<bool>, k: nat)
    requires |gone| <= |live|
  {
    exists i :: 0 <= i < |gone| && gone[i] && live[i].at == k
  }

  lemma {:induction false} KeptMembers(live: seq<Live>, gone: seq<bool>)
    requires |gone| <= |live|
    ensures forall l :: l in Kept(live, gone) ==> l in live
    ensures |Kept(live, gone)| <= |live|
  {
    if gone != [] {
      KeptMembers(live[1..], gone[1..]);
    }
  }

  lemma OrderedFirst(l: Live, rest: seq<Live>)
    requires Ordered(rest) && forall j :: 0 <= j < |rest| ==> l.row.id < rest[j].row.id && l.at < rest[j].at
    ensures Ordered([l] + rest)
  {
  }

  lemma {:induction false} KeptOrder(live: seq<Live>, gone: seq<bool>)
    requires |gone| <= |live| && Ordered(live)
    ensures Ordered(Kept(live, gone))
  {
    if gone != [] {
      var rest := Kept(live[1..], gone[1..]);
      KeptOrder(live[1..], gone[1..]);
      KeptMembers(live[1..], gone[1..]);
      assert Kept(live, gone) == Rest(live[0], gone[0]) + rest;
      hide Kept;
      forall j | 0 <= j < |rest| ensures live[0].row.id < rest[j].row.id && live[0].at < rest[j].at {
        assert rest[j] in live[1..];
      }
      hide Ordered;
      OrderedFirst(live[0], rest);
      assert gone[0] ==> Kept(live, gone) == rest;
    }
  }

  lemma LiveFirst(l: Live, rest: seq<Live>, k: nat)
    ensures IsLive([l] + rest, k) <==> l.at == k || IsLive(rest, k)
  {
    if IsLive(rest, k) {
      var i :| 0 <= i < |rest| && rest[i].at == k;
      assert ([l] + rest)[i + 1].at == k;
    }
    assert ([l] + rest)[0] == l;
  }

  lemma TakenFirst(live: seq<Live>, gone: seq<bool>, k: nat)
    requires 0 < |gone| <= |live|
    ensures Taken(live, gone, k) <==> (gone[0] && live[0].at == k) || Taken(live[1..], gone[1..], k)
  {
    if Taken(live[1..], gone[1..], k) {
      var i :| 0 <= i < |gone| - 1 && gone[1..][i] && live[1..][i].at == k;
      assert gone[i + 1] && live[i + 1].at == k;
    }
    if Taken(live, gone, k) {
      var i :| 0 <= i < |gone| && gone[i] && live[i].at == k;
      assert i > 0 ==> gone[1..][i - 1] && live[1..][i - 1].at == k;
    }
  }

  lemma TakenIsLive(live: seq<Live>, gone: seq<bool>, k: nat)
    requires |gone| <= |live| && Taken(live, gone, k)
    ensures IsLive(live, k)
  {
  }

  /** A message stays live exactly when it was and was not deleted. */
  lemma {:induction false} KeptPlace(live: seq<Live>, gone: seq<bool>, k: nat)
    requires |gone| <= |live| && Ordered(live)
    ensures IsLive(Kept(live, gone), k) <==> IsLive(live, k) && !Taken(live, gone, k)
  {
    if gone != [] {
      var rest := Kept(live[1..], gone[1..]);
      KeptPlace(live[1..], gone[1..], k);
      assert live == [live[0]] + live[1..];
      assert Kept(live, gone) == Rest(live[0], gone[0]) + rest;
      assert gone[0] ==> Kept(live, gone) == rest;
      LiveFirst(live[0], live[1..], k);
      LiveFirst(live[0], rest, k);
      TakenFirst(live, gone, k);
      assert live[0].at == k ==> !IsLive(live[1..], k);
      if Taken(live[1..], gone[1..], k) {
        TakenIsLive(live[1..], gone[1..], k);
      }
      hide Kept, IsLive, Taken, Ordered;
    }
  }

  /** When no delete fails, the first rows are gone. */
  lemma {:induction false} KeptRest(live: seq<Live>, gone: seq<bool>)
    requires |gone| <= |live| && forall i :: 0 <= i < |gone| ==> gone[i]
    ensures Kept(live, gone) == live[|gone|..]
  {
    if gone != [] {
      KeptRest(live[1..], gone[1..]);
    }
  }

  // ----- deleting by rowid -----

  lemma RowsFirst(l: Live, rest: seq<Live>)
    ensures RowsOf([l] + rest) == [l.row] + RowsOf(rest)
  {
  }

  lemma KeptOne(live: seq<Live>, gone: bool)
    requires live != [] && Ordered(live)
    ensures RowsOf(Kept(live, [gone])) == if gone then Delete(RowsOf(live), live[0].row.id) else RowsOf(live)
  {
    assert live == [live[0]] + live[1..];
    assert [gone][1..] == [];
    assert Kept(live, [gone]) == Rest(live[0], gone) + live[1..];
    RowsFirst(live[0], live[1..]);
    if gone {
      assert Kept(live, [gone]) == live[1..];
      DeleteAbsent(RowsOf(live[1..]), live[0].row.id);
      DeleteFirst(live[0].row, RowsOf(live[1..]), live[0].row.id);
    }
  }

  lemma DeleteFirst(r: Row, rows: seq<Row>, id: nat)
    ensures Delete([r] + rows, id) == if r.id == id then Delete(rows, id) else [r] + Delete(rows, id)
  {
    assert ([r] + rows)[1..] == rows;
  }

  lemma {:induction false} KeptMore(live: seq<Live>, gone: seq<bool>)
    requires 0 < |gone| <= |live| && Ordered(live)
    ensures var k := |gone| - 1;
            RowsOf(Kept(live, gone)) ==
            if gone[k] then Delete(RowsOf(Kept(live, gone[..k])), live[k].row.id) else RowsOf(Kept(live, gone[..k]))
    decreases |gone|
  {
    var k := |gone| - 1;
    if k == 0 {
      assert gone == [gone[0]] && gone[..0] == [];
      KeptOne(live, gone[0]);
    } else {
      KeptMore(live[1..], gone[1..]);
      assert gone[1..][..k - 1] == gone[..k][1..];
      var before, after := Kept(live[1..], gone[1..][..k - 1]), Kept(live[1..], gone[1..]);
      assert Kept(live, gone[..k]) == Rest(live[0], gone[0]) + before;
      assert Kept(live, gone) == Rest(live[0], gone[0]) + after;
      hide Kept, Delete, Ordered;
      assert gone[0] ==> Kept(live, gone[..k]) == before && Kept(live, gone) == after;
      RowsFirst(live[0], before);
      RowsFirst(live[0], after);
      DeleteFirst(live[0].row, RowsOf(before), live[k].row.id);
    }
  }

  /** Deleting the first rows one by one, by rowid, keeps exactly those whose delete failed. */
  lemma {:induction false} PrunedIsKept(live: seq<Live>, gone: seq<bool>)
    requires |gone| <= |live| && Ordered(live)
    ensures Pruned(RowsOf(live), RowsOf(live)[..|gone|], gone) == RowsOf(Kept(live, gone))
    decreases |gone|
  {
    if gone != [] {
      var k := |gone| - 1;
      assert RowsOf(live)[..|gone|][..k] == RowsOf(live)[..k];
      assert RowsOf(live)[..|gone|][k] == live[k].row;
      PrunedIsKept(live, gone[..k]);
      KeptMore(live, gone);
      hide Kept, Ordered, Delete;
    }
  }
}
