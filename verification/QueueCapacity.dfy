/**
 The capacity of a queue with several producers. A producer compares the number of stored messages
 with the capacity and then stores its own, one by one, without holding a lock in between; an element
 that is itself an array is stored as several rows. When the number cannot be read it is taken to be
 zero.
 */
module QueueCapacity {

  /** `pending[i]` are the elements producer `i` has been admitted with and not yet stored, each given
      as the number of rows it becomes. `misread` are the rows admitted after a count that could not be
      read, where the count would have refused them. */
  datatype State = State(count: nat, pending: seq<seq<nat>>, misread: nat)

  datatype Step =
    | Check(i: nat, elements: seq<nat>, readOk: bool)   // read the count and decide
    | StoreNext(i: nat, rows: nat)                      // store the next element; failed inserts make fewer rows
    | Take(n: nat)                                      // the consumer removes rows
    | Crash

  function Sum(xs: seq<nat>): nat {
    if xs == [] then 0 else Sum(xs[..|xs| - 1]) + xs[|xs| - 1]
  }

  function SumAll(xss: seq<seq<nat>>): nat {
    if xss == [] then 0 else SumAll(xss[..|xss| - 1]) + Sum(xss[|xss| - 1])
  }

  function SpaceAvailable(maxItems: nat, count: nat): nat {
    if maxItems > count then maxItems - count else 0
  }

  /** The elements are stored only if there is room, and room for as many elements. */
  predicate Admits(maxItems: nat, count: nat, elements: seq<nat>) {
    SpaceAvailable(maxItems, count) > 0 && |elements| <= SpaceAvailable(maxItems, count)
  }

  /** The count as a producer sees it. */
  function Seen(count: nat, readOk: bool): nat {
    if readOk then count else 0
  }

  predicate Can(s: State, step: Step) {
    match step
    case Check(i, _, _) => i < |s.pending| && s.pending[i] == []
    case StoreNext(i, rows) => i < |s.pending| && s.pending[i] != [] && rows <= s.pending[i][0]
    case Take(n) => n <= s.count
    case Crash => true
  }

  function Do(maxItems: nat, s: State, step: Step): State
    requires Can(s, step)
  {
    match step
    case Check(i, elements, readOk) =>
      if !Admits(maxItems, Seen(s.count, readOk), elements) then s
      else s.(pending := s.pending[i := elements],
              misread := if Admits(maxItems, s.count, elements) then s.misread else s.misread + Sum(elements))
    case StoreNext(i, rows) => s.(count := s.count + rows, pending := s.pending[i := s.pending[i][1..]])
    case Take(n) => s.(count := s.count - n)
    case Crash => s.(pending := seq(|s.pending|, _ => []))
  }

  /** What the producers push: at most `limit` rows at a time, at most `excess` more rows than elements
      (none, when no element is itself an array of more than one). */
  ghost predicate Within(step: Step, limit: nat, excess: nat) {
    step.Check? ==> Sum(step.elements) <= limit && Sum(step.elements) <= |step.elements| + excess
  }

  ghost predicate Follows(maxItems: nat, limit: nat, excess: nat, s: State, s': State) {
    exists step :: Can(s, step) && Within(step, limit, excess) && s' == Do(maxItems, s, step)
  }

  /** A run of `k` producers that starts with nobody pending. */
  ghost predicate IsRun(maxItems: nat, limit: nat, excess: nat, k: nat, run: seq<State>) {
    && run != [] && |run[0].pending| == k && (forall i :: 0 <= i < k ==> run[0].pending[i] == []) && run[0].misread == 0
    && forall i :: 0 < i < |run| ==> Follows(maxItems, limit, excess, run[i - 1], run[i])
  }

  lemma {:induction false} SumAllUpdate(xss: seq<seq<nat>>, i: nat, xs: seq<nat>)
    requires i < |xss|
    ensures SumAll(xss[i := xs]) + Sum(xss[i]) == SumAll(xss) + Sum(xs)
  {
    var k := |xss| - 1;
    if i == k {
      assert xss[i := xs][..k] == xss[..k];
    } else {
      assert xss[i := xs][..k] == xss[..k][i := xs];
      SumAllUpdate(xss[..k], i, xs);
    }
  }

  lemma {:induction false} SumAllBounded(xss: seq<seq<nat>>, limit: nat)
    requires forall j :: 0 <= j < |xss| ==> Sum(xss[j]) <= limit
    ensures SumAll(xss) <= |xss| * limit
  {
    if xss != [] {
      SumAllBounded(xss[..|xss| - 1], limit);
      assert |xss| * limit == (|xss| - 1) * limit + limit;
    }
  }

  lemma {:induction false} SumAllEmpty(xss: seq<seq<nat>>)
    requires forall j :: 0 <= j < |xss| ==> xss[j] == []
    ensures SumAll(xss) == 0
  {
    if xss != [] {
      SumAllEmpty(xss[..|xss| - 1]);
    }
  }

  lemma {:induction false} SumTail(xs: seq<nat>)
    requires xs != []
    ensures Sum(xs) == xs[0] + Sum(xs[1..])
  {
    if |xs| > 1 {
      SumTail(xs[..|xs| - 1]);
      assert xs[..|xs| - 1][1..] == xs[1..][..|xs| - 2];
    } else {
      assert xs[1..] == [] && xs[..0] == [];
    }
  }

  /** Stored plus pending rows stay within `bound` but for those admitted on a misread, and no producer
      has more than `limit` pending. */
  ghost predicate Inv(s: State, k: nat, limit: nat, bound: nat) {
    && |s.pending| == k && (forall j :: 0 <= j < k ==> Sum(s.pending[j]) <= limit)
    && s.count + SumAll(s.pending) <= bound + s.misread
  }

  lemma OthersBounded(xss: seq<seq<nat>>, i: nat, limit: nat)
    requires i < |xss| && forall j :: 0 <= j < |xss| ==> Sum(xss[j]) <= limit
    ensures SumAll(xss) <= (|xss| - 1) * limit + Sum(xss[i])
  {
    hide Sum, SumAll;
    var others := xss[..i] + xss[i + 1..];
    assert forall j :: 0 <= j < |others| ==> others[j] == if j < i then xss[j] else xss[j + 1];
    SumAllWithout(xss, i);
    SumAllBounded(others, limit);
    assert |others| == |xss| - 1;
  }

  lemma AdmittedSum(maxItems: nat, s: State, i: nat, elements: seq<nat>, others: int, excess: nat)
    requires i < |s.pending| && s.pending[i] == [] && Admits(maxItems, s.count, elements)
    requires Sum(elements) <= |elements| + excess && SumAll(s.pending) <= others + Sum(s.pending[i])
    ensures s.count + SumAll(s.pending[i := elements]) <= maxItems + others + excess
  {
    SumAllUpdate(s.pending, i, elements);
  }

  lemma AdmittedFits(maxItems: nat, s: State, i: nat, elements: seq<nat>, limit: nat, excess: nat)
    requires i < |s.pending| && s.pending[i] == [] && Admits(maxItems, s.count, elements)
    requires Sum(elements) <= limit && Sum(elements) <= |elements| + excess
    requires forall j :: 0 <= j < |s.pending| ==> Sum(s.pending[j]) <= limit
    ensures s.count + SumAll(s.pending[i := elements]) <= maxItems + (|s.pending| - 1) * limit + excess
  {
    hide Sum, SumAll, Admits;
    OthersBounded(s.pending, i, limit);
    AdmittedSum(maxItems, s, i, elements, (|s.pending| - 1) * limit, excess);
  }

  lemma {:induction false} SumAllWithout(xss: seq<seq<nat>>, i: nat)
    requires i < |xss|
    ensures SumAll(xss) == SumAll(xss[..i] + xss[i + 1..]) + Sum(xss[i])
  {
    var k := |xss| - 1;
    if i == k {
      assert xss[..i] + xss[i + 1..] == xss[..k];
    } else {
      var rest := xss[..i] + xss[i + 1..];
      assert rest[..k - 1] == xss[..k][..i] + xss[..k][i + 1..] && rest[k - 1] == xss[k];
      SumAllWithout(xss[..k], i);
    }
  }

  lemma StepKeeps(maxItems: nat, limit: nat, excess: nat, s: State, step: Step, k: nat, bound: nat)
    requires Can(s, step) && Within(step, limit, excess) && Inv(s, k, limit, bound)
    requires bound >= maxItems + (k - 1) * limit + excess
    ensures Inv(Do(maxItems, s, step), k, limit, bound)
  {
    match step
    case Check(i, elements, _) =>
      if Admits(maxItems, s.count, elements) {
        AdmittedFits(maxItems, s, i, elements, limit, excess);
      }
      SumAllUpdate(s.pending, i, elements);
    case StoreNext(i, rows) =>
      SumTail(s.pending[i]);
      SumAllUpdate(s.pending, i, s.pending[i][1..]);
    case Take(n) =>
    case Crash =>
      SumAllEmpty(Do(maxItems, s, step).pending);
  }

  function Max(a: int, b: int): int {
    if a > b then a else b
  }

  /**
   With `k` producers that each push at most `limit` rows at a time, the rows stored plus the rows
   admitted and not yet stored never exceed the capacity by more than the pushes of the other producers,
   the excess of nested arrays, and what was admitted on misread counts (or what was there at the start).
   */
  lemma {:induction false} CapacityBound(maxItems: nat, limit: nat, excess: nat, k: nat, run: seq<State>, i: nat)
    requires k >= 1 && IsRun(maxItems, limit, excess, k, run) && i < |run|
    ensures run[i].count + SumAll(run[i].pending) <= Max(run[0].count, maxItems + (k - 1) * limit + excess) + run[i].misread
  {
    RunKeeps(maxItems, limit, excess, k, run, i);
  }

  lemma {:induction false} RunKeeps(maxItems: nat, limit: nat, excess: nat, k: nat, run: seq<State>, i: nat)
    requires k >= 1 && IsRun(maxItems, limit, excess, k, run) && i < |run|
    ensures maxItems + (k - 1) * limit + excess >= 0
    ensures Inv(run[i], k, limit, Max(run[0].count, maxItems + (k - 1) * limit + excess))
  {
    if i == 0 {
      SumAllEmpty(run[0].pending);
    } else {
      RunKeeps(maxItems, limit, excess, k, run, i - 1);
      assert Follows(maxItems, limit, excess, run[i - 1], run[i]);
      var step :| Can(run[i - 1], step) && Within(step, limit, excess) && run[i] == Do(maxItems, run[i - 1], step);
      StepKeeps(maxItems, limit, excess, run[i - 1], step, k, Max(run[0].count, maxItems + (k - 1) * limit + excess));
    }
  }

  /** A single producer of plain elements exceeds the capacity at most by what it pushed on misreads. */
  lemma OneProducer(maxItems: nat, limit: nat, run: seq<State>, i: nat)
    requires IsRun(maxItems, limit, 0, 1, run) && run[0].count <= maxItems && i < |run|
    ensures run[i].count <= maxItems + run[i].misread
  {
    CapacityBound(maxItems, limit, 0, 1, run, i);
  }

  // ----- when the capacity itself is kept -----

  /** The rows stored and those admitted and not yet stored. */
  function Held(s: State): nat {
    s.count + SumAll(s.pending)
  }

  /** Producer `i` is admitted with elements whose rows do not fit. */
  ghost predicate OverfillsWith(maxItems: nat, s: State, s': State, i: nat, elements: seq<nat>, readOk: bool) {
    && Can(s, Check(i, elements, readOk)) && s' == Do(maxItems, s, Check(i, elements, readOk))
    && Admits(maxItems, Seen(s.count, readOk), elements) && Held(s) + Sum(elements) > maxItems
  }

  ghost predicate Overfills(maxItems: nat, s: State, s': State) {
    exists i, elements, readOk :: OverfillsWith(maxItems, s, s', i, elements, readOk)
  }

  /** Why elements can be admitted that do not fit: the count could not be read, an element is an array of
      more than one, or another producer was admitted and has not stored its elements yet. */
  lemma OverfillCauses(maxItems: nat, s: State, s': State, i: nat, elements: seq<nat>, readOk: bool)
    requires OverfillsWith(maxItems, s, s', i, elements, readOk)
    ensures !readOk || Sum(elements) > |elements| || exists j :: 0 <= j < |s.pending| && j != i && s.pending[j] != []
  {
    if forall j :: 0 <= j < |s.pending| && j != i ==> s.pending[j] == [] {
      SumAllEmpty(s.pending);
    }
  }

  lemma HeldStep(maxItems: nat, s: State, step: Step)
    requires Can(s, step) && Held(s) <= maxItems
    ensures Held(Do(maxItems, s, step)) > maxItems <==> Overfills(maxItems, s, Do(maxItems, s, step))
  {
    var s' := Do(maxItems, s, step);
    match step {
      case Check(i, elements, readOk) =>
        SumAllUpdate(s.pending, i, elements);
        hide SumAll;
        if Held(s') > maxItems {
          assert OverfillsWith(maxItems, s, s', i, elements, readOk);
        }
      case StoreNext(i, rows) =>
        SumTail(s.pending[i]);
        SumAllUpdate(s.pending, i, s.pending[i][1..]);
      case Take(_) =>
      case Crash =>
        SumAllEmpty(s'.pending);
    }
    if Overfills(maxItems, s, s') {
      OverfillHeld(maxItems, s, s');
    }
  }

  lemma OverfillHeld(maxItems: nat, s: State, s': State)
    requires Overfills(maxItems, s, s')
    ensures Held(s') > maxItems
  {
    var i, elements, readOk :| OverfillsWith(maxItems, s, s', i, elements, readOk);
    SumAllUpdate(s.pending, i, elements);
  }

  ghost predicate WithinCapacity(maxItems: nat, run: seq<State>, i: nat)
    requires i < |run|
  {
    forall j :: 0 <= j <= i ==> Held(run[j]) <= maxItems
  }

  /**
   For any number of producers, the rows stored and admitted stay within the capacity up to some point
   of a run exactly when no push was admitted until then that did not fit.
   */
  lemma {:induction false} CapacityKeptIff(maxItems: nat, limit: nat, excess: nat, k: nat, run: seq<State>, i: nat)
    requires IsRun(maxItems, limit, excess, k, run) && run[0].count <= maxItems && i < |run|
    ensures WithinCapacity(maxItems, run, i) <==> forall j :: 0 < j <= i ==> !Overfills(maxItems, run[j - 1], run[j])
  {
    if i == 0 {
      SumAllEmpty(run[0].pending);
    } else {
      CapacityKeptIff(maxItems, limit, excess, k, run, i - 1);
      hide Overfills, Held, Do;
      assert Follows(maxItems, limit, excess, run[i - 1], run[i]);
      var step :| Can(run[i - 1], step) && Within(step, limit, excess) && run[i] == Do(maxItems, run[i - 1], step);
      if WithinCapacity(maxItems, run, i - 1) {
        HeldStep(maxItems, run[i - 1], step);
      }
    }
  }

  // ----- the bound is reached -----

  function Ones(n: nat): (r: seq<nat>)
    ensures |r| == n && Sum(r) == n
  {
    if n == 0 then [] else
      var r := Ones(n - 1) + [1];
      assert r[..n - 1] == Ones(n - 1);
      r
  }

  /** The first `j` of `k` producers admitted with `limit` elements each. */
  function Crowd(k: nat, j: nat, limit: nat): (r: seq<seq<nat>>)
    ensures |r| == k && forall i :: 0 <= i < k ==> r[i] == if i < j then Ones(limit) else []
  {
    seq(k, i => if i < j then Ones(limit) else [])
  }

  lemma OneMoreTime(a: nat, b: nat)
    requires a > 0
    ensures a * b == (a - 1) * b + b
  {
  }

  lemma {:induction false} CrowdSum(k: nat, limit: nat)
    ensures SumAll(Crowd(k, k, limit)) == k * limit
    decreases k
  {
    if k > 0 {
      var crowd := Crowd(k, k, limit);
      assert crowd[..k - 1] == Crowd(k - 1, k - 1, limit) && Sum(crowd[k - 1]) == limit;
      hide Crowd, Sum;
      CrowdSum(k - 1, limit);
      OneMoreTime(k, limit);
    }
  }

  lemma CrowdNext(k: nat, i: nat, limit: nat)
    requires i < k
    ensures Crowd(k, i, limit)[i] == [] && Crowd(k, i, limit)[i := Ones(limit)] == Crowd(k, i + 1, limit)
  {
    hide Ones, Crowd;
  }

  lemma CrowdStep(maxItems: nat, limit: nat, k: nat, i: nat)
    requires i < k && 1 <= limit <= maxItems
    ensures var c := maxItems - limit;
            Follows(maxItems, limit, 0, State(c, Crowd(k, i, limit), 0), State(c, Crowd(k, i + 1, limit), 0))
  {
    hide Ones, Crowd, Sum;
    var s, step := State(maxItems - limit, Crowd(k, i, limit), 0), Check(i, Ones(limit), true);
    CrowdNext(k, i, limit);
    assert Can(s, step) && Within(step, limit, 0);
    assert State(maxItems - limit, Crowd(k, i + 1, limit), 0) == Do(maxItems, s, step);
  }

  /** All `k` producers read the count before any of them stores: the bound is attained. */
  lemma BoundIsReached(maxItems: nat, limit: nat, k: nat) returns (run: seq<State>)
    requires k >= 1 && 1 <= limit <= maxItems
    ensures IsRun(maxItems, limit, 0, k, run)
    ensures var s := run[|run| - 1]; s.count + SumAll(s.pending) == maxItems + (k - 1) * limit && s.misread == 0
  {
    hide Follows, SumAll;
    var c := maxItems - limit;
    run := seq(k + 1, j requires 0 <= j <= k => State(c, Crowd(k, j, limit), 0));
    forall i | 0 < i < |run| ensures Follows(maxItems, limit, 0, run[i - 1], run[i]) {
      CrowdStep(maxItems, limit, k, i - 1);
    }
    CrowdSum(k, limit);
    OneMoreTime(k, limit);
  }

  lemma MisreadStep(maxItems: nat, limit: nat, k: nat, i: nat, misread: nat)
    requires i < k && 1 <= limit <= maxItems
    ensures Follows(maxItems, limit, 0, State(maxItems, Crowd(k, i, limit), misread), State(maxItems, Crowd(k, i + 1, limit), misread + limit))
  {
    hide Sum, Ones, Crowd;
    var s, step := State(maxItems, Crowd(k, i, limit), misread), Check(i, Ones(limit), false);
    CrowdNext(k, i, limit);
    assert Can(s, step) && Within(step, limit, 0);
    assert State(maxItems, Crowd(k, i + 1, limit), misread + limit) == Do(maxItems, s, step);
  }

  /** The queue is full and no producer can read the count: every one of them pushes its plain elements,
      a single producer too, and what is admitted on misread counts comes on top of the capacity. */
  lemma MisreadsOverfill(maxItems: nat, limit: nat, k: nat) returns (run: seq<State>)
    requires k >= 1 && 1 <= limit <= maxItems
    ensures IsRun(maxItems, limit, 0, k, run) && run[0].count == maxItems
    ensures var s := run[|run| - 1]; s.count + SumAll(s.pending) == maxItems + k * limit && s.misread == k * limit
  {
    hide Follows, SumAll;
    run := seq(k + 1, j requires 0 <= j <= k => State(maxItems, Crowd(k, j, limit), j * limit));
    forall i | 0 < i < |run| ensures Follows(maxItems, limit, 0, run[i - 1], run[i]) {
      MisreadStep(maxItems, limit, k, i - 1, (i - 1) * limit);
      OneMoreTime(i, limit);
    }
    CrowdSum(k, limit);
  }

  /** One element that is an array of many is admitted as one: a single producer overfills the queue. */
  lemma NestedArrayOverfills(maxItems: nat, w: nat) returns (run: seq<State>)
    requires maxItems >= 1 && w >= 1
    ensures IsRun(maxItems, w, w - 1, 1, run)
    ensures run[0].count == maxItems - 1 && run[|run| - 1].count == maxItems - 1 + w && run[|run| - 1].misread == 0
  {
    var s0 := State(maxItems - 1, [[]], 0);
    var s1 := State(maxItems - 1, [[w]], 0);
    var s2 := State(maxItems - 1 + w, [[]], 0);
    run := [s0, s1, s2];
    assert Sum([w]) == w by {
      assert [w][..0] == [];
    }
    assert s1.pending[0][1..] == [];
    assert s1.pending[0 := []] == s2.pending;
    var check, store := Check(0, [w], true), StoreNext(0, w);
    assert Can(s0, check) && Within(check, w, w - 1) && s1 == Do(maxItems, s0, check);
    assert Can(s1, store) && Within(store, w, w - 1) && s2 == Do(maxItems, s1, store);
    assert Follows(maxItems, w, w - 1, s0, s1) && Follows(maxItems, w, w - 1, s1, s2);
  }
}
