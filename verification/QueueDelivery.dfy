/**
 Delivery of queued messages: any number of producers store messages while one sender reads a batch,
 sends it, and removes it once the server has answered with success. Steps of the two interleave
 freely. Reads and deletes may fail, the agent may be stopped or crash between any two steps, and a
 restarted sender starts over.
 */
module QueueDelivery {
  import opened Paths
  import opened QueueTable
  import opened QueueBatch
  import opened QueueStorage
  import opened QueueLive

  datatype Pc =
    | Top                      // at the head of the loop
    | Idle                     // about to look whether the agent was stopped
    | Reading                  // about to read a batch
    | Request(count: nat)      // a request is on its way; `count` messages were read for it
    | Answered(count: nat)     // answered with success; about to remove `count` messages
    | Ending                   // at the end of the loop
    | Done

  /** A request answered with success: its messages, and their places in the history. */
  datatype Answer = Answer(sent: seq<nat>, body: seq<Fields>)

  /** `stored` are the messages ever stored, in order; `removed` the places of those removed. `body` is
      what the last request carried, from the places `sent`; it is kept for the next request unless a
      batch replaces it. `crashes` counts restarts, and `faults` the removals in which something failed. */
  datatype State = State(live: seq<Live>, pc: Pc, body: seq<Fields>, sent: seq<nat>, stopping: bool,
                         stored: seq<Fields>, removed: set<nat>, answers: seq<Answer>, crashes: nat, faults: nat)

  const Init := State([], Top, [], [], false, [], {}, [], 0, 0)

  datatype Step =
    | Push(f: Fields)
    | Stop
    | Token(ok: bool)
    | Check
    | Read(n: nat, batch: seq<Row>)
    | ReadFails
    | Succeed
    | Fail
    | Pop(readOk: bool, oks: seq<bool>)
    | Loop
    | Crash

  ghost predicate Can(s: State, step: Step) {
    match step
    case Push(_) => true
    case Stop => true
    case Token(_) => s.pc.Top?
    case Check => s.pc.Idle?
    case Read(n, batch) => s.pc.Reading? && n >= 1 && IsBatch(batch, Select(RowsOf(s.live), EVERYTHING, 0), n)
    case ReadFails => s.pc.Reading?
    case Succeed => s.pc.Request?
    case Fail => s.pc.Request?
    case Pop(_, oks) => s.pc.Answered? && |oks| == |Select(RowsOf(s.live), EVERYTHING, s.pc.count)| && |oks| <= |s.live|
    case Loop => s.pc.Ending?
    case Crash => true
  }

  /** The deletes that succeed. */
  function Deletes(readOk: bool, oks: seq<bool>): seq<bool> {
    if readOk then oks else []
  }

  predicate AllOk(readOk: bool, oks: seq<bool>) {
    readOk && forall i :: 0 <= i < |oks| ==> oks[i]
  }

  function PlacesOf(live: seq<Live>, k: nat): (r: seq<nat>)
    requires k <= |live|
    ensures |r| == k && forall i :: 0 <= i < k ==> r[i] == live[i].at
  {
    seq(k, i requires 0 <= i < k => live[i].at)
  }

  ghost function TakenPlaces(live: seq<Live>, gone: seq<bool>): (r: set<nat>)
    requires |gone| <= |live|
    ensures forall k :: k in r <==> Taken(live, gone, k)
  {
    set i | 0 <= i < |gone| && gone[i] :: live[i].at
  }

  ghost function Do(s: State, step: Step): State
    requires Can(s, step)
  {
    match step
    case Push(f) => s.(live := s.live + [Live(Row(MaxId(RowsOf(s.live)) + 1, f), |s.stored|)], stored := s.stored + [f])
    case Stop => s.(stopping := true)
    case Token(ok) => s.(pc := if ok then Idle else Ending)
    // a stopped agent sends a last request, with no messages read and the body of the one before
    case Check => s.(pc := if s.stopping then Request(0) else Reading)
    case Read(_, batch) =>
      if batch == [] || |batch| > |s.live| then s.(pc := Idle)
      else s.(pc := Request(|batch|), body := Messages(batch), sent := PlacesOf(s.live, |batch|))
    case ReadFails => s.(pc := Idle)
    case Succeed =>
      s.(pc := Answered(s.pc.count), answers := if s.body == [] then s.answers else s.answers + [Answer(s.sent, s.body)])
    case Fail => s.(pc := Ending)
    case Pop(readOk, oks) =>
      var gone := Deletes(readOk, oks);
      s.(live := Kept(s.live, gone), pc := Ending, removed := s.removed + TakenPlaces(s.live, gone),
         faults := if AllOk(readOk, oks) then s.faults else s.faults + 1)
    case Loop => s.(pc := if s.stopping then Done else Top)
    case Crash => s.(pc := Top, body := [], sent := [], stopping := false, crashes := s.crashes + 1)
  }

  ghost predicate Follows(s: State, s': State) {
    exists step :: Can(s, step) && s' == Do(s, step)
  }

  ghost predicate IsRun(run: seq<State>) {
    Chain(run, Follows) && run[0] == Init
  }

  // ----- what every step keeps -----

  predicate Covers(a: Answer, k: nat) {
    k in a.sent
  }

  /** The message at place `k` was in the body of a request answered with success. */
  ghost predicate Acknowledged(s: State, k: nat) {
    exists j :: 0 <= j < |s.answers| && Covers(s.answers[j], k)
  }

  /** A body holds the messages stored at the places it was read from, in order. */
  predicate Holds(sent: seq<nat>, body: seq<Fields>, stored: seq<Fields>) {
    && |sent| == |body|
    && (forall i :: 0 <= i < |sent| ==> sent[i] < |stored| && body[i] == stored[sent[i]])
    && (forall i, j :: 0 <= i < j < |sent| ==> sent[i] < sent[j])
  }

  /** Live rows are in the order of their messages and hold them. */
  ghost predicate LiveOk(s: State) {
    Ordered(s.live) && forall i :: 0 <= i < |s.live| ==> s.live[i].at < |s.stored| && s.stored[s.live[i].at] == s.live[i].row.fields
  }

  /** Every message ever stored is either live or removed. */
  ghost predicate PartOk(s: State) {
    forall k: nat :: k in s.removed <==> k < |s.stored| && !IsLive(s.live, k)
  }

  ghost predicate AnswersOk(s: State) {
    forall j :: 0 <= j < |s.answers| ==> Holds(s.answers[j].sent, s.answers[j].body, s.stored)
  }

  /** What the body holds is live or was acknowledged. */
  ghost predicate BodyOk(s: State) {
    Holds(s.sent, s.body, s.stored) && forall i :: 0 <= i < |s.sent| ==> IsLive(s.live, s.sent[i]) || Acknowledged(s, s.sent[i])
  }

  /** The batch being sent is the oldest live messages, and stays so whatever is stored meanwhile; only a
      stopped agent sends a request without a batch. */
  ghost predicate PcOk(s: State) {
    s.pc.Request? || s.pc.Answered? ==>
      && (s.pc.count > 0 ==> s.pc.count == |s.sent| <= |s.live| && forall i :: 0 <= i < |s.sent| ==> s.live[i].at == s.sent[i])
      && (s.pc.count == 0 ==> s.stopping)
      && (s.pc.Answered? && s.body != [] ==> Answer(s.sent, s.body) in s.answers)
  }

  /** As long as no removal failed, what is live is the end of the history. */
  ghost predicate TailOk(s: State) {
    s.faults == 0 ==> |s.live| <= |s.stored| && forall i :: 0 <= i < |s.live| ==> s.live[i].at == |s.stored| - |s.live| + i
  }

  ghost predicate Inv(s: State) {
    LiveOk(s) && PartOk(s) && AnswersOk(s) && BodyOk(s) && PcOk(s) && TailOk(s)
  }

  lemma AcknowledgedStays(s: State, s': State, k: nat)
    requires Acknowledged(s, k) && s.answers <= s'.answers
    ensures Acknowledged(s', k)
  {
    var j :| 0 <= j < |s.answers| && Covers(s.answers[j], k);
    assert s'.answers[j] == s.answers[j];
  }

  /** The parts of the invariant that speak of the table do not depend on where the sender is. */
  lemma TableStays(s: State, s': State)
    requires s'.live == s.live && s'.stored == s.stored && s'.removed == s.removed && s'.faults == s.faults
    ensures LiveOk(s) ==> LiveOk(s')
    ensures PartOk(s) ==> PartOk(s')
    ensures TailOk(s) ==> TailOk(s')
  {
  }

  lemma BodyStays(s: State, s': State)
    requires BodyOk(s) && s'.live == s.live && s'.stored == s.stored && s'.body == s.body && s'.sent == s.sent && s.answers <= s'.answers
    ensures BodyOk(s')
  {
    forall i | 0 <= i < |s.sent| ensures IsLive(s'.live, s.sent[i]) || Acknowledged(s', s.sent[i]) {
      if Acknowledged(s, s.sent[i]) {
        AcknowledgedStays(s, s', s.sent[i]);
      }
    }
  }

  lemma LiveMore(live: seq<Live>, l: Live, k: nat)
    ensures IsLive(live + [l], k) <==> IsLive(live, k) || l.at == k
  {
    if IsLive(live, k) {
      var i :| 0 <= i < |live| && live[i].at == k;
      assert (live + [l])[i].at == k;
    }
    assert (live + [l])[|live|] == l;
  }

  lemma PushKeeps(s: State, f: Fields)
    requires Inv(s)
    ensures Inv(Do(s, Push(f)))
  {
    var s' := Do(s, Push(f));
    var l := s'.live[|s.live|];
    forall i | 0 <= i < |s.live| ensures s.live[i].row.id < l.row.id {
      MaxIdBounds(RowsOf(s.live), i);
    }
    forall k ensures IsLive(s'.live, k) <==> IsLive(s.live, k) || k == |s.stored| {
      LiveMore(s.live, l, k);
    }
    hide IsLive;
    PushTable(s, f);
    PushBody(s, f);
    hide LiveOk, PartOk, TailOk, BodyOk, AnswersOk;
  }

  lemma PushTable(s: State, f: Fields)
    requires Inv(s)
    requires forall i :: 0 <= i < |s.live| ==> s.live[i].row.id < MaxId(RowsOf(s.live)) + 1
    requires forall k :: IsLive(Do(s, Push(f)).live, k) <==> IsLive(s.live, k) || k == |s.stored|
    ensures LiveOk(Do(s, Push(f))) && PartOk(Do(s, Push(f))) && TailOk(Do(s, Push(f)))
  {
    hide BodyOk, AnswersOk, PcOk, MaxId;
    var s' := Do(s, Push(f));
    assert LiveOk(s') && TailOk(s');
    forall k: nat | IsLive(s.live, k) ensures k < |s.stored| {
    }
    hide LiveOk, TailOk, IsLive;
    assert PartOk(s');
  }

  lemma PushBody(s: State, f: Fields)
    requires Inv(s)
    requires forall k :: IsLive(Do(s, Push(f)).live, k) <==> IsLive(s.live, k) || k == |s.stored|
    ensures BodyOk(Do(s, Push(f))) && AnswersOk(Do(s, Push(f)))
  {
    hide LiveOk, PartOk, TailOk, IsLive;
    var s' := Do(s, Push(f));
    forall i | 0 <= i < |s.sent| ensures IsLive(s'.live, s.sent[i]) || Acknowledged(s', s.sent[i]) {
      if Acknowledged(s, s.sent[i]) {
        AcknowledgedStays(s, s', s.sent[i]);
      }
    }
  }

  /** A batch of the table is the oldest live messages. */
  lemma BatchIsOldest(s: State, n: nat, batch: seq<Row>)
    requires LiveOk(s) && IsBatch(batch, Select(RowsOf(s.live), EVERYTHING, 0), n)
    ensures |batch| <= |s.live| && batch == RowsOf(s.live)[..|batch|]
    ensures n >= 1 && batch == [] ==> s.live == []
  {
    OrderedRows(s.live);
    SelectsOldest(RowsOf(s.live), EVERYTHING, 0);
    WhereEverything(RowsOf(s.live));
    hide Select, Where, LiveOk;
    assert Total([]) == 0;
    hide Total;
  }

  lemma BatchBody(s: State, batch: seq<Row>)
    requires LiveOk(s) && |batch| <= |s.live| && batch == RowsOf(s.live)[..|batch|]
    ensures Holds(PlacesOf(s.live, |batch|), Messages(batch), s.stored)
    ensures forall i :: 0 <= i < |batch| ==> IsLive(s.live, PlacesOf(s.live, |batch|)[i])
  {
    assert forall i :: 0 <= i < |batch| ==> batch[i] == s.live[i].row;
  }

  lemma ReadKeeps(s: State, n: nat, batch: seq<Row>)
    requires Inv(s) && Can(s, Read(n, batch))
    ensures Inv(Do(s, Read(n, batch)))
  {
    var s' := Do(s, Read(n, batch));
    BatchIsOldest(s, n, batch);
    TableStays(s, s');
    hide IsBatch, Select;
    if batch != [] {
      BatchBody(s, batch);
    } else {
      BodyStays(s, s');
    }
    hide LiveOk, PartOk, TailOk, BodyOk;
  }

  lemma SucceedKeeps(s: State)
    requires Inv(s) && Can(s, Succeed)
    ensures Inv(Do(s, Succeed))
  {
    var s' := Do(s, Succeed);
    TableStays(s, s');
    BodyStays(s, s');
    hide LiveOk, PartOk, TailOk;
    if s.body != [] {
      assert s'.answers[|s.answers|] == Answer(s.sent, s.body);
    }
  }

  /** How many rows a removal selects: as many as were read, or all of them for a count of zero. */
  lemma PopSelects(s: State)
    requires Inv(s) && s.pc.Answered?
    ensures var k := if s.pc.count == 0 then |s.live| else s.pc.count;
            k <= |s.live| && Select(RowsOf(s.live), EVERYTHING, s.pc.count) == RowsOf(s.live)[..k]
  {
    OrderedRows(s.live);
    SelectsOldest(RowsOf(s.live), EVERYTHING, s.pc.count);
    WhereEverything(RowsOf(s.live));
    hide Select, Where, LiveOk, PartOk, TailOk, AnswersOk, BodyOk;
  }

  lemma PopTable(s: State, readOk: bool, oks: seq<bool>)
    requires Inv(s) && Can(s, Pop(readOk, oks))
    ensures LiveOk(Do(s, Pop(readOk, oks))) && PartOk(Do(s, Pop(readOk, oks)))
  {
    var gone := Deletes(readOk, oks);
    hide BodyOk, AnswersOk, PcOk, TailOk, Select;
    KeptOrder(s.live, gone);
    KeptMembers(s.live, gone);
    forall k: nat ensures IsLive(Kept(s.live, gone), k) <==> IsLive(s.live, k) && !Taken(s.live, gone, k) {
      KeptPlace(s.live, gone, k);
    }
    forall k: nat | Taken(s.live, gone, k) ensures k < |s.stored| && IsLive(s.live, k) {
      TakenIsLive(s.live, gone, k);
    }
    var s' := Do(s, Pop(readOk, oks));
    assert LiveOk(s') by {
      hide IsLive, Taken, PartOk;
      forall i | 0 <= i < |s'.live| ensures s'.live[i].at < |s.stored| && s.stored[s'.live[i].at] == s'.live[i].row.fields {
        assert s'.live[i] in s.live;
      }
    }
    hide Kept, IsLive, Taken, LiveOk;
  }

  lemma PopTail(s: State, readOk: bool, oks: seq<bool>)
    requires Inv(s) && Can(s, Pop(readOk, oks))
    ensures TailOk(Do(s, Pop(readOk, oks)))
  {
    hide BodyOk, AnswersOk, PcOk, Select, LiveOk, PartOk;
    if AllOk(readOk, oks) {
      KeptRest(s.live, oks);
    }
    hide Kept;
  }

  lemma PopBody(s: State, readOk: bool, oks: seq<bool>)
    requires Inv(s) && Can(s, Pop(readOk, oks))
    ensures BodyOk(Do(s, Pop(readOk, oks)))
  {
    hide LiveOk, PartOk, TailOk, Select, IsLive, Kept;
    var s' := Do(s, Pop(readOk, oks));
    if s.body != [] {
      var j :| 0 <= j < |s.answers| && s.answers[j] == Answer(s.sent, s.body);
      forall i | 0 <= i < |s.sent| ensures Acknowledged(s', s.sent[i]) {
        assert Covers(s'.answers[j], s.sent[i]);
      }
    }
  }

  lemma PopKeeps(s: State, readOk: bool, oks: seq<bool>)
    requires Inv(s) && Can(s, Pop(readOk, oks))
    ensures Inv(Do(s, Pop(readOk, oks)))
  {
    PopTable(s, readOk, oks);
    PopTail(s, readOk, oks);
    PopBody(s, readOk, oks);
    hide LiveOk, PartOk, TailOk, BodyOk, Select, Kept;
  }

  lemma QuietKeeps(s: State, step: Step)
    requires Inv(s) && Can(s, step)
    requires step.Stop? || step.Token? || step.Check? || step.ReadFails? || step.Fail? || step.Loop? || step.Crash?
    ensures Inv(Do(s, step))
  {
    var s' := Do(s, step);
    TableStays(s, s');
    hide LiveOk, PartOk, TailOk;
    if !step.Crash? {
      BodyStays(s, s');
    }
  }

  lemma StepKeeps(s: State, step: Step)
    requires Inv(s) && Can(s, step)
    ensures Inv(Do(s, step))
  {
    hide Inv, Can, Do;
    match step
    case Push(f) => PushKeeps(s, f);
    case Read(n, batch) => ReadKeeps(s, n, batch);
    case Succeed => SucceedKeeps(s);
    case Pop(readOk, oks) => PopKeeps(s, readOk, oks);
    case _ => QuietKeeps(s, step);
  }

  lemma {:induction false} RunKeeps(run: seq<State>, i: nat)
    requires IsRun(run) && i < |run|
    ensures Inv(run[i])
  {
    if i == 0 {
      assert Inv(Init);
    } else {
      RunKeeps(run, i - 1);
      hide Inv, Can, Do;
      assert Follows(run[i - 1], run[i]);
      var step :| Can(run[i - 1], step) && run[i] == Do(run[i - 1], step);
      StepKeeps(run[i - 1], step);
    }
  }
}
