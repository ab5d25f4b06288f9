/** What holds over every run of the delivery machine. */
module QueueTheorems {
  import opened Paths
  import opened QueueTable
  import opened QueueBatch
  import opened QueueStorage
  import opened QueueLive
  import opened QueueDelivery

  /**
   In every state of every run, each message ever stored is either live or removed, and live messages
   are in the order they were stored. As long as no removal failed, the live messages are the end of
   the history, so messages are removed in the order they were stored. Every request answered with
   success carried stored messages, in order.
   */
  lemma Conservation(run: seq<State>, i: nat)
    requires IsRun(run) && i < |run|
    ensures var s := run[i];
            && (forall k: nat :: k in s.removed <==> k < |s.stored| && !IsLive(s.live, k))
            && (forall j :: 0 <= j < |s.live| ==> s.live[j].at < |s.stored| && s.stored[s.live[j].at] == s.live[j].row.fields)
            && (forall a, b :: 0 <= a < b < |s.live| ==> s.live[a].at < s.live[b].at)
            && (s.faults == 0 ==> |s.live| <= |s.stored| && Messages(RowsOf(s.live)) == s.stored[|s.stored| - |s.live|..])
            && (forall j :: 0 <= j < |s.answers| ==> Holds(s.answers[j].sent, s.answers[j].body, s.stored))
  {
    RunKeeps(run, i);
    var s := run[i];
    hide BodyOk, PcOk, AnswersOk, Holds;
    assert s.faults == 0 ==> Messages(RowsOf(s.live)) == s.stored[|s.stored| - |s.live|..];
  }

  /** Only a stopped agent sends a request without a batch, or removes without one. */
  lemma ZeroMeansStopped(run: seq<State>, i: nat)
    requires IsRun(run) && i < |run| && (run[i].pc == Request(0) || run[i].pc == Answered(0))
    ensures run[i].stopping
  {
    RunKeeps(run, i);
  }

  /** What a removal selects is what the acknowledged request carried; without a batch it is everything. */
  lemma RemovesAcknowledged(run: seq<State>, i: nat)
    requires IsRun(run) && i < |run| && run[i].pc.Answered?
    ensures var s := run[i];
            var selected := Select(RowsOf(s.live), EVERYTHING, s.pc.count);
            if s.pc.count == 0 then selected == RowsOf(s.live)
            else Messages(selected) == s.body && Answer(s.sent, s.body) in s.answers
  {
    RunKeeps(run, i);
    var s := run[i];
    PopSelects(s);
    hide Select, PartOk, TailOk, AnswersOk;
    if s.pc.count == 0 {
      assert RowsOf(s.live)[..|s.live|] == RowsOf(s.live);
    } else {
      var selected := RowsOf(s.live)[..s.pc.count];
      forall j | 0 <= j < s.pc.count ensures Messages(selected)[j] == s.body[j] {
        assert s.live[j].at == s.sent[j];
      }
      assert Messages(selected) == s.body;
    }
  }

  // ----- messages that are lost -----

  ghost predicate Lost(s: State, k: nat) {
    k in s.removed && !Acknowledged(s, k)
  }

  /** A removal without a batch takes a message that was in no acknowledged request. */
  ghost predicate LosesAt(s: State, s': State, k: nat) {
    s.pc == Answered(0) && IsLive(s.live, k) && !IsLive(s'.live, k) && !Acknowledged(s, k)
  }

  lemma SameAnswers(s: State, s': State, k: nat)
    requires s'.answers == s.answers
    ensures Acknowledged(s', k) <==> Acknowledged(s, k)
  {
  }

  /** A success acknowledges what the request carried, and nothing else. */
  lemma AcknowledgedBySucceed(s: State, k: nat)
    requires s.pc.Request? && |s.sent| == |s.body|
    ensures Acknowledged(Do(s, Succeed), k) <==> Acknowledged(s, k) || k in s.sent
  {
    var s', n := Do(s, Succeed), |s.answers|;
    assert forall j :: 0 <= j < n ==> s'.answers[j] == s.answers[j];
    if Acknowledged(s, k) {
      AcknowledgedStays(s, s', k);
    }
    assert s.body != [] ==> s'.answers[n].sent == s.sent;
    if k in s.sent {
      assert Covers(s'.answers[n], k);
    }
  }

  lemma LostBySucceed(s: State, k: nat)
    requires Inv(s) && s.pc.Request?
    ensures Lost(Do(s, Succeed), k) <==> Lost(s, k)
  {
    AcknowledgedBySucceed(s, k);
    hide Acknowledged, LiveOk, TailOk, AnswersOk, PcOk;
  }

  lemma LostByPop(s: State, readOk: bool, oks: seq<bool>, k: nat)
    requires Inv(s) && Can(s, Pop(readOk, oks))
    ensures Lost(Do(s, Pop(readOk, oks)), k) <==> Lost(s, k) || LosesAt(s, Do(s, Pop(readOk, oks)), k)
  {
    var s', gone := Do(s, Pop(readOk, oks)), Deletes(readOk, oks);
    assert Ordered(s.live) && |gone| <= |oks| && PartOk(s);
    hide Inv, Select;
    SameAnswers(s, s', k);
    KeptPlace(s.live, gone, k);
    if Taken(s.live, gone, k) {
      TakenIsLive(s.live, gone, k);
      if s.pc.count > 0 {
        TakenAcknowledged(s, gone, k);
      }
    }
    hide Acknowledged, Taken, IsLive, Kept;
  }

  /** What the removal of a batch takes was in an acknowledged request. */
  lemma TakenAcknowledged(s: State, gone: seq<bool>, k: nat)
    requires Inv(s) && s.pc.Answered? && s.pc.count > 0 && |gone| <= |Select(RowsOf(s.live), EVERYTHING, s.pc.count)|
    requires |gone| <= |s.live| && Taken(s.live, gone, k)
    ensures Acknowledged(s, k)
  {
    PopSelects(s);
    hide Select, LiveOk, PartOk, TailOk, AnswersOk;
    var i :| 0 <= i < |gone| && gone[i] && s.live[i].at == k;
    var j :| 0 <= j < |s.answers| && s.answers[j] == Answer(s.sent, s.body);
    assert s.sent[i] == k && Covers(s.answers[j], k);
  }

  lemma LostStep(s: State, step: Step, k: nat)
    requires Inv(s) && Can(s, step)
    ensures Lost(Do(s, step), k) <==> Lost(s, k) || LosesAt(s, Do(s, step), k)
  {
    match step
    case Succeed => LostBySucceed(s, k);
    case Pop(readOk, oks) => LostByPop(s, readOk, oks, k);
    case Push(f) =>
      LiveMore(s.live, Do(s, step).live[|s.live|], k);
      SameAnswers(s, Do(s, step), k);
      hide Acknowledged, IsLive;
    case _ =>
      SameAnswers(s, Do(s, step), k);
      hide Acknowledged, IsLive;
  }

  /** A message was removed without ever being acknowledged exactly when, at some point of the run, a
      removal without a batch took it although no acknowledged request had carried it. */
  lemma {:induction false} LostIff(run: seq<State>, i: nat, k: nat)
    requires IsRun(run) && i < |run|
    ensures Lost(run[i], k) <==> exists j :: 0 < j <= i && LosesAt(run[j - 1], run[j], k)
  {
    if i > 0 {
      LostIff(run, i - 1, k);
      RunKeeps(run, i - 1);
      hide Inv, Can, Do, LosesAt, Lost;
      assert Follows(run[i - 1], run[i]);
      var step :| Can(run[i - 1], step) && run[i] == Do(run[i - 1], step);
      LostStep(run[i - 1], step, k);
    }
  }

  // ----- messages acknowledged twice -----

  /** Some message is in two acknowledged requests. */
  ghost predicate Twice(s: State) {
    exists a, b, k :: 0 <= a < b < |s.answers| && Covers(s.answers[a], k) && Covers(s.answers[b], k)
  }

  /** A request on its way carries a message that was acknowledged already. */
  ghost predicate Repeats(s: State) {
    s.pc.Request? && exists k :: k in s.sent && Acknowledged(s, k)
  }

  ghost predicate AnswersAgain(s: State, s': State) {
    Repeats(s) && s' == Do(s, Succeed)
  }

  lemma TwiceStays(s: State, s': State)
    requires Twice(s) && s.answers <= s'.answers
    ensures Twice(s')
  {
    var a, b, k :| 0 <= a < b < |s.answers| && Covers(s.answers[a], k) && Covers(s.answers[b], k);
    assert s'.answers[a] == s.answers[a] && s'.answers[b] == s.answers[b];
  }

  lemma AnswersGrow(s: State)
    requires Inv(s) && s.pc.Request?
    ensures Do(s, Succeed).answers == if s.sent == [] then s.answers else s.answers + [Answer(s.sent, s.body)]
  {
    hide LiveOk, PartOk, TailOk, AnswersOk, PcOk;
  }

  lemma RepeatedAnswer(s: State, answers: seq<Answer>)
    requires Repeats(s) && answers == s.answers + [Answer(s.sent, s.body)]
    ensures exists a, b, k :: 0 <= a < b < |answers| && Covers(answers[a], k) && Covers(answers[b], k)
  {
    var k :| k in s.sent && Acknowledged(s, k);
    var j :| 0 <= j < |s.answers| && Covers(s.answers[j], k);
    assert Covers(answers[j], k) && Covers(answers[|s.answers|], k);
  }

  lemma TwiceBySucceed(s: State)
    requires Inv(s) && s.pc.Request?
    ensures Twice(Do(s, Succeed)) <==> Twice(s) || Repeats(s)
  {
    AnswersGrow(s);
    var s' := Do(s, Succeed);
    hide Inv, Do, Acknowledged;
    if Twice(s) {
      TwiceStays(s, s');
    }
    if Repeats(s) {
      RepeatedAnswer(s, s'.answers);
    }
    if Twice(s') {
      TwiceFrom(s, s');
    }
  }

  lemma TwiceFrom(s: State, s': State)
    requires s'.answers == s.answers + [Answer(s.sent, s.body)] || s'.answers == s.answers
    requires Twice(s')
    ensures Twice(s) || (exists k :: k in s.sent && Acknowledged(s, k))
  {
    var a, b, k :| 0 <= a < b < |s'.answers| && Covers(s'.answers[a], k) && Covers(s'.answers[b], k);
    assert s'.answers[a] == s.answers[a];
    if b == |s.answers| {
      assert Covers(s.answers[a], k) && k in s.sent;
    } else {
      assert s'.answers[b] == s.answers[b];
    }
  }

  lemma TwiceStep(s: State, step: Step)
    requires Inv(s) && Can(s, step)
    ensures Twice(Do(s, step)) <==> Twice(s) || AnswersAgain(s, Do(s, step))
  {
    if step.Succeed? {
      TwiceBySucceed(s);
    } else {
      hide Twice, Repeats;
      assert Do(s, step).answers == s.answers;
      TwiceSame(s, Do(s, step));
      if s.pc.Request? && Do(s, step) == Do(s, Succeed) {
        assert false;
      }
    }
  }

  lemma TwiceSame(s: State, s': State)
    requires s'.answers == s.answers
    ensures Twice(s') <==> Twice(s)
  {
  }

  /** A message is in two acknowledged requests exactly when, at some point of the run, a request that
      carried a message acknowledged already was answered with success. */
  lemma {:induction false} TwiceIff(run: seq<State>, i: nat)
    requires IsRun(run) && i < |run|
    ensures Twice(run[i]) <==> exists j :: 0 < j <= i && AnswersAgain(run[j - 1], run[j])
  {
    if i > 0 {
      TwiceIff(run, i - 1);
      RunKeeps(run, i - 1);
      hide Inv, Can, Do, AnswersAgain, Twice;
      assert Follows(run[i - 1], run[i]);
      var step :| Can(run[i - 1], step) && run[i] == Do(run[i - 1], step);
      TwiceStep(run[i - 1], step);
    }
  }

  // ----- runs without crashes and failed removals -----

  predicate Smooth(s: State) {
    s.crashes == 0 && s.faults == 0
  }

  ghost predicate BodyAnswered(s: State) {
    Answer(s.sent, s.body) in s.answers
  }

  /** What was acknowledged is not live any more, unless it is just about to be removed; and the body was
      either answered as a whole or not at all. */
  ghost predicate SmoothOk(s: State) {
    Smooth(s) ==>
      && (forall i :: 0 <= i < |s.live| && Acknowledged(s, s.live[i].at) ==> s.pc.Answered? && s.live[i].at in s.sent)
      && (BodyAnswered(s) || forall k :: k in s.sent ==> !Acknowledged(s, k))
  }

  lemma SmoothPush(s: State, f: Fields)
    requires Inv(s) && SmoothOk(s)
    ensures SmoothOk(Do(s, Push(f)))
  {
    var s' := Do(s, Push(f));
    hide LiveOk, PartOk, TailOk, BodyOk, PcOk;
    forall k ensures Acknowledged(s', k) <==> Acknowledged(s, k) {
      SameAnswers(s, s', k);
    }
    NotYetAcknowledged(s, |s.stored|);
    hide Acknowledged, AnswersOk;
  }

  lemma NotYetAcknowledged(s: State, k: nat)
    requires AnswersOk(s) && k >= |s.stored|
    ensures !Acknowledged(s, k)
  {
    forall j | 0 <= j < |s.answers| ensures !Covers(s.answers[j], k) {
      assert Holds(s.answers[j].sent, s.answers[j].body, s.stored);
    }
  }

  lemma SmoothRead(s: State, n: nat, batch: seq<Row>)
    requires Inv(s) && SmoothOk(s) && Can(s, Read(n, batch))
    ensures SmoothOk(Do(s, Read(n, batch)))
  {
    var s' := Do(s, Read(n, batch));
    BatchIsOldest(s, n, batch);
    hide IsBatch, Select, LiveOk, PartOk, TailOk, BodyOk, AnswersOk;
    forall k ensures Acknowledged(s', k) <==> Acknowledged(s, k) {
      SameAnswers(s, s', k);
    }
    hide Acknowledged;
    if batch != [] && Smooth(s) {
      forall k | k in s'.sent ensures !Acknowledged(s', k) {
        var j :| 0 <= j < |s'.sent| && s'.sent[j] == k;
        assert s.live[j].at == k;
      }
    }
  }

  lemma SmoothSucceed(s: State)
    requires Inv(s) && SmoothOk(s) && s.pc.Request?
    ensures SmoothOk(Do(s, Succeed))
  {
    var s' := Do(s, Succeed);
    hide LiveOk, PartOk, TailOk, AnswersOk, PcOk;
    if s.body != [] {
      assert s'.answers[|s.answers|] == Answer(s.sent, s.body);
      assert BodyAnswered(s');
    }
    forall k ensures Acknowledged(s', k) <==> Acknowledged(s, k) || k in s.sent {
      AcknowledgedBySucceed(s, k);
    }
    hide Acknowledged;
  }

  lemma SmoothPop(s: State, readOk: bool, oks: seq<bool>)
    requires Inv(s) && SmoothOk(s) && Can(s, Pop(readOk, oks))
    ensures SmoothOk(Do(s, Pop(readOk, oks)))
  {
    var s' := Do(s, Pop(readOk, oks));
    if Smooth(s') {
      PopSelects(s);
      KeptRest(s.live, oks);
      assert s'.live == s.live[|oks|..] && s'.answers == s.answers && s'.sent == s.sent && s'.body == s.body;
      assert s.pc.count == 0 ==> s'.live == [];
      assert s.pc.count > 0 ==> |oks| == |s.sent|;
      hide Do, Can, Kept, Select, Acknowledged;
      SmoothRest(s, s');
    }
  }

  lemma SmoothRest(s: State, s': State)
    requires Inv(s) && SmoothOk(s) && Smooth(s) && s.pc.Answered?
    requires s'.answers == s.answers && s'.sent == s.sent && s'.body == s.body
    requires s'.live == if s.pc.count == 0 then [] else s.live[|s.sent|..]
    ensures SmoothOk(s')
  {
    forall k ensures Acknowledged(s', k) <==> Acknowledged(s, k) {
      SameAnswers(s, s', k);
    }
    hide Acknowledged, PartOk, TailOk, BodyOk, AnswersOk;
    forall i | 0 <= i < |s'.live| ensures !Acknowledged(s, s'.live[i].at) {
      assert s'.live[i] == s.live[|s.sent| + i];
      assert forall j :: 0 <= j < |s.sent| ==> s.sent[j] == s.live[j].at;
    }
  }

  lemma SmoothStep(s: State, step: Step)
    requires Inv(s) && SmoothOk(s) && Can(s, step)
    ensures SmoothOk(Do(s, step))
  {
    hide Inv;
    match step
    case Push(f) => SmoothPush(s, f);
    case Read(n, batch) => SmoothRead(s, n, batch);
    case Succeed => SmoothSucceed(s);
    case Pop(readOk, oks) => SmoothPop(s, readOk, oks);
    case _ =>
      var s' := Do(s, step);
      forall k ensures Acknowledged(s', k) <==> Acknowledged(s, k) {
        SameAnswers(s, s', k);
      }
      hide Acknowledged;
  }

  lemma {:induction false} SmoothRun(run: seq<State>, i: nat)
    requires IsRun(run) && i < |run|
    ensures SmoothOk(run[i])
  {
    if i > 0 {
      SmoothRun(run, i - 1);
      RunKeeps(run, i - 1);
      hide Inv, Can, Do, SmoothOk;
      assert Follows(run[i - 1], run[i]);
      var step :| Can(run[i - 1], step) && run[i] == Do(run[i - 1], step);
      SmoothStep(run[i - 1], step);
    }
  }

  lemma SmoothBefore(s: State, s': State)
    requires Follows(s, s') && Smooth(s')
    ensures Smooth(s)
  {
  }

  lemma {:induction false} SmoothSince(run: seq<State>, j: nat, i: nat)
    requires IsRun(run) && j <= i < |run| && Smooth(run[i])
    ensures Smooth(run[j])
    decreases i
  {
    if j < i {
      assert Follows(run[i - 1], run[i]);
      SmoothBefore(run[i - 1], run[i]);
      SmoothSince(run, j, i - 1);
    }
  }

  /** The last request of a stopped agent, without a batch, carries the body of a request that was
      answered already, and is answered with success too. */
  ghost predicate LastRequestRepeats(s: State, s': State) {
    s.pc == Request(0) && s.body != [] && BodyAnswered(s) && s' == Do(s, Succeed)
  }

  lemma RepeatsIff(s: State, s': State)
    requires Inv(s) && SmoothOk(s) && Smooth(s)
    ensures AnswersAgain(s, s') <==> LastRequestRepeats(s, s')
  {
    hide LiveOk, PartOk, TailOk, AnswersOk;
    if LastRequestRepeats(s, s') {
      var j :| 0 <= j < |s.answers| && s.answers[j] == Answer(s.sent, s.body);
      assert s.sent[0] in s.sent && Covers(s.answers[j], s.sent[0]);
    }
    if s.pc.Request? && s.pc.count > 0 {
      forall i | 0 <= i < |s.sent| ensures !Acknowledged(s, s.sent[i]) {
        assert s.live[i].at == s.sent[i];
      }
    }
  }

  /**
   Without crashes and failed removals, no message is in two acknowledged requests, except in one way:
   the agent is stopped after a request was answered, and its last request, for which no batch was
   read, is answered with success too.
   */
  lemma DeliveredTwiceIff(run: seq<State>, i: nat)
    requires IsRun(run) && i < |run| && Smooth(run[i])
    ensures Twice(run[i]) <==> exists j :: 0 < j <= i && LastRequestRepeats(run[j - 1], run[j])
  {
    TwiceIff(run, i);
    forall j | 0 < j <= i ensures AnswersAgain(run[j - 1], run[j]) <==> LastRequestRepeats(run[j - 1], run[j]) {
      RunKeeps(run, j - 1);
      SmoothRun(run, j - 1);
      SmoothSince(run, j - 1, i);
      hide Inv, SmoothOk, Do;
      RepeatsIff(run[j - 1], run[j]);
    }
    hide *;
  }

  /** Without crashes and failed removals, a removal without a batch loses exactly the live messages that
      its request did not carry. */
  lemma LastRemovalLoses(run: seq<State>, i: nat, k: nat)
    requires IsRun(run) && i < |run| && Smooth(run[i]) && run[i].pc == Answered(0) && IsLive(run[i].live, k)
    ensures Acknowledged(run[i], k) <==> k in run[i].sent
  {
    var s := run[i];
    RunKeeps(run, i);
    SmoothRun(run, i);
    hide LiveOk, PartOk, TailOk, AnswersOk;
    if k in s.sent {
      var j :| 0 <= j < |s.answers| && s.answers[j] == Answer(s.sent, s.body);
      assert Covers(s.answers[j], k);
    }
  }

  /** The last removal of a stopped agent finds a live message that its request did not carry. */
  ghost predicate LastRemovalExceeds(s: State, s': State) {
    s.pc == Answered(0) && s'.pc.Ending? && exists m :: 0 <= m < |s.live| && s.live[m].at !in s.sent
  }

  lemma LastPop(s: State, step: Step)
    requires Inv(s) && Can(s, step) && s.pc == Answered(0)
    ensures Do(s, step).pc.Ending? <==> step.Pop?
    ensures !step.Pop? ==> forall k :: IsLive(s.live, k) ==> IsLive(Do(s, step).live, k)
    ensures step.Pop? && Smooth(Do(s, step)) ==> Do(s, step).live == []
  {
    hide LiveOk, PartOk, TailOk, AnswersOk, BodyOk;
    if step.Pop? {
      PopSelects(s);
      if AllOk(step.readOk, step.oks) {
        KeptRest(s.live, step.oks);
      }
    } else if step.Push? {
      forall k | IsLive(s.live, k) ensures IsLive(Do(s, step).live, k) {
        LiveMore(s.live, Do(s, step).live[|s.live|], k);
      }
    }
  }

  ghost predicate Loses(s: State, s': State) {
    exists k :: LosesAt(s, s', k)
  }

  /** The step after the last request of a stopped agent was answered: it removes everything, or nothing. */
  lemma LastStep(run: seq<State>, j: nat)
    requires IsRun(run) && 0 < j < |run| && Smooth(run[j]) && run[j - 1].pc == Answered(0)
    ensures run[j].pc.Ending? ==> run[j].live == []
    ensures !run[j].pc.Ending? ==> forall k :: IsLive(run[j - 1].live, k) ==> IsLive(run[j].live, k)
    ensures var s := run[j - 1]; forall k :: IsLive(s.live, k) ==> (Acknowledged(s, k) <==> k in s.sent)
  {
    hide Do, Can, Inv, Smooth, IsLive, Acknowledged;
    var s := run[j - 1];
    RunKeeps(run, j - 1);
    SmoothSince(run, j - 1, j);
    assert Follows(s, run[j]);
    var step :| Can(s, step) && run[j] == Do(s, step);
    LastPop(s, step);
    forall k | IsLive(s.live, k) ensures Acknowledged(s, k) <==> k in s.sent {
      LastRemovalLoses(run, j - 1, k);
    }
  }

  lemma LosesExceeds(run: seq<State>, j: nat)
    requires IsRun(run) && 0 < j < |run| && Smooth(run[j]) && Loses(run[j - 1], run[j])
    ensures LastRemovalExceeds(run[j - 1], run[j])
  {
    hide IsRun, Smooth, Acknowledged;
    var s, s' := run[j - 1], run[j];
    var k :| LosesAt(s, s', k);
    LastStep(run, j);
    var m :| 0 <= m < |s.live| && s.live[m].at == k;
  }

  lemma ExceedsLoses(run: seq<State>, j: nat)
    requires IsRun(run) && 0 < j < |run| && Smooth(run[j]) && LastRemovalExceeds(run[j - 1], run[j])
    ensures Loses(run[j - 1], run[j])
  {
    hide IsRun, Smooth, Acknowledged;
    var s, s' := run[j - 1], run[j];
    var m :| 0 <= m < |s.live| && s.live[m].at !in s.sent;
    LastStep(run, j);
    assert IsLive(s.live, s.live[m].at);
    assert LosesAt(s, s', s.live[m].at);
  }

  /** Without crashes and failed removals, a message is lost exactly when the last removal of a stopped
      agent finds a live message that its request did not carry. */
  lemma SmoothLossIff(run: seq<State>, i: nat)
    requires IsRun(run) && i < |run| && Smooth(run[i])
    ensures (exists k :: Lost(run[i], k)) <==> exists j :: 0 < j <= i && LastRemovalExceeds(run[j - 1], run[j])
  {
    hide IsRun, Lost, LosesAt, LastRemovalExceeds, Smooth;
    if exists k :: Lost(run[i], k) {
      var k :| Lost(run[i], k);
      LostIff(run, i, k);
      var j :| 0 < j <= i && LosesAt(run[j - 1], run[j], k);
      SmoothSince(run, j, i);
      LosesExceeds(run, j);
    }
    if exists j :: 0 < j <= i && LastRemovalExceeds(run[j - 1], run[j]) {
      var j :| 0 < j <= i && LastRemovalExceeds(run[j - 1], run[j]);
      SmoothSince(run, j, i);
      ExceedsLoses(run, j);
      var k :| LosesAt(run[j - 1], run[j], k);
      LostIff(run, i, k);
    }
  }

  // ----- both happen -----

  lemma Extend(run: seq<State>, step: Step) returns (run': seq<State>)
    requires IsRun(run) && Can(run[|run| - 1], step)
    ensures IsRun(run') && run'[|run'| - 1] == Do(run[|run| - 1], step)
  {
    var t := Do(run[|run| - 1], step);
    assert Follows(run[|run| - 1], t);
    hide Follows, Do, Can;
    ChainMore(run, t, Follows);
    run' := run + [t];
  }

  function FirstRow(f: Fields): Row {
    Row(1, f)
  }

  /** The state after one message was stored. */
  function StoredOne(f: Fields): State {
    Init.(live := [Live(FirstRow(f), 0)], stored := [f])
  }

  lemma StoreOne(f: Fields) returns (run: seq<State>)
    ensures IsRun(run) && run[|run| - 1] == StoredOne(f)
  {
    run := Extend([Init], Push(f));
    assert RowsOf(Init.live) == [];
    assert run[|run| - 1] == StoredOne(f);
  }

  lemma SelectOne(r: Row, limit: int)
    ensures Select([r], EVERYTHING, limit) == [r]
  {
    assert [r][1..] == [];
    assert Where([r], EVERYTHING) == [r];
    assert OrderById([r]) == [r];
  }

  /** Whatever the message, there is a run without crash or failure in which it is lost: it is stored, the
      agent is stopped before it reads, and its empty request is answered with success. */
  lemma LossyRun(f: Fields) returns (run: seq<State>)
    ensures IsRun(run) && Smooth(run[|run| - 1]) && run[|run| - 1].stored == [f] && Lost(run[|run| - 1], 0)
  {
    var s := StoredOne(f);
    run := StoreOne(f);
    run := Extend(run, Token(true));
    run := Extend(run, Step.Stop);
    run := Extend(run, Check);
    run := Extend(run, Succeed);
    var t := s.(pc := Answered(0), stopping := true);
    assert run[|run| - 1] == t;
    SelectOne(FirstRow(f), 0);
    assert RowsOf(t.live) == [FirstRow(f)];
    run := Extend(run, Pop(true, [true]));
    KeptRest(t.live, [true]);
    var u := run[|run| - 1];
    assert Taken(t.live, [true], 0) by { assert [true][0] && t.live[0].at == 0; }
    assert AllOk(true, [true]);
    assert u.answers == [];
  }

  lemma SendOne(f: Fields) returns (run: seq<State>)
    ensures IsRun(run)
    ensures run[|run| - 1] == StoredOne(f).(pc := Answered(1), body := [f], sent := [0], answers := [Answer([0], [f])])
  {
    run := ReadOne(f);
    run := Extend(run, Succeed);
    assert run[|run| - 1].answers == [Answer([0], [f])];
  }

  lemma ReadOne(f: Fields) returns (run: seq<State>)
    ensures IsRun(run) && run[|run| - 1] == StoredOne(f).(pc := Request(1), body := [f], sent := [0])
  {
    var s, row := StoredOne(f), FirstRow(f);
    run := StoreOne(f);
    run := Extend(run, Token(true));
    run := Extend(run, Check);
    assert run[|run| - 1] == s.(pc := Reading);
    ReadsOne(f);
    run := Extend(run, Read(1, [row]));
  }

  lemma ReadsOne(f: Fields)
    ensures var s, row := StoredOne(f).(pc := Reading), FirstRow(f);
            && Can(s, Read(1, [row]))
            && Do(s, Read(1, [row])) == StoredOne(f).(pc := Request(1), body := [f], sent := [0])
  {
    var s, row := StoredOne(f).(pc := Reading), FirstRow(f);
    SelectOne(row, 0);
    assert RowsOf(s.live) == [row];
    assert IsBatch([row], [row], 1) by { assert [row][..0] == []; }
    assert Messages([row]) == [f] && PlacesOf(s.live, 1) == [0];
  }

  /** Whatever the message, there is a run without crash or failure in which it is in two acknowledged
      requests: it is sent and acknowledged, the agent is stopped, and its last request carries it again. */
  lemma TwiceRun(f: Fields) returns (run: seq<State>)
    ensures IsRun(run) && Smooth(run[|run| - 1]) && run[|run| - 1].stored == [f]
    ensures run[|run| - 1].answers == [Answer([0], [f]), Answer([0], [f])] && Twice(run[|run| - 1])
  {
    run := SendOne(f);
    var t := run[|run| - 1];
    SelectOne(FirstRow(f), 1);
    assert RowsOf(t.live) == [FirstRow(f)];
    run := Extend(run, Pop(true, [true]));
    KeptRest(t.live, [true]);
    assert AllOk(true, [true]);
    var u := run[|run| - 1];
    assert u == t.(live := [], pc := Ending, removed := u.removed);
    run := Extend(run, Loop);
    run := Extend(run, Token(true));
    run := Extend(run, Step.Stop);
    run := Extend(run, Check);
    assert run[|run| - 1] == u.(pc := Request(0), stopping := true);
    run := Extend(run, Succeed);
    var v := run[|run| - 1];
    assert v.answers == [Answer([0], [f]), Answer([0], [f])];
    assert Covers(v.answers[0], 0) && Covers(v.answers[1], 0);
  }
}
