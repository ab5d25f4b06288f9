/**
 The communicator's request loop, in the order of its statements. It is proved to take steps of the
 delivery machine, so what holds over every run of the machine holds of it.
 */
module QueueSender {
  import opened Paths
  import opened QueueTable
  import opened QueueBatch
  import opened QueueStorage
  import opened QueueLive
  import opened QueueDelivery

  lemma Take(start: State, s: State, step: Step)
    requires Reaches(start, s, Follows) && Inv(s) && Can(s, step)
    ensures Reaches(start, Do(s, step), Follows) && Inv(Do(s, step))
  {
    hide Inv, Can, Do, Reaches;
    assert Follows(s, Do(s, step));
    ReachesNext(start, s, Do(s, step), Follows);
    StepKeeps(s, step);
  }

  const HTTP_OK := 200
  const HTTP_MULTIPLE_CHOICES := 300

  predicate Success(status: int) {
    HTTP_OK <= status < HTTP_MULTIPLE_CHOICES
  }

  /** One read of a batch: what producers store before it, and whether the database answers. */
  datatype ReadTurn = ReadTurn(arrivals: seq<Fields>, ok: bool)

  /** One turn of the loop as the environment decides it: whether there is a token, the polls, what
      producers store while the request is on its way, the status of the answer, which calls of a removal
      succeed, and whether the agent is stopped before the next turn. When the polls run out without a
      message, the agent was stopped meanwhile. */
  datatype Turn = Turn(token: bool, polls: seq<ReadTurn>, meanwhile: seq<Fields>, status: int,
                       selectOk: bool, deletes: nat -> bool, stops: bool)

  /** Which of the first `n` deletes succeed. */
  function Outcomes(turn: Turn, n: nat): (r: seq<bool>)
    ensures |r| == n && forall i :: 0 <= i < n ==> r[i] == turn.deletes(i)
  {
    seq(n, i requires 0 <= i < n => turn.deletes(i))
  }

  lemma PushInserts(s: State, f: Fields)
    ensures var s' := Do(s, Push(f));
            && s' == s.(live := s'.live, stored := s.stored + [f]) && s.live <= s'.live
            && RowsOf(s'.live) == Insert(RowsOf(s.live), f)
  {
  }

  /** What a read leads to. */
  function AfterRead(s: State, batch: seq<Row>): State
    requires |batch| <= |s.live|
  {
    if batch == [] then s.(pc := Idle)
    else s.(pc := Request(|batch|), body := Messages(batch), sent := PlacesOf(s.live, |batch|))
  }

  lemma ReadLeads(start: State, s: State, n: nat, batch: seq<Row>)
    requires Reaches(start, s, Follows) && Inv(s) && s.pc.Reading? && n >= 1
    requires IsBatch(batch, Select(RowsOf(s.live), EVERYTHING, 0), n)
    ensures |batch| <= |s.live| && (batch == [] ==> RowsOf(s.live) == [])
    ensures Reaches(start, AfterRead(s, batch), Follows) && Inv(AfterRead(s, batch))
  {
    BatchIsOldest(s, n, batch);
    hide Reaches, Inv, IsBatch, Select;
    assert Can(s, Read(n, batch)) && Do(s, Read(n, batch)) == AfterRead(s, batch);
    Take(start, s, Read(n, batch));
  }

  /** What an answer with success leads to. */
  ghost function AfterSuccess(s: State, selectOk: bool, oks: seq<bool>): State
    requires |oks| <= |s.live|
  {
    var gone := Deletes(selectOk, oks);
    s.(pc := Ending, answers := if s.body == [] then s.answers else s.answers + [Answer(s.sent, s.body)],
       live := Kept(s.live, gone), removed := s.removed + TakenPlaces(s.live, gone),
       faults := if AllOk(selectOk, oks) then s.faults else s.faults + 1)
  }

  lemma SuccessAnswers(s: State, selectOk: bool, oks: seq<bool>)
    requires |oks| <= |s.live|
    ensures AfterSuccess(s, selectOk, oks).answers == if s.body == [] then s.answers else s.answers + [Answer(s.sent, s.body)]
  {
  }

  lemma FailLeads(start: State, s: State)
    requires Reaches(start, s, Follows) && Inv(s) && s.pc.Request?
    ensures Reaches(start, s.(pc := Ending), Follows) && Inv(s.(pc := Ending))
  {
    hide Reaches, Inv;
    Take(start, s, Fail);
  }

  lemma SelectedCount(s: State)
    requires Inv(s) && s.pc.Request?
    ensures var k := if s.pc.count == 0 then |s.live| else s.pc.count;
            k <= |s.live| && Select(RowsOf(s.live), EVERYTHING, s.pc.count) == RowsOf(s.live)[..k]
    ensures Ordered(s.live)
  {
    SucceedKeeps(s);
    PopSelects(Do(s, Succeed));
  }

  lemma SuccessSteps(start: State, s: State, selectOk: bool, oks: seq<bool>)
    requires Reaches(start, s, Follows) && Inv(s) && s.pc.Request?
    requires |oks| <= |s.live| && |oks| == |Select(RowsOf(s.live), EVERYTHING, s.pc.count)|
    ensures Reaches(start, AfterSuccess(s, selectOk, oks), Follows) && Inv(AfterSuccess(s, selectOk, oks))
  {
    hide Inv, Reaches, Select, Kept, TakenPlaces;
    Take(start, s, Succeed);
    var t := Do(s, Succeed);
    assert Can(t, Pop(selectOk, oks));
    Take(start, t, Pop(selectOk, oks));
    assert AfterSuccess(s, selectOk, oks) == Do(t, Pop(selectOk, oks));
  }

  /** The rows left are those of the machine. */
  lemma SuccessRows(s: State, selectOk: bool, oks: seq<bool>)
    requires Inv(s) && s.pc.Request?
    requires |oks| <= |s.live| && |oks| == |Select(RowsOf(s.live), EVERYTHING, s.pc.count)|
    ensures RowsOf(AfterSuccess(s, selectOk, oks).live) ==
            if selectOk then Pruned(RowsOf(s.live), Select(RowsOf(s.live), EVERYTHING, s.pc.count), oks) else RowsOf(s.live)
  {
    assert AfterSuccess(s, selectOk, oks).live == Kept(s.live, if selectOk then oks else []);
    hide *;
    SelectedCount(s);
    PrunedIsKept(s.live, oks);
    KeptAll(s.live);
  }

  /** When no call fails, what was read is removed, or everything when nothing was. */
  lemma SuccessRemoves(s: State, turn: Turn, oks: seq<bool>, read: seq<Live>)
    requires |oks| <= |s.live| && read <= s.live && oks == Outcomes(turn, |oks|)
    requires turn.selectOk && forall i :: turn.deletes(i)
    ensures var u := AfterSuccess(s, turn.selectOk, oks);
            && u.faults == s.faults && u.live == s.live[|oks|..]
            && (|oks| <= |read| ==> forall k :: k in u.removed <==> k in s.removed || k in PlacesOf(read, |oks|))
  {
    AllTaken(s.live, oks, read);
    hide Kept, TakenPlaces;
  }

  class Sender {
    const batchSize: nat
    var rows: seq<Row>
    var body: seq<Fields>
    var stopping: bool
    ghost var live: seq<Live>
    ghost var sent: seq<nat>
    ghost var stored: seq<Fields>
    ghost var removed: set<nat>
    ghost var answers: seq<Answer>
    ghost var crashes: nat
    ghost var faults: nat

    ghost function View(pc: Pc): State
      reads this
    {
      State(live, pc, body, sent, stopping, stored, removed, answers, crashes, faults)
    }

    /** The sender is at `pc`, having come from `start` by steps of the machine. */
    ghost predicate At(pc: Pc, start: State)
      reads this
    {
      rows == RowsOf(live) && Reaches(start, View(pc), Follows) && Inv(View(pc))
    }

    lemma NowAt(pc: Pc, start: State)
      requires rows == RowsOf(live) && Reaches(start, View(pc), Follows) && Inv(View(pc))
      ensures At(pc, start)
    {
    }

    /** The producers' messages are stored, whatever the sender is doing. */
    method Arrive(fs: seq<Fields>, ghost pc: Pc, ghost start: State)
      requires At(pc, start)
      modifies this`rows, this`live, this`stored
      ensures At(pc, start)
      ensures stored == old(stored) + fs && old(live) <= live
    {
      hide Reaches, Inv, RowsOf;
      for i := 0 to |fs|
        invariant At(pc, start) && stored == old(stored) + fs[..i] && old(live) <= live
      {
        ghost var s := View(pc);
        Take(start, s, Push(fs[i]));
        PushInserts(s, fs[i]);
        ghost var s' := Do(s, Push(fs[i]));
        hide *;
        rows := Insert(rows, fs[i]);
        live, stored := s'.live, s'.stored;
        assert fs[..i + 1] == fs[..i] + [fs[i]];
        assert View(pc) == s';
        NowAt(pc, start);
      }
      assert fs[..|fs|] == fs;
    }

    /** One read. Only a read that finds a message replaces the body. */
    method ReadBatch(read: ReadTurn, ghost start: State) returns (count: nat)
      requires At(Reading, start) && batchSize >= 1
      modifies this`rows, this`live, this`stored, this`body, this`sent
      ensures At(if count > 0 then Request(count) else Idle, start)
      ensures count > 0 ==> count == |sent| == |body| <= |live| && sent == PlacesOf(live, count)
      ensures count == 0 ==> body == old(body) && sent == old(sent) && (read.ok ==> rows == [])
    {
      hide Reaches, Inv, Select, IsBatch, PlacesOf, RowsOf;
      Arrive(read.arrivals, Reading, start);
      ghost var s := View(Reading);
      if !read.ok {
        Take(start, s, ReadFails);
        return 0;
      }
      hide At;
      AtRows(Reading, start);
      var candidates := Select(rows, EVERYTHING, 0);
      var messages := ProcessRequest(candidates, batchSize);
      ReadLeads(start, s, batchSize, candidates[..|messages|]);
      count := |messages|;
      if count > 0 {
        body := messages;
        sent := PlacesOf(live, count);
      }
      NowAt(if count > 0 then Request(count) else Idle, start);
    }

    /** Reads until there is a batch or the agent is stopped. Without a batch the body is still that of
        the request before, and a last read that succeeded found nothing stored. */
    method GetMessages(polls: seq<ReadTurn>, ghost start: State) returns (count: nat)
      requires At(Idle, start) && batchSize >= 1
      modifies this`rows, this`live, this`stored, this`body, this`sent, this`stopping
      ensures At(Request(count), start)
      ensures count > 0 ==> count == |sent| == |body| <= |live| && sent == PlacesOf(live, count)
      ensures count == 0 ==> body == old(body) && sent == old(sent) && stopping
      ensures count == 0 && !old(stopping) && polls != [] && polls[|polls| - 1].ok ==> rows == []
    {
      hide Reaches, Inv, PlacesOf;
      var i := 0;
      while i < |polls| && !stopping
        invariant 0 <= i <= |polls| && stopping == old(stopping) && (stopping ==> i == 0)
        invariant At(Idle, start) && body == old(body) && sent == old(sent)
        invariant i > 0 && polls[i - 1].ok ==> rows == []
        decreases |polls| - i
      {
        Take(start, View(Idle), Check);
        count := ReadBatch(polls[i], start);
        if count > 0 {
          return;
        }
        i := i + 1;
      }
      if !stopping {
        Take(start, View(Idle), Step.Stop);
        stopping := true;
      }
      Take(start, View(Idle), Check);
      count := 0;
    }

    /** The answer was a success: what the body held is acknowledged, and as many of the oldest rows as
        were read are removed one by one. */
    method OnSuccess(count: nat, turn: Turn, ghost start: State)
      requires At(Request(count), start)
      modifies this`rows, this`live, this`removed, this`answers, this`faults
      ensures At(Ending, start)
      ensures count <= |old(live)|
      ensures View(Ending) == AfterSuccess(old(View(Request(count))), turn.selectOk,
                                           Outcomes(turn, if count == 0 then |old(live)| else count))
    {
      hide Reaches, Inv, RowsOf, Select, Kept, TakenPlaces, PlacesOf;
      ghost var s := View(Request(count));
      SelectedCount(s);
      var selected := Select(rows, EVERYTHING, count);
      var oks := Outcomes(turn, |selected|);
      SuccessSteps(start, s, turn.selectOk, oks);
      SuccessRows(s, turn.selectOk, oks);
      ghost var u := AfterSuccess(s, turn.selectOk, oks);
      hide *;
      if turn.selectOk {
        rows := Pruned(rows, selected, oks);
      }
      live, removed, answers, faults := u.live, u.removed, u.answers, u.faults;
      assert View(Ending) == u;
      NowAt(Ending, start);
    }

    /** The end of a turn: a stopped agent leaves the loop. */
    method EndTurn(stops: bool, ghost start: State)
      requires At(Ending, start)
      modifies this`stopping
      ensures stopping == (stops || old(stopping)) && At(if stopping then Done else Top, start)
    {
      if stops {
        Take(start, View(Ending), Step.Stop);
        stopping := true;
      }
      Take(start, View(Ending), Loop);
    }

    /** One turn: read a batch, send it, and on success remove as many messages as were read. */
    method ExecuteRequest(turn: Turn, ghost start: State) returns (count: nat)
      requires batchSize >= 1 && At(Top, start)
      modifies this
      ensures At(if stopping then Done else Top, start)
      // without a token nothing is sent, acknowledged or removed
      ensures !turn.token ==> count == 0 && live == old(live) && body == old(body)
      ensures !turn.token || !(200 <= turn.status < 300) ==> answers == old(answers) && removed == old(removed) && faults == old(faults)
      // a success acknowledges the body, whether it is a new batch or that of an earlier request
      ensures turn.token && 200 <= turn.status < 300 ==>
        answers == if body == [] then old(answers) else old(answers) + [Answer(sent, body)]
      // only a stopped agent sends without a batch, and then the body is an earlier one
      ensures turn.token && count == 0 ==> stopping && body == old(body) && sent == old(sent)
      ensures count > 0 ==> count == |body| == |sent|
      // when no call fails, what was sent is removed; without a batch everything is
      ensures turn.token && 200 <= turn.status < 300 && turn.selectOk && (forall i :: turn.deletes(i)) ==>
        && faults == old(faults)
        && (if count == 0 then live == [] else forall k :: k in removed <==> k in old(removed) || k in sent)
    {
      hide Reaches, Inv, TakenPlaces;
      Take(start, View(Top), Token(turn.token));
      if !turn.token {
        EndTurn(turn.stops, start);
        return 0;
      }
      count := GetMessages(turn.polls, start);
      Send(turn, count, start);
      EndTurn(turn.stops, start);
    }

    /** The request on its way and its answer. */
    method Send(turn: Turn, count: nat, ghost start: State)
      requires At(Request(count), start) && (count > 0 ==> count == |sent| <= |live| && sent == PlacesOf(live, count))
      modifies this`rows, this`live, this`stored, this`removed, this`answers, this`faults
      ensures At(Ending, start)
      ensures !Success(turn.status) ==> answers == old(answers) && removed == old(removed) && faults == old(faults)
      ensures Success(turn.status) ==> answers == if body == [] then old(answers) else old(answers) + [Answer(sent, body)]
      ensures Success(turn.status) && turn.selectOk && (forall i :: turn.deletes(i)) ==>
        && faults == old(faults)
        && (if count == 0 then live == [] else forall k :: k in removed <==> k in old(removed) || k in sent)
    {
      hide Reaches, Inv, At, AfterSuccess, Kept, TakenPlaces, PlacesOf, RowsOf;
      ghost var read := live;
      Arrive(turn.meanwhile, Request(count), start);
      ghost var s := View(Request(count));
      AtRows(Request(count), start);
      if Success(turn.status) {
        OnSuccess(count, turn, start);
        ghost var oks := Outcomes(turn, if count == 0 then |s.live| else count);
        SuccessAnswers(s, turn.selectOk, oks);
        if turn.selectOk && forall i :: turn.deletes(i) {
          SuccessRemoves(s, turn, oks, read);
        }
      } else {
        FailLeads(start, s);
        assert View(Ending) == s.(pc := Ending);
        NowAt(Ending, start);
      }
    }

    lemma AtRows(pc: Pc, start: State)
      requires At(pc, start)
      ensures rows == RowsOf(live) && Reaches(start, View(pc), Follows) && Inv(View(pc))
    {
    }

    /** The whole loop: turns until the agent is stopped. A request is acknowledged exactly when it
        carried messages and was answered with success. */
    method ExecuteRequestLoop(turns: seq<Turn>, ghost start: State) returns (sizes: seq<nat>)
      requires batchSize >= 1 && At(Top, start)
      modifies this
      ensures |sizes| <= |turns| && (|sizes| < |turns| ==> stopping)
      ensures At(if sizes != [] && stopping then Done else Top, start)
      ensures |answers| == |old(answers)| + Acknowledgements(turns[..|sizes|], sizes)
    {
      hide Reaches, Inv;
      sizes := [];
      while |sizes| < |turns| && (sizes == [] || !stopping)
        invariant |sizes| <= |turns| && At(if sizes != [] && stopping then Done else Top, start)
        invariant |answers| == |old(answers)| + Acknowledgements(turns[..|sizes|], sizes)
        decreases |turns| - |sizes|
      {
        var i := |sizes|;
        var _ := ExecuteRequest(turns[i], start);
        assert turns[..i + 1][..i] == turns[..i] && (sizes + [|body|])[..i] == sizes;
        sizes := sizes + [|body|];
      }
    }
  }

  lemma KeptAll(live: seq<Live>)
    ensures Kept(live, []) == live
  {
  }

  /** When no delete fails, what was selected is taken: the oldest rows, which are still those that were
      read, or all. */
  lemma AllTaken(live: seq<Live>, oks: seq<bool>, read: seq<Live>)
    requires |oks| <= |live| && read <= live
    ensures (forall i :: 0 <= i < |oks| ==> oks[i]) ==> Kept(live, oks) == live[|oks|..]
    ensures (forall i :: 0 <= i < |oks| ==> oks[i]) && |oks| <= |read| ==>
              forall k :: k in TakenPlaces(live, oks) <==> k in PlacesOf(read, |oks|)
  {
    if forall i :: 0 <= i < |oks| ==> oks[i] {
      KeptRest(live, oks);
      if |oks| <= |read| {
        forall k ensures Taken(live, oks, k) <==> k in PlacesOf(read, |oks|) {
          if k in PlacesOf(read, |oks|) {
            var i :| 0 <= i < |oks| && PlacesOf(read, |oks|)[i] == k;
            assert oks[i] && live[i].at == k;
          }
          if Taken(live, oks, k) {
            var i :| 0 <= i < |oks| && oks[i] && live[i].at == k;
            assert PlacesOf(read, |oks|)[i] == k;
          }
        }
      }
    }
  }

  /** How many turns sent messages and were answered with success. */
  function Acknowledgements(turns: seq<Turn>, sizes: seq<nat>): nat
    requires |turns| == |sizes|
  {
    if turns == [] then 0
    else
      var n := |turns| - 1;
      Acknowledgements(turns[..n], sizes[..n]) + if turns[n].token && 200 <= turns[n].status < 300 && sizes[n] > 0 then 1 else 0
  }
}
