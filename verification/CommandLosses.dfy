/**
 Deliveries that end without an answer: exactly which steps of a run cause them, and runs that show both.
 */
module CommandLosses {
  import opened Options
  import opened Commands
  import opened CommandMachine
  import opened CommandTheorems

  /** The delivery is neither queued, nor in progress, nor answered. */
  ghost predicate Gone(s: State, n: nat) {
    n < |s.entered| && !Queued(s, n) && !Pending(s, n) && !Reported(s, n)
  }

  /** A failed read pops the head of the queue, which is neither in progress nor answered. */
  ghost predicate MisreadLoses(s: State, s': State, n: nat) {
    && s.pc == Refused(None, n) && s.queue != [] && s' == Do(s, RefusePop(true))
    && !Pending(s, n) && !Reported(s, n)
  }

  /** Recording its result closes the row of a command that is neither queued nor answered. */
  ghost predicate RecordLosesWith(s: State, s': State, n: nat, id: string) {
    && Can(s, Record(id, true)) && s' == Do(s, Record(id, true))
    && s.tasks[id].origin == n && s.tasks[id].phase.result.status !in {IN_PROGRESS, UNKNOWN}
    && !Queued(s, n) && !Reported(s, n)
  }

  ghost predicate RecordLoses(s: State, s': State, n: nat) {
    exists id :: RecordLosesWith(s, s', n, id)
  }

  // ----- rows that are in progress -----

  ghost predicate InProgressRow(s: State, id: string) {
    id in s.store && s.store[id].result.status == IN_PROGRESS
  }

  /** The rows of running commands, and those still to be cleaned up, are in progress. */
  ghost predicate RowsOk(s: State) {
    && (forall id :: id in s.tasks ==> InProgressRow(s, id))
    && (s.pc.Sweep? || s.pc.Swept? ==> forall id :: id in s.pc.todo ==> InProgressRow(s, id))
  }

  lemma RowsKept(s: State, s': State)
    requires RowsOk(s) && s'.store == s.store && (forall id :: id in s'.tasks ==> id in s.tasks)
    requires s'.pc.Sweep? || s'.pc.Swept? ==> forall id :: id in s'.pc.todo ==> InProgressRow(s, id)
    ensures RowsOk(s')
  {
  }

  lemma SweptRows(s: State, ok: bool)
    requires RowsOk(s) && PcOk(s) && Can(s, SweepUpdate(ok))
    ensures RowsOk(Do(s, SweepUpdate(ok)))
  {
    hide UpdateRow, Abandon;
    var s' := Do(s, SweepUpdate(ok));
    var todo := s.pc.todo;
    forall id | s'.pc.Sweep? && id in todo[1..] ensures InProgressRow(s', id) {
      var i :| 0 <= i < |todo[1..]| && todo[1..][i] == id;
      assert todo[i + 1] == id && todo[0] != todo[i + 1];
      assert InProgressRow(s, id);
    }
  }

  lemma StoredRows(s: State, ok: bool)
    requires RowsOk(s) && s.pc.Insert?
    ensures RowsOk(AfterStore(s, ok))
  {
  }

  lemma RecordedRows(s: State, id: string, ok: bool)
    requires RowsOk(s) && PcOk(s) && Can(s, Record(id, ok))
    ensures RowsOk(AfterRecord(s, id, ok))
  {
    hide UpdateRow;
    var s' := AfterRecord(s, id, ok);
    forall k | k in s'.tasks ensures InProgressRow(s', k) {
      assert InProgressRow(s, k);
    }
    assert s.tasks != map[];
  }

  lemma RowsStep(s: State, step: Step)
    requires Inv(s) && RowsOk(s) && Can(s, step)
    ensures RowsOk(Do(s, step))
  {
    hide Decode, Valid, Admit, LogsOk, NothingLost, TasksOk;
    match step
    case SweepUpdate(ok) => SweptRows(s, ok);
    case StoreRow(ok) => StoredRows(s, ok);
    case Record(id, ok) => RecordedRows(s, id, ok);
    case Spawn =>
    case Dispatch(id) => RowsKept(s, Do(s, step));
    case Finish(id, _, _) => RowsKept(s, Do(s, step));
    case _ => RowsKept(s, Do(s, step));
  }

  lemma {:induction false} RowsRun(run: seq<State>, i: nat)
    requires IsRun(run) && i < |run|
    ensures RowsOk(run[i])
  {
    hide Do, Can, Inv;
    if i > 0 {
      RowsRun(run, i - 1);
      RunKeeps(run, i - 1);
      hide RowsOk;
      assert Follows(run[i - 1], run[i]);
      var step :| Can(run[i - 1], step) && run[i] == Do(run[i - 1], step);
      RowsStep(run[i - 1], step);
    }
  }

  // ----- what one change does -----

  lemma SameGone(s: State, s': State, n: nat)
    requires s'.queue == s.queue && s'.entered == s.entered && s'.store == s.store && s'.reports == s.reports
    ensures Gone(s', n) <==> Gone(s, n)
  {
  }

  /** A report for a delivery that is queued or in progress does not bring back one that is gone. */
  lemma ReportGone(s: State, s': State, r: Report, n: nat)
    requires s'.queue == s.queue && s'.entered == s.entered && s'.store == s.store && s'.reports == s.reports + [r]
    requires r.origin == Some(n) ==> Queued(s, n) || Pending(s, n)
    ensures Gone(s', n) <==> Gone(s, n)
  {
    assert Queued(s', n) <==> Queued(s, n);
    assert Pending(s', n) <==> Pending(s, n);
    if Reported(s, n) {
      var q :| q in s.reports && q.origin == Some(n);
      assert q in s'.reports;
    }
    if Reported(s', n) {
      var q :| q in s'.reports && q.origin == Some(n);
      assert q in s.reports || q == r;
    }
    hide Queued, Pending, Reported;
  }

  lemma PopQueued(s: State, s': State, n: nat)
    requires QueueOk(s) && s.queue != [] && s'.queue == s.queue[1..]
    ensures Queued(s', n) <==> Queued(s, n) && s.queue[0].n != n
  {
    if Queued(s', n) {
      var i :| 0 <= i < |s'.queue| && s'.queue[i].n == n;
      assert s.queue[i + 1].n == n;
    }
    if Queued(s, n) && s.queue[0].n != n {
      var i :| 0 <= i < |s.queue| && s.queue[i].n == n;
      assert s'.queue[i - 1].n == n;
    }
  }

  lemma PopGone(s: State, s': State, n: nat)
    requires QueueOk(s) && s.queue != [] && s'.queue == s.queue[1..]
    requires s'.entered == s.entered && s'.store == s.store && s'.reports == s.reports
    ensures Gone(s', n) <==> Gone(s, n) || (s.queue[0].n == n && !Pending(s, n) && !Reported(s, n))
  {
    PopQueued(s, s', n);
    assert Pending(s', n) <==> Pending(s, n);
    assert Reported(s', n) <==> Reported(s, n);
    assert s.queue[0].n < |s.entered|;
    hide Queued, Pending, Reported;
  }

  /** A delivery has one row. */
  lemma OneRow(s: State, a: string, b: string)
    requires StoreOk(s) && a in s.store && b in s.store && s.store[a].origin == s.store[b].origin
    ensures a == b
  {
  }

  lemma RowPending(s: State, s': State, id: string, row: Row, n: nat)
    requires StoreOk(s) && id in s.store && s'.store == s.store[id := row] && row.origin == s.store[id].origin
    ensures Pending(s', n) <==> if s.store[id].origin == n then row.result.status == IN_PROGRESS else Pending(s, n)
  {
    hide StoreOk;
    if Pending(s', n) {
      var k :| k in s'.store && s'.store[k].origin == n && s'.store[k].result.status == IN_PROGRESS;
      if s.store[id].origin == n {
        OneRow(s, k, id);
      } else {
        assert k != id && s.store[k] == s'.store[k];
      }
    }
    if s.store[id].origin == n && row.result.status == IN_PROGRESS {
      assert s'.store[id].origin == n;
    }
    if s.store[id].origin != n && Pending(s, n) {
      var k :| k in s.store && s.store[k].origin == n && s.store[k].result.status == IN_PROGRESS;
      assert k != id && s'.store[k] == s.store[k];
    }
  }

  /** A row that was in progress is written: its delivery is gone if that closes the row while nothing
      else accounts for it. */
  lemma RowGone(s: State, s': State, id: string, row: Row, n: nat)
    requires StoreOk(s) && InProgressRow(s, id) && s'.store == s.store[id := row] && row.origin == s.store[id].origin
    requires s'.queue == s.queue && s'.entered == s.entered && s'.reports == s.reports && row.origin < |s.entered|
    ensures Gone(s', n) <==>
            Gone(s, n) || (s.store[id].origin == n && row.result.status != IN_PROGRESS && !Queued(s, n) && !Reported(s, n))
  {
    RowPending(s, s', id, row, n);
    assert s.store[id].origin == n ==> Pending(s, n);
    assert Queued(s', n) <==> Queued(s, n);
    assert Reported(s', n) <==> Reported(s, n);
    hide Queued, Pending, Reported, StoreOk;
  }

  // ----- what each step does -----

  lemma DeliverGone(s: State, data: Json, n: nat)
    requires QueueOk(s)
    ensures Gone(Do(s, Deliver(data)), n) <==> Gone(s, n)
  {
    var s' := Do(s, Deliver(data));
    assert s'.queue[|s.queue|].n == |s.entered|;
    assert Queued(s, n) ==> Queued(s', n) by {
      if i :| 0 <= i < |s.queue| && s.queue[i].n == n {
        assert s'.queue[i].n == n;
      }
    }
    assert Queued(s', n) ==> Queued(s, n) || n == |s.entered| by {
      if i :| 0 <= i < |s'.queue| && s'.queue[i].n == n {
        assert i < |s.queue| ==> s.queue[i].n == n;
      }
    }
    assert Pending(s', n) <==> Pending(s, n);
    assert Reported(s', n) <==> Reported(s, n);
    assert n == |s.entered| ==> Queued(s', n);
    hide Queued, Pending, Reported;
  }

  lemma SweepReportGone(s: State, n: nat)
    requires RowsOk(s) && Can(s, SweepReport)
    ensures Gone(Do(s, SweepReport), n) <==> Gone(s, n)
  {
    var s', id := Do(s, SweepReport), s.pc.todo[0];
    assert InProgressRow(s, id);
    assert s.store[id].origin == n ==> Pending(s, n);
    hide Pending;
    ReportGone(s, s', s'.reports[|s.reports|], n);
  }

  /** The row that is cleaned up next is in progress and answered. */
  lemma AnsweredRow(s: State)
    requires LogsOk(s) && PcOk(s) && RowsOk(s) && s.pc.Swept?
    ensures StoreOk(s) && s.pc.todo != [] && InProgressRow(s, s.pc.todo[0])
    ensures Reported(s, s.store[s.pc.todo[0]].origin) && s.store[s.pc.todo[0]].origin < |s.entered|
  {
    hide Decode, Valid, Reported;
  }

  lemma SweepUpdateGone(s: State, ok: bool, n: nat)
    requires LogsOk(s) && PcOk(s) && RowsOk(s) && Can(s, SweepUpdate(ok))
    ensures Gone(Do(s, SweepUpdate(ok)), n) <==> Gone(s, n)
  {
    hide Gone, LogsOk, StoreOk, PcOk, RowsOk, Queued, Pending, Reported, Decode;
    var s', id := Do(s, SweepUpdate(ok)), s.pc.todo[0];
    AnsweredRow(s);
    var row := if ok then UpdateRow(s.store[id], Abandon(EntryOf(id, s.store[id]))) else s.store[id];
    AbandonedRow(id, s.store[id]);
    RowGone(s, s', id, row, n);
  }

  lemma RefuseReportGone(s: State, n: nat)
    requires PcOk(s) && Can(s, RefuseReport)
    ensures Gone(Do(s, RefuseReport), n) <==> Gone(s, n)
  {
    hide Decode, Valid;
    var s' := Do(s, RefuseReport);
    assert s.queue[0].n == s.pc.n;
    assert s.pc.origin == Some(n) ==> Queued(s, n);
    hide Queued;
    ReportGone(s, s', s'.reports[|s.reports|], n);
  }

  lemma RefusePopGone(s: State, ok: bool, n: nat)
    requires LogsOk(s) && PcOk(s) && Can(s, RefusePop(ok))
    ensures Gone(Do(s, RefusePop(ok)), n) <==> Gone(s, n) || MisreadLoses(s, Do(s, RefusePop(ok)), n)
  {
    hide Gone, Pending, Reported, Queued, LogsOk, PcOk;
    var s' := Do(s, RefusePop(ok));
    QueueOf(s);
    RefusedPc(s);
    if ok {
      PopGone(s, s', n);
    } else {
      SameGone(s, s', n);
      assert |Do(s, RefusePop(true)).queue| < |s'.queue|;
    }
  }

  lemma AcceptPopGone(s: State, ok: bool, n: nat)
    requires LogsOk(s) && PcOk(s) && Can(s, AcceptPop(ok))
    ensures Gone(Do(s, AcceptPop(ok)), n) <==> Gone(s, n)
  {
    hide Decode, Valid, Admit;
    var s' := Do(s, AcceptPop(ok));
    var e := s.pc.entry;
    assert s.queue[0].n == s.pc.n && s.store[e.id].origin == s.pc.n && s.store[e.id].result.status == IN_PROGRESS;
    assert Pending(s, s.pc.n);
    if ok {
      PopGone(s, s', n);
    } else {
      SameGone(s, s', n);
    }
    hide Gone, Pending, Reported;
  }

  lemma StoreGone(s: State, ok: bool, n: nat)
    requires PcOk(s) && s.pc.Insert?
    ensures Gone(AfterStore(s, ok), n) <==> Gone(s, n)
  {
    hide Decode, Valid, Admit;
    var s', e := AfterStore(s, ok), s.pc.entry;
    assert s.queue[0].n == s.pc.n;
    assert Queued(s, s.pc.n);
    assert Queued(s', n) <==> Queued(s, n);
    assert Reported(s', n) <==> Reported(s, n);
    assert Pending(s, n) ==> Pending(s', n) by {
      if k :| k in s.store && s.store[k].origin == n && s.store[k].result.status == IN_PROGRESS {
        assert s'.store[k] == s.store[k];
      }
    }
    assert Pending(s', n) ==> Pending(s, n) || n == s.pc.n by {
      if k :| k in s'.store && s'.store[k].origin == n && s'.store[k].result.status == IN_PROGRESS {
        assert k != e.id ==> s.store[k] == s'.store[k];
      }
    }
    hide Queued, Pending, Reported;
  }

  lemma FinishGone(s: State, id: string, result: Result, found: bool, n: nat)
    requires TasksOk(s) && RowsOk(s) && Can(s, Finish(id, result, found))
    ensures Gone(AfterFinish(s, id, result, found), n) <==> Gone(s, n)
  {
    hide Decode, Valid, Admit;
    var s', t := AfterFinish(s, id, result, found), s.tasks[id];
    assert TaskOk(s, id) && InProgressRow(s, id);
    assert t.origin == n ==> Pending(s, n);
    hide Pending, TaskOk;
    if Reports(t.entry.mod, found) {
      ReportGone(s, s', s'.reports[|s.reports|], n);
    } else {
      SameGone(s, s', n);
    }
  }

  /** A row is closed by its result, unless that is still pending or unknown. */
  lemma Closed(s: State, id: string)
    requires TasksOk(s) && RowsOk(s) && LogsOk(s) && id in s.tasks && s.tasks[id].phase.Done?
    ensures InProgressRow(s, id) && s.store[id].origin == s.tasks[id].origin < |s.entered|
    ensures var t := s.tasks[id];
            var row := UpdateRow(s.store[id], t.entry.(result := t.phase.result));
            && row.origin == t.origin
            && (row.result.status != IN_PROGRESS <==> t.phase.result.status !in {IN_PROGRESS, UNKNOWN})
  {
    hide Decode, Valid, Admit;
    assert TaskOk(s, id);
  }

  lemma RecordGone(s: State, id: string, ok: bool, n: nat)
    requires LogsOk(s) && TasksOk(s) && RowsOk(s) && Can(s, Record(id, ok))
    ensures Gone(AfterRecord(s, id, ok), n) <==>
            Gone(s, n) || (ok && RecordLosesWith(s, AfterRecord(s, id, ok), n, id))
  {
    hide LogsOk, TasksOk, RowsOk, UpdateRow, Gone, Queued, Reported, Pending;
    var s', t := AfterRecord(s, id, ok), s.tasks[id];
    if ok {
      Closed(s, id);
      RecordedRow(s, s', id, UpdateRow(s.store[id], t.entry.(result := t.phase.result)), n);
    } else {
      SameGone(s, s', n);
    }
  }

  lemma RecordedRow(s: State, s': State, id: string, row: Row, n: nat)
    requires LogsOk(s) && InProgressRow(s, id) && s'.store == s.store[id := row] && row.origin == s.store[id].origin
    requires s'.queue == s.queue && s'.entered == s.entered && s'.reports == s.reports && row.origin < |s.entered|
    ensures Gone(s', n) <==>
            Gone(s, n) || (s.store[id].origin == n && row.result.status != IN_PROGRESS && !Queued(s, n) && !Reported(s, n))
  {
    hide Gone;
    RowGone(s, s', id, row, n);
  }

  lemma ClosesRow(s: State, s': State, n: nat, id: string)
    requires LogsOk(s) && TasksOk(s) && RowsOk(s) && RecordLosesWith(s, s', n, id)
    ensures s'.store != s.store && id in s.tasks && id !in s'.tasks
  {
    hide LogsOk, TasksOk, RowsOk, Queued, Reported, UpdateRow;
    Closed(s, id);
  }

  /** Recording a result that closes a row is not a step of another kind, nor of another command. */
  lemma RecordIsRecord(s: State, step: Step, id: string, n: nat)
    requires LogsOk(s) && TasksOk(s) && RowsOk(s) && Can(s, step) && RecordLosesWith(s, Do(s, step), n, id)
    ensures step == Record(id, true)
  {
    hide LogsOk, TasksOk, RowsOk, Decode, Valid, Admit, RecordLosesWith;
    ClosesRow(s, Do(s, step), n, id);
  }

  lemma LossStep(s: State, step: Step, n: nat)
    requires Inv(s) && RowsOk(s) && Can(s, step)
    ensures Gone(Do(s, step), n) <==> Gone(s, n) || MisreadLoses(s, Do(s, step), n) || RecordLoses(s, Do(s, step), n)
  {
    KindStep(s, step, n);
    CauseStep(s, step, n);
    hide *;
  }

  /** The change of one step. */
  ghost predicate Causes(s: State, step: Step, n: nat)
    requires Can(s, step)
  {
    match step
    case RefusePop(_) => MisreadLoses(s, Do(s, step), n)
    case Record(id, ok) => ok && RecordLosesWith(s, Do(s, step), n, id)
    case _ => false
  }

  lemma KindStep(s: State, step: Step, n: nat)
    requires Inv(s) && RowsOk(s) && Can(s, step)
    ensures Gone(Do(s, step), n) <==> Gone(s, n) || Causes(s, step, n)
  {
    hide Decode, Valid, Admit, LogsOk, PcOk, TasksOk, NothingLost, RowsOk, Gone, MisreadLoses, RecordLosesWith;
    match step
    case Deliver(data) => assert QueueOk(s) by { QueueOf(s); } DeliverGone(s, data, n);
    case SweepReport => SweepReportGone(s, n);
    case SweepUpdate(ok) => SweepUpdateGone(s, ok, n);
    case RefuseReport => RefuseReportGone(s, n);
    case RefusePop(ok) => RefusePopGone(s, ok, n);
    case AcceptPop(ok) => AcceptPopGone(s, ok, n);
    case StoreRow(ok) => StoreGone(s, ok, n);
    case Finish(id, result, found) => FinishGone(s, id, result, found, n);
    case Record(id, ok) => RecordGone(s, id, ok, n);
    case _ => SameGone(s, Do(s, step), n);
  }

  lemma QueueOf(s: State)
    requires LogsOk(s)
    ensures QueueOk(s)
  {
  }

  lemma CauseStep(s: State, step: Step, n: nat)
    requires Inv(s) && RowsOk(s) && Can(s, step)
    ensures Causes(s, step, n) <==> MisreadLoses(s, Do(s, step), n) || RecordLoses(s, Do(s, step), n)
  {
    hide Inv, RowsOk, Do, Can, RecordLosesWith, Decode, Pending, Reported;
    var s' := Do(s, step);
    if MisreadLoses(s, s', n) {
      PopIsPop(s, step);
    }
    hide MisreadLoses;
    if RecordLoses(s, s', n) {
      var id :| RecordLosesWith(s, s', n, id);
      InvParts(s);
      RecordIsRecord(s, step, id, n);
    }
  }

  lemma PopIsPop(s: State, step: Step)
    requires Can(s, step) && s.pc.Refused? && s.queue != [] && Do(s, step) == Do(s, RefusePop(true))
    ensures step.RefusePop?
  {
  }

  /**
   A delivery is neither queued, nor in progress, nor answered exactly when one of two things happened
   to it in the run: a failed read popped it while it was neither in progress nor answered, or recording
   its result closed its row while it was neither queued nor answered.
   */
  lemma {:induction false} LostIff(run: seq<State>, i: nat, n: nat)
    requires IsRun(run) && i < |run|
    ensures Gone(run[i], n) <==>
            exists j :: 0 < j <= i && (MisreadLoses(run[j - 1], run[j], n) || RecordLoses(run[j - 1], run[j], n))
  {
    if i == 0 {
      hide MisreadLoses, RecordLoses;
      assert run[0] == Init;
    } else {
      hide *;
      LostIff(run, i - 1, n);
      RunLossStep(run, i, n);
    }
  }

  lemma RunLossStep(run: seq<State>, i: nat, n: nat)
    requires IsRun(run) && 0 < i < |run|
    ensures Gone(run[i], n) <==>
            Gone(run[i - 1], n) || MisreadLoses(run[i - 1], run[i], n) || RecordLoses(run[i - 1], run[i], n)
  {
    assert Follows(run[i - 1], run[i]);
    hide *;
    RunKeeps(run, i - 1);
    RowsRun(run, i - 1);
    FollowsLoss(run[i - 1], run[i], n);
  }

  lemma FollowsLoss(s: State, s': State, n: nat)
    requires Inv(s) && RowsOk(s) && Follows(s, s')
    ensures Gone(s', n) <==> Gone(s, n) || MisreadLoses(s, s', n) || RecordLoses(s, s', n)
  {
    hide Inv, RowsOk, Can, Do, MisreadLoses, RecordLoses, Gone;
    var step :| Can(s, step) && s' == Do(s, step);
    LossStep(s, step, n);
  }

  /** Only a restart can be lost when its result is recorded. */
  lemma OnlyRestarts(run: seq<State>, j: nat, n: nat)
    requires IsRun(run) && 0 < j < |run| && RecordLoses(run[j - 1], run[j], n)
    ensures n < |run[j].entered| && Decode(run[j].entered[n]).command == RESTART
  {
    hide IsRun, RecordLosesWith, Decode;
    var s := run[j - 1];
    var id :| RecordLosesWith(s, run[j], n, id);
    hide *;
    RunKeeps(run, j - 1);
    InvParts(s);
    RecordedTask(s, run[j], n, id);
    UnansweredTask(s, id);
  }

  lemma RecordedTask(s: State, s': State, n: nat, id: string)
    requires RecordLosesWith(s, s', n, id)
    ensures id in s.tasks && s.tasks[id].origin == n && s'.entered == s.entered && !Reported(s, n)
    ensures s.tasks[id].phase.Done? && s.tasks[id].phase.result.status !in {IN_PROGRESS, UNKNOWN}
  {
    hide Reported, Queued;
  }

  /** A finished command that was not answered is a restart. */
  lemma UnansweredTask(s: State, id: string)
    requires LogsOk(s) && TasksOk(s) && id in s.tasks && s.tasks[id].phase.Done?
    requires s.tasks[id].phase.result.status !in {IN_PROGRESS, UNKNOWN} && !Reported(s, s.tasks[id].origin)
    ensures s.tasks[id].origin < |s.entered| && Decode(s.entered[s.tasks[id].origin]).command == RESTART
  {
    hide Decode, Valid, Admit, Reported;
    TaskOf(s, id);
  }

  /** A command other than a restart is lost exactly when a failed read popped it while it was neither in
      progress nor answered. */
  lemma CommandLostIff(run: seq<State>, i: nat, n: nat)
    requires IsRun(run) && i < |run| && n < |run[i].entered| && Decode(run[i].entered[n]).command != RESTART
    ensures Gone(run[i], n) <==> exists j :: 0 < j <= i && MisreadLoses(run[j - 1], run[j], n)
  {
    LostIff(run, i, n);
    hide Gone, MisreadLoses, RecordLoses, Decode;
    forall j | 0 < j <= i ensures !RecordLoses(run[j - 1], run[j], n) {
      if RecordLoses(run[j - 1], run[j], n) {
        OnlyRestarts(run, j, n);
        EnteredStays(run, j, i);
      }
    }
  }

  lemma {:induction false} EnteredStays(run: seq<State>, j: nat, i: nat)
    requires IsRun(run) && j <= i < |run|
    ensures run[j].entered <= run[i].entered
    decreases i
  {
    if j < i {
      EnteredStays(run, j, i - 1);
      hide Can;
      assert Follows(run[i - 1], run[i]);
    }
  }

  // ----- a restart that fails -----

  // The states of an agent that has just started and takes up the command `e`, a restart that fails.

  function Taken(data: Json, e: Entry): State {
    Delivered(data).(pc := Insert(e, 0))
  }

  function Stored(data: Json, e: Entry): State {
    Taken(data, e).(pc := Inserted(e, 0), store := map[e.id := RowOf(e, 0)])
  }

  function Accepted(data: Json, e: Entry): State {
    Stored(data, e).(pc := Launch(e, 0), queue := [])
  }

  function Spawned(data: Json, e: Entry): State {
    Accepted(data, e).(pc := Await(e.id), tasks := map[e.id := Task(e, 0, Ready)])
  }

  function Started(data: Json, e: Entry): State {
    Spawned(data, e).(tasks := map[e.id := Task(e, 0, Running)], dispatched := [e.id])
  }

  const FAILED_RESTART := Result(FAILURE, "Systemctl restart failed")

  function Failed(data: Json, e: Entry): State {
    Started(data, e).(tasks := map[e.id := Task(e, 0, Phase.Done(FAILED_RESTART))], silent := {0})
  }

  function Recorded(data: Json, e: Entry): State {
    Failed(data, e).(store := map[e.id := UpdateRow(RowOf(e, 0), e.(result := FAILED_RESTART))], tasks := map[], pc := Fetch)
  }

  lemma TakenUp(data: Json, e: Entry)
    requires Valid(Decode(data)) && e == Admit(Decode(data))
    ensures Follows(Delivered(data), Taken(data, e)) && Follows(Taken(data, e), Stored(data, e))
    ensures Follows(Stored(data, e), Accepted(data, e))
  {
    hide Decode, Valid, Admit;
    OneStep(Delivered(data), Take);
    OneStep(Taken(data, e), StoreRow(true));
    OneStep(Stored(data, e), AcceptPop(true));
  }

  lemma Launched(data: Json, e: Entry)
    requires e.mode == SYNC
    ensures Follows(Accepted(data, e), Spawned(data, e)) && Follows(Spawned(data, e), Started(data, e))
  {
    OneStep(Accepted(data, e), Spawn);
    OneStep(Spawned(data, e), Dispatch(e.id));
  }

  lemma FailsSilently(data: Json, e: Entry)
    requires e.mod == RESTART_HANDLER
    ensures Follows(Started(data, e), Failed(data, e))
  {
    OneStep(Started(data, e), Finish(e.id, FAILED_RESTART, true));
  }

  lemma RecordsFailure(data: Json, e: Entry)
    ensures Follows(Failed(data, e), Recorded(data, e)) && Gone(Recorded(data, e), 0)
    ensures Recorded(data, e).entered == [data] && Recorded(data, e).misread == {}
  {
    OneStep(Failed(data, e), Record(e.id, true));
    assert Failed(data, e).tasks - {e.id} == map[];
    assert Recorded(data, e).store[e.id].result.status == FAILURE;
  }

  /** Every valid restart is lost in some run without a failed database call: its handler fails, which is
      recorded and not reported. */
  lemma RestartLost(data: Json) returns (run: seq<State>)
    requires Valid(Decode(data)) && Decode(data).command == RESTART
    ensures IsRun(run)
    ensures var s := run[|run| - 1]; s.entered == [data] && s.misread == {} && Gone(s, 0)
  {
    hide Decode, Valid, Admit, Inv, Follows, Delivered, Taken, Stored, Accepted, Spawned, Started, Failed, Recorded, Gone;
    var e := Admit(Decode(data));
    Admitted(data);
    DeliveredFollows(data);
    TakenUp(data, e);
    Launched(data, e);
    FailsSilently(data, e);
    RecordsFailure(data, e);
    run := [Init, Init.(pc := Fetch), Delivered(data), Taken(data, e), Stored(data, e), Accepted(data, e),
            Spawned(data, e), Started(data, e), Failed(data, e), Recorded(data, e)];
  }
}
