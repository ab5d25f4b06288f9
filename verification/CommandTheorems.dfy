/**
 What holds over whole runs of the command machine: at most one execution per command id, no
 delivery lost, no command resumed after a crash, and one command at a time.
 */
module CommandTheorems {
  import opened Options
  import opened Paths
  import opened Commands
  import opened CommandMachine

  lemma {:induction false} RunKeeps(run: seq<State>, i: nat)
    requires IsRun(run) && i < |run|
    ensures Inv(run[i])
  {
    hide Do, Can, Inv;
    if i == 0 {
      InitHolds();
    } else {
      RunKeeps(run, i - 1);
      assert Follows(run[i - 1], run[i]);
      var step :| Can(run[i - 1], step) && run[i] == Do(run[i - 1], step);
      StepKeeps(run[i - 1], step);
    }
  }

  /** Over every run, no command id is dispatched twice, and every dispatched id has a row that
      comes from a valid delivery. */
  lemma AtMostOnce(run: seq<State>, i: nat)
    requires IsRun(run) && i < |run|
    ensures forall a, b :: 0 <= a < b < |run[i].dispatched| ==> run[i].dispatched[a] != run[i].dispatched[b]
    ensures forall id :: id in run[i].dispatched ==>
              && id in run[i].store && run[i].store[id].origin < |run[i].entered|
              && var d := Decode(run[i].entered[run[i].store[id].origin]); Valid(d) && d.id == id
  {
    hide Decode, Valid;
    RunKeeps(run, i);
  }

  /** Over every run, each delivery is still queued, or in progress in the store, or answered by a
      report that carries its id; unless a failed read popped it, or it is a restart whose handler
      reported failure. */
  lemma NoDeliveryLost(run: seq<State>, i: nat, n: nat)
    requires IsRun(run) && i < |run| && n < |run[i].entered|
    ensures var s := run[i];
            var d := Decode(s.entered[n]);
            || (exists k :: 0 <= k < |s.queue| && s.queue[k] == Item(n, s.entered[n]))
            || (d.id in s.store && s.store[d.id].origin == n && s.store[d.id].result.status == IN_PROGRESS)
            || (exists r :: r in s.reports && r.origin == Some(n) && r.id == d.id)
            || n in s.misread
            || (n in s.silent && d.command == RESTART)
  {
    hide Decode, Valid;
    RunKeeps(run, i);
    var s := run[i];
    assert Accounted(s, n);
    if k :| 0 <= k < |s.queue| && s.queue[k].n == n {
      assert s.queue[k] == Item(n, s.entered[n]);
    } else if r :| r in s.reports && r.origin == Some(n) {
      assert r.id == Decode(s.entered[n]).id;
    } else if id :| id in s.store && s.store[id].origin == n && s.store[id].result.status == IN_PROGRESS {
      assert id == Decode(s.entered[n]).id;
    }
  }

  /** When no read of the queue failed, only restarts can go unanswered. */
  lemma NoCommandLost(run: seq<State>, i: nat, n: nat)
    requires IsRun(run) && i < |run| && n < |run[i].entered|
    requires run[i].misread == {} && Decode(run[i].entered[n]).command != RESTART
    ensures Queued(run[i], n) || Pending(run[i], n) || Reported(run[i], n)
  {
    hide Decode;
    NoDeliveryLost(run, i, n);
  }

  // ----- the failed read -----

  /** The handler's three steps after a failed read of a non-empty queue. */
  ghost function AfterMisread(s: State): State
    requires s.pc.Fetch? && s.queue != []
  {
    Admitted(JNull);
    Do(Do(Do(s, Misread), RefuseReport), RefusePop(true))
  }

  /** The failed read is answered with no id, and the head is popped. */
  lemma MisreadState(s: State)
    requires s.pc.Fetch? && s.queue != []
    ensures var s' := AfterMisread(s);
            && s'.store == s.store && s'.silent == s.silent && s'.entered == s.entered && s'.queue == s.queue[1..]
            && s'.reports == s.reports + [Report("", Result(FAILURE, "Command is not valid"), None)]
  {
    assert Decode(JObject(map[])).id == "";
    hide Decode, Valid, Admit;
    Admitted(JNull);
  }

  lemma PoppedHead(s: State, s': State)
    requires QueueOk(s) && s.queue != [] && s'.queue == s.queue[1..]
    ensures !Queued(s', s.queue[0].n)
  {
  }

  /** A failed read pops the head although nothing was stored or answered for it: the delivery
      survives exactly when it was already in progress or answered (or silently finished). */
  lemma MisreadLosesHead(s: State)
    requires Inv(s) && s.pc.Fetch? && s.queue != []
    ensures var s' := AfterMisread(s); var n := s.queue[0].n;
            && !Queued(s', n)
            && s'.reports == s.reports + [Report("", Result(FAILURE, "Command is not valid"), None)]
            && ((Pending(s', n) || Reported(s', n) || n in s'.silent) <==>
                (Pending(s, n) || Reported(s, n) || n in s.silent))
  {
    assert QueueOk(s) by {
      hide QueueOk, StoreOk, ReportsOk, PcOk, TasksOk, NothingLost;
    }
    hide Inv, AfterMisread, QueueOk, Queued;
    var s', n := AfterMisread(s), s.queue[0].n;
    MisreadState(s);
    PoppedHead(s, s');
    assert Pending(s', n) <==> Pending(s, n);
    if Reported(s', n) {
      var r :| r in s'.reports && r.origin == Some(n);
      assert r in s.reports;
    }
    if Reported(s, n) {
      var r :| r in s.reports && r.origin == Some(n);
      assert r in s'.reports;
    }
  }

  lemma OneStep(s: State, step: Step)
    requires Can(s, step)
    ensures Follows(s, Do(s, step))
  {
  }

  /** The agent started, one command delivered. */
  function Delivered(data: Json): State {
    Init.(pc := Fetch, queue := [Item(0, data)], entered := [data])
  }

  lemma DeliveredFollows(data: Json)
    ensures var s1 := Init.(pc := Fetch); Follows(Init, s1) && Follows(s1, Delivered(data))
    ensures Inv(Delivered(data))
  {
    hide Decode, Valid, Admit;
    var s1 := Init.(pc := Fetch);
    InitHolds();
    assert Do(Init, ReadInProgress([], false)) == s1;
    assert Do(s1, Deliver(data)) == Delivered(data);
    StepKeeps(Init, ReadInProgress([], false));
    StepKeeps(s1, Deliver(data));
  }

  /** Whatever the command, there is a run in which its only delivery is lost to a failed read. */
  lemma LossyRun(data: Json) returns (run: seq<State>)
    ensures IsRun(run)
    ensures var s := run[|run| - 1]; s.entered == [data] && !Queued(s, 0) && !Pending(s, 0) && !Reported(s, 0)
  {
    DeliveredFollows(data);
    MisreadLosesHead(Delivered(data));
    hide Do, Can, Inv, Queued, Pending, Reported, AfterMisread;
    run := MisreadPath(Delivered(data));
    ChainPrepend(Init.(pc := Fetch), run, Follows);
    ChainPrepend(Init, [Init.(pc := Fetch)] + run, Follows);
    run := [Init] + ([Init.(pc := Fetch)] + run);
  }

  lemma MisreadPath(s: State) returns (run: seq<State>)
    requires s.pc.Fetch? && s.queue != []
    ensures Chain(run, Follows) && run[0] == s && run[|run| - 1] == AfterMisread(s)
    ensures AfterMisread(s).entered == s.entered
  {
    hide Decode, Valid, Admit, Follows;
    Admitted(JNull);
    OneStep(s, Misread);
    OneStep(Do(s, Misread), RefuseReport);
    OneStep(Do(Do(s, Misread), RefuseReport), RefusePop(true));
    run := [s, Do(s, Misread), Do(Do(s, Misread), RefuseReport), AfterMisread(s)];
  }

  // ----- crashes -----

  /** Nothing running or about to run can dispatch `id`, and its row keeps it from being inserted again. */
  ghost predicate Settled(s: State, id: string) {
    && id in s.store && id !in s.tasks
    && (s.pc.Inserted? || s.pc.Launch? ==> s.pc.entry.id != id)
  }

  lemma SettledStays(s: State, step: Step, id: string)
    requires Can(s, step) && Settled(s, id)
    ensures Settled(Do(s, step), id)
    ensures id in Do(s, step).dispatched ==> id in s.dispatched
  {
    hide Decode, Valid, Admit;
  }

  /** A command that was stored when the agent (re)started is never executed from then on: what a
      crash interrupted is answered, not resumed. */
  lemma {:induction false} NeverResumed(run: seq<State>, i: nat, j: nat, id: string)
    requires IsRun(run) && i <= j < |run|
    requires run[i].pc.Boot? && id in run[i].store
    ensures Settled(run[j], id)
    ensures id in run[j].dispatched ==> id in run[i].dispatched
    decreases j
  {
    hide Do, Can, Decode, Valid, Admit;
    if i == j {
      RunKeeps(run, i);
    } else {
      NeverResumed(run, i, j - 1, id);
      assert Follows(run[j - 1], run[j]);
      var step :| Can(run[j - 1], step) && run[j] == Do(run[j - 1], step);
      SettledStays(run[j - 1], step, id);
    }
  }

  lemma RowStays(s: State, step: Step, id: string)
    requires Can(s, step) && id in s.store
    ensures id in Do(s, step).store && Do(s, step).store[id].origin == s.store[id].origin
  {
    hide Decode, Valid, Admit;
  }

  /** Rows are never deleted, and never change the delivery they come from. */
  lemma {:induction false} RowsStay(run: seq<State>, i: nat, j: nat, id: string)
    requires IsRun(run) && i <= j < |run| && id in run[i].store
    ensures id in run[j].store && run[j].store[id].origin == run[i].store[id].origin
    decreases j
  {
    hide Do, Can;
    if i < j {
      RowsStay(run, i, j - 1, id);
      assert Follows(run[j - 1], run[j]);
      var step :| Can(run[j - 1], step) && run[j] == Do(run[j - 1], step);
      RowStays(run[j - 1], step, id);
    }
  }

  // ----- one at a time -----

  ghost predicate Serial(s: State) {
    forall id :: id in s.tasks ==> s.pc == Await(id)
  }

  lemma SerialStays(s: State, step: Step)
    requires Inv(s) && Can(s, step) && Serial(s)
    ensures Serial(Do(s, step))
  {
    hide Decode, Valid, Admit;
    if s.pc.Launch? {
      Admitted(s.entered[s.pc.n]);
    }
  }

  /** Although the loop can run commands asynchronously, in every reachable state at most one command
      is being executed, and the loop is waiting for it. */
  lemma {:induction false} OneAtATime(run: seq<State>, i: nat)
    requires IsRun(run) && i < |run|
    ensures forall id :: id in run[i].tasks ==> run[i].pc == Await(id)
    ensures forall id, id' :: id in run[i].tasks && id' in run[i].tasks ==> id == id'
  {
    hide Do, Can, Inv;
    if i > 0 {
      OneAtATime(run, i - 1);
      RunKeeps(run, i - 1);
      assert Follows(run[i - 1], run[i]);
      var step :| Can(run[i - 1], step) && run[i] == Do(run[i - 1], step);
      SerialStays(run[i - 1], step);
    }
  }
}
