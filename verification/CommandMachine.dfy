/**
 Command execution as a step machine. The command queue and the store are persistent; the
 handler's program counter and the running dispatches are lost in a crash, which may happen
 between any two steps. Every database write may fail, and so may every read. The logs
 (`entered`, `dispatched`, `reports`, `misread`, `silent`) are history variables.
 */
module CommandMachine {
  import opened Options
  import opened Paths
  import opened Commands

  /** A queued command with the number of its delivery. */
  datatype Item = Item(n: nat, data: Json)

  /** A report sent to the manager; `origin` is the delivery it answers, if it answers one. */
  datatype Report = Report(id: string, result: Result, origin: Option<nat>)

  datatype Phase = Ready | Running | Done(result: Result)

  datatype Task = Task(entry: Entry, origin: nat, phase: Phase)

  datatype Pc =
    | Boot                                                    // about to read the rows in progress
    | Sweep(todo: seq<string>)                                // about to report todo[0]
    | Swept(todo: seq<string>)                                // about to update the row of todo[0]
    | Fetch                                                   // top of the processing loop
    | Refuse(entry: Entry, origin: Option<nat>, n: nat)       // about to report a failure for the head
    | Refused(origin: Option<nat>, n: nat)                    // about to pop the refused head
    | Insert(entry: Entry, n: nat)                            // about to insert the row
    | Inserted(entry: Entry, n: nat)                          // about to pop the accepted head
    | Launch(entry: Entry, n: nat)                            // about to start the dispatch
    | Await(id: string)                                       // waiting for a synchronous dispatch

  datatype State = State(
    queue: seq<Item>,
    store: map<string, Row>,
    pc: Pc,
    tasks: map<string, Task>,
    entered: seq<Json>,
    dispatched: seq<string>,
    reports: seq<Report>,
    misread: set<nat>,
    silent: set<nat>)

  const Init := State([], map[], Boot, map[], [], [], [], {}, {})

  datatype Step =
    | Deliver(data: Json)
    | Crash
    | ReadInProgress(ids: seq<string>, ok: bool)
    | SweepReport
    | SweepUpdate(ok: bool)
    | Take
    | Misread
    | RefuseReport
    | RefusePop(ok: bool)
    | StoreRow(ok: bool)
    | AcceptPop(ok: bool)
    | Spawn
    | Dispatch(id: string)
    | Finish(id: string, result: Result, found: bool)
    | Record(id: string, ok: bool)

  function InProgress(store: map<string, Row>): set<string> {
    set id | id in store && store[id].result.status == IN_PROGRESS
  }

  /** `ids` lists the set `s` in some order, without repetition. */
  ghost predicate Lists(ids: seq<string>, s: set<string>) {
    && (forall id :: id in ids <==> id in s)
    && (forall i, j :: 0 <= i < j < |ids| ==> ids[i] != ids[j])
  }

  /** A command that reaches the manager's report queue from its dispatch: everything but a
      restart and a command whose module does not exist. */
  predicate Reports(mod: string, found: bool) {
    mod == CENTRALIZED_CONFIGURATION || (mod != RESTART_HANDLER && found)
  }

  predicate Outcome(mod: string, found: bool, result: Result) {
    if mod == CENTRALIZED_CONFIGURATION then true
    else if mod == RESTART_HANDLER then result.status in {IN_PROGRESS, FAILURE}
    else found || result == Result(FAILURE, "Module not found")
  }

  ghost predicate Can(s: State, step: Step) {
    match step
    case Deliver(_) => true
    case Crash => true
    case ReadInProgress(ids, ok) => s.pc.Boot? && (ok ==> Lists(ids, InProgress(s.store)))
    case SweepReport => s.pc.Sweep? && s.pc.todo != [] && s.pc.todo[0] in s.store
    case SweepUpdate(_) => s.pc.Swept? && s.pc.todo != [] && s.pc.todo[0] in s.store
    case Take => s.pc.Fetch? && s.queue != []
    case Misread => s.pc.Fetch? && s.queue != []
    case RefuseReport => s.pc.Refuse?
    case RefusePop(_) => s.pc.Refused? && s.queue != []
    case StoreRow(_) => s.pc.Insert?
    case AcceptPop(_) => s.pc.Inserted? && s.queue != []
    case Spawn => s.pc.Launch?
    case Dispatch(id) => id in s.tasks && s.tasks[id].phase.Ready?
    case Finish(id, result, found) =>
      id in s.tasks && s.tasks[id].phase.Running? && Outcome(s.tasks[id].entry.mod, found, result)
    case Record(id, _) => id in s.tasks && s.tasks[id].phase.Done? && id in s.store
  }

  const FAILED_CHECK := Result(FAILURE, "Command is not valid")
  const FAILED_STORE := Result(FAILURE, "Agent's database failure")

  function SweepNext(todo: seq<string>): Pc {
    if todo == [] then Fetch else Sweep(todo)
  }

  /** The branch taken for the entry read from the head of the queue. */
  function Examine(e: Entry, origin: Option<nat>, n: nat): Pc {
    if Valid(e) then Insert(Admit(e), n) else Refuse(e.(result := FAILED_CHECK), origin, n)
  }

  /** The insert fails on a database error and on an id that already has a row. */
  function AfterStore(s: State, ok: bool): State
    requires s.pc.Insert?
  {
    var e := s.pc.entry;
    if ok && e.id !in s.store then
      s.(store := s.store[e.id := RowOf(e, s.pc.n)], pc := Inserted(e, s.pc.n))
    else
      s.(pc := Refuse(e.(result := FAILED_STORE), Some(s.pc.n), s.pc.n))
  }

  /** A synchronous command is awaited; an asynchronous one runs beside the loop. */
  function AfterSpawn(s: State): State
    requires s.pc.Launch?
  {
    var e := s.pc.entry;
    s.(tasks := s.tasks[e.id := Task(e, s.pc.n, Ready)], pc := if e.mode == SYNC then Await(e.id) else Fetch)
  }

  function AfterDispatch(s: State, id: string): State
    requires id in s.tasks
  {
    s.(tasks := s.tasks[id := s.tasks[id].(phase := Running)], dispatched := s.dispatched + [id])
  }

  /** The command has run (or timed out); its result is reported before the dispatch returns. */
  function AfterFinish(s: State, id: string, result: Result, found: bool): State
    requires id in s.tasks
  {
    var t := s.tasks[id];
    var told := Reports(t.entry.mod, found);
    s.(tasks := s.tasks[id := t.(phase := Done(result))],
       reports := if told then s.reports + [Report(id, result, Some(t.origin))] else s.reports,
       silent := if told || result.status in {IN_PROGRESS, UNKNOWN} then s.silent else s.silent + {t.origin})
  }

  function AfterRecord(s: State, id: string, ok: bool): State
    requires id in s.tasks && s.tasks[id].phase.Done? && id in s.store
  {
    var t := s.tasks[id];
    s.(store := if ok then s.store[id := UpdateRow(s.store[id], t.entry.(result := t.phase.result))] else s.store,
       tasks := s.tasks - {id},
       pc := if s.pc == Await(id) then Fetch else s.pc)
  }

  function Do(s: State, step: Step): State
    requires Can(s, step)
  {
    match step
    case Deliver(data) =>
      s.(queue := s.queue + [Item(|s.entered|, data)], entered := s.entered + [data])
    case Crash =>
      s.(pc := Boot, tasks := map[])
    case ReadInProgress(ids, ok) =>
      s.(pc := if ok then SweepNext(ids) else Fetch)
    case SweepReport =>
      var id := s.pc.todo[0];
      var e := Abandon(EntryOf(id, s.store[id]));
      s.(reports := s.reports + [Report(id, e.result, Some(s.store[id].origin))], pc := Swept(s.pc.todo))
    case SweepUpdate(ok) =>
      var id := s.pc.todo[0];
      var row := UpdateRow(s.store[id], Abandon(EntryOf(id, s.store[id])));
      s.(store := if ok then s.store[id := row] else s.store, pc := SweepNext(s.pc.todo[1..]))
    case Take =>
      s.(pc := Examine(Decode(s.queue[0].data), Some(s.queue[0].n), s.queue[0].n))
    case Misread =>
      s.(pc := Examine(Decode(JObject(map[])), None, s.queue[0].n))
    case RefuseReport =>
      s.(reports := s.reports + [Report(s.pc.entry.id, s.pc.entry.result, s.pc.origin)],
         pc := Refused(s.pc.origin, s.pc.n))
    case RefusePop(ok) =>
      s.(queue := if ok then s.queue[1..] else s.queue,
         misread := if ok && s.pc.origin.None? then s.misread + {s.pc.n} else s.misread,
         pc := Fetch)
    case StoreRow(ok) => AfterStore(s, ok)
    case AcceptPop(ok) =>
      s.(queue := if ok then s.queue[1..] else s.queue, pc := Launch(s.pc.entry, s.pc.n))
    case Spawn => AfterSpawn(s)
    case Dispatch(id) => AfterDispatch(s, id)
    case Finish(id, result, found) => AfterFinish(s, id, result, found)
    case Record(id, ok) => AfterRecord(s, id, ok)
  }

  ghost predicate Follows(s: State, s': State) {
    exists step :: Can(s, step) && s' == Do(s, step)
  }

  /** A whole run of the agent, across any number of crashes and restarts. */
  ghost predicate IsRun(run: seq<State>) {
    Chain(run, Follows) && run[0] == Init
  }

  // ----- what every step keeps -----

  /** Delivery `n`, if it is a valid command, gave this entry. */
  ghost predicate AdmittedFrom(s: State, e: Entry, n: nat) {
    && n < |s.entered|
    && var d := Decode(s.entered[n]); Valid(d) && e == Admit(d)
  }

  ghost predicate Reported(s: State, n: nat) {
    exists r :: r in s.reports && r.origin == Some(n)
  }

  ghost predicate Queued(s: State, n: nat) {
    exists i :: 0 <= i < |s.queue| && s.queue[i].n == n
  }

  ghost predicate Pending(s: State, n: nat) {
    exists id :: id in s.store && s.store[id].origin == n && s.store[id].result.status == IN_PROGRESS
  }

  /** Where delivery `n` can be: still queued, in progress, answered; or, exceptionally, popped
      after a failed read, or finished without an answer. */
  ghost predicate Accounted(s: State, n: nat) {
    Queued(s, n) || Pending(s, n) || Reported(s, n) || n in s.misread || n in s.silent
  }

  ghost predicate HeadIs(s: State, n: nat) {
    s.queue != [] && s.queue[0].n == n
  }

  /** The queue holds the last deliveries, in order. */
  ghost predicate QueueOk(s: State) {
    && |s.queue| <= |s.entered|
    && forall i :: 0 <= i < |s.queue| ==>
        s.queue[i] == Item(|s.entered| - |s.queue| + i, s.entered[|s.entered| - |s.queue| + i])
  }

  /** Every row comes from the delivery it names. */
  ghost predicate StoreOk(s: State) {
    forall id :: id in s.store ==>
      && s.store[id].origin < |s.entered|
      && var d := Decode(s.entered[s.store[id].origin]); Valid(d) && d.id == id && d.command == s.store[id].command
  }

  /** Every answer carries the id of the delivery it names. */
  ghost predicate ReportsOk(s: State) {
    forall r :: r in s.reports && r.origin.Some? ==>
      r.origin.value < |s.entered| && Decode(s.entered[r.origin.value]).id == r.id
  }

  ghost predicate Fresh(s: State, e: Entry, n: nat) {
    && AdmittedFrom(s, e, n)
    && e.id in s.store && s.store[e.id].origin == n && s.store[e.id].result.status == IN_PROGRESS
    && e.id !in s.dispatched && e.id !in s.tasks
  }

  ghost predicate PcOk(s: State) {
    match s.pc
    case Boot => s.tasks == map[]
    case Sweep(todo) => s.tasks == map[] && SweepOk(s, todo)
    case Swept(todo) => s.tasks == map[] && SweepOk(s, todo) && todo != [] && Reported(s, s.store[todo[0]].origin)
    case Fetch => true
    case Refuse(e, origin, n) => HeadIs(s, n) && (origin.Some? ==> origin.value == n && e.id == Decode(s.queue[0].data).id)
    case Refused(origin, n) => HeadIs(s, n) && (origin.Some? ==> Reported(s, n))
    case Insert(e, n) => HeadIs(s, n) && AdmittedFrom(s, e, n)
    case Inserted(e, n) => HeadIs(s, n) && Fresh(s, e, n)
    case Launch(e, n) => Fresh(s, e, n)
    case Await(id) => true
  }

  ghost predicate SweepOk(s: State, todo: seq<string>) {
    && (forall id :: id in todo ==> id in s.store)
    && (forall i, j :: 0 <= i < j < |todo| ==> todo[i] != todo[j])
  }

  ghost predicate TaskOk(s: State, id: string)
    requires id in s.tasks
  {
    var t := s.tasks[id];
    && t.entry.id == id
    && AdmittedFrom(s, t.entry, t.origin)
    && id in s.store && s.store[id].origin == t.origin
    && (t.phase.Ready? <==> id !in s.dispatched)
    && (s.store[id].result.status == IN_PROGRESS || Reported(s, t.origin) || t.origin in s.silent)
    && (t.phase.Done? && t.phase.result.status !in {IN_PROGRESS, UNKNOWN} ==> Reported(s, t.origin) || t.origin in s.silent)
  }

  ghost predicate TasksOk(s: State) {
    forall id :: id in s.tasks ==> TaskOk(s, id)
  }

  /** Only stored commands are dispatched, and none twice. */
  ghost predicate DispatchOk(s: State) {
    && (forall id :: id in s.dispatched ==> id in s.store)
    && (forall i, j :: 0 <= i < j < |s.dispatched| ==> s.dispatched[i] != s.dispatched[j])
  }

  ghost predicate SilentOk(s: State) {
    forall n :: n in s.silent ==> n < |s.entered| && Decode(s.entered[n]).command == RESTART
  }

  ghost predicate NothingLost(s: State) {
    forall n: nat :: n < |s.entered| ==> Accounted(s, n)
  }

  /** The persistent state and the logs agree. */
  ghost predicate LogsOk(s: State) {
    QueueOk(s) && StoreOk(s) && ReportsOk(s) && DispatchOk(s) && SilentOk(s)
  }

  ghost predicate Inv(s: State) {
    LogsOk(s) && PcOk(s) && TasksOk(s) && NothingLost(s)
  }

  // ----- each step keeps the invariant -----

  /** The logs only grow. */
  ghost predicate Grows(s: State, s': State) {
    s.entered <= s'.entered && s.reports <= s'.reports && s.misread <= s'.misread && s.silent <= s'.silent
  }

  lemma ReportedStays(s: State, s': State, n: nat)
    requires Grows(s, s') && Reported(s, n)
    ensures Reported(s', n)
  {
    var r :| r in s.reports && r.origin == Some(n);
    assert r in s'.reports;
  }

  /** Growing logs leave a task in order when its row is unchanged and it is as dispatched as before. */
  lemma TaskStays(s: State, s': State, id: string)
    requires Grows(s, s')
    requires id in s.tasks && TaskOk(s, id)
    requires id in s'.tasks && s'.tasks[id] == s.tasks[id]
    requires id in s'.store && s'.store[id] == s.store[id]
    requires id in s'.dispatched <==> id in s.dispatched
    ensures TaskOk(s', id)
  {
    if Reported(s, s.tasks[id].origin) {
      ReportedStays(s, s', s.tasks[id].origin);
    }
  }

  lemma TasksStay(s: State, s': State)
    requires Grows(s, s') && TasksOk(s)
    requires s'.tasks == s.tasks && s'.store == s.store && s'.dispatched == s.dispatched
    ensures TasksOk(s')
  {
    forall id | id in s'.tasks ensures TaskOk(s', id) {
      TaskStays(s, s', id);
    }
  }

  /** Rows keep their origin and command, and new log entries name the deliveries they come from. */
  lemma LogsStay(s: State, s': State)
    requires LogsOk(s)
    requires s'.queue == s.queue && s'.entered == s.entered && s'.dispatched == s.dispatched
    requires s'.store.Keys == s.store.Keys
    requires forall id :: id in s.store ==>
      s'.store[id].origin == s.store[id].origin && s'.store[id].command == s.store[id].command
    requires forall r :: r in s'.reports ==>
      (r in s.reports || (r.id in s.store && r.origin == Some(s.store[r.id].origin)))
    requires forall n :: n in s'.silent ==>
      (n in s.silent || (n < |s.entered| && Decode(s.entered[n]).command == RESTART))
    ensures LogsOk(s')
  {
    hide Decode, Valid;
    assert forall id :: id in s'.store ==> id in s.store;
    assert forall id :: id in s.store ==> id in s'.store;
  }

  /** Nothing but the task `id`, its row and its being dispatched changes, apart from growing logs. */
  ghost predicate Touches(s: State, s': State, id: string) {
    && Grows(s, s') && s'.entered == s.entered && s'.queue == s.queue
    && (forall k :: k != id ==> (k in s'.tasks <==> k in s.tasks))
    && (forall k :: k != id && k in s.tasks ==> s'.tasks[k] == s.tasks[k])
    && (forall k :: k in s.store ==> k in s'.store)
    && (forall k :: k != id && k in s.store ==> s'.store[k] == s.store[k])
    && (forall k :: k != id ==> (k in s'.dispatched <==> k in s.dispatched))
  }

  /** Every other task stays in order. */
  lemma OtherTasksStay(s: State, s': State, id: string)
    requires Touches(s, s', id) && TasksOk(s)
    ensures forall k :: k in s'.tasks && k != id ==> TaskOk(s', k)
  {
    forall k | k in s'.tasks && k != id ensures TaskOk(s', k) {
      TaskStays(s, s', k);
    }
  }

  /** The handler's own step stays in order while one of its tasks moves. */
  lemma PcStays(s: State, s': State, id: string)
    requires Touches(s, s', id) && PcOk(s) && id in s.tasks && s'.pc == s.pc
    ensures PcOk(s')
  {
    hide Decode, Valid, Admit;
    if s.pc.Refused? && Reported(s, s.pc.n) {
      ReportedStays(s, s', s.pc.n);
    }
  }

  /** With growing logs, a delivery stays accounted for unless it leaves the queue or its row leaves
      the state of being in progress. */
  lemma AccountedStays(s: State, s': State, n: nat)
    requires Grows(s, s') && Accounted(s, n)
    requires Queued(s, n) ==> Accounted(s', n)
    requires Pending(s, n) ==> Accounted(s', n)
    ensures Accounted(s', n)
  {
    if Reported(s, n) {
      ReportedStays(s, s', n);
    }
  }

  /** With growing logs, a queue left alone and rows only added, nothing is lost. */
  lemma AccountsStay(s: State, s': State)
    requires Grows(s, s') && NothingLost(s) && s'.entered == s.entered && s'.queue == s.queue
    requires forall id :: id in s.store ==> id in s'.store && s'.store[id] == s.store[id]
    ensures NothingLost(s')
  {
    forall n: nat | n < |s.entered| ensures Accounted(s', n) {
      assert Queued(s, n) ==> Queued(s', n);
      if id :| id in s.store && s.store[id].origin == n && s.store[id].result.status == IN_PROGRESS {
        assert s'.store[id] == s.store[id];
      }
      AccountedStays(s, s', n);
    }
  }

  /** Replacing one row by an update of itself, when the delivery it comes from is answered. */
  lemma RowUpdateKeepsAccounts(s: State, s': State, id: string, row: Row)
    requires Grows(s, s') && NothingLost(s) && s'.entered == s.entered && s'.queue == s.queue
    requires id in s.store && row.origin == s.store[id].origin
    requires s'.store == s.store[id := row]
    requires row.result.status == s.store[id].result.status || Reported(s, row.origin) || row.origin in s.silent
    ensures NothingLost(s')
  {
    forall n: nat | n < |s.entered| ensures Accounted(s', n) {
      assert Queued(s, n) ==> Queued(s', n);
      if Reported(s, n) {
        ReportedStays(s, s', n);
      }
      if k :| k in s.store && s.store[k].origin == n && s.store[k].result.status == IN_PROGRESS {
        assert k != id || row.result.status == IN_PROGRESS ==> s'.store[k].origin == n && s'.store[k].result.status == IN_PROGRESS;
      }
      AccountedStays(s, s', n);
    }
  }

  /** Popping the head loses nothing when the head is accounted for elsewhere. */
  lemma PopKeepsAccounts(s: State, s': State)
    requires Grows(s, s') && NothingLost(s) && s'.entered == s.entered && s'.store == s.store
    requires s.queue != [] && (s'.queue == s.queue || s'.queue == s.queue[1..])
    requires s'.queue == s.queue || Accounted(s'.(queue := []), s.queue[0].n)
    ensures NothingLost(s')
  {
    forall n: nat | n < |s.entered| ensures Accounted(s', n) {
      assert Pending(s, n) ==> Pending(s', n);
      if i :| 0 <= i < |s.queue| && s.queue[i].n == n {
        if s'.queue == s.queue {
          assert s'.queue[i].n == n;
        } else if i == 0 {
          assert Accounted(s'.(queue := []), n);
          assert Accounted(s', n);
        } else {
          assert s'.queue[i - 1].n == n;
        }
      }
      AccountedStays(s, s', n);
    }
  }

  lemma InitHolds()
    ensures Inv(Init)
  {
  }

  lemma InvParts(s: State)
    requires Inv(s)
    ensures LogsOk(s) && PcOk(s) && TasksOk(s) && NothingLost(s)
  {
  }

  lemma InvWhole(s: State)
    requires LogsOk(s) && PcOk(s) && TasksOk(s) && NothingLost(s)
    ensures Inv(s)
  {
  }

  lemma TaskOf(s: State, id: string)
    requires TasksOk(s) && id in s.tasks
    ensures TaskOk(s, id)
  {
  }

  lemma PcFree(s: State)
    requires s.pc.Fetch? || s.pc.Await?
    ensures PcOk(s)
  {
  }

  lemma DeliveredLogs(s: State, data: Json)
    requires LogsOk(s)
    ensures LogsOk(s.(queue := s.queue + [Item(|s.entered|, data)], entered := s.entered + [data]))
  {
    hide Decode, Valid;
  }

  lemma DeliveredPc(s: State, data: Json)
    requires PcOk(s)
    ensures PcOk(s.(queue := s.queue + [Item(|s.entered|, data)], entered := s.entered + [data]))
  {
    hide Decode, Valid, Admit;
    var s' := s.(queue := s.queue + [Item(|s.entered|, data)], entered := s.entered + [data]);
    forall n: nat | Reported(s, n) ensures Reported(s', n) {
      ReportedStays(s, s', n);
    }
  }

  lemma DeliveredAccounts(s: State, data: Json)
    requires NothingLost(s)
    ensures NothingLost(s.(queue := s.queue + [Item(|s.entered|, data)], entered := s.entered + [data]))
  {
    var s' := s.(queue := s.queue + [Item(|s.entered|, data)], entered := s.entered + [data]);
    assert s'.queue[|s.queue|].n == |s.entered|;
    forall n: nat | n < |s.entered| ensures Accounted(s', n) {
      if i :| 0 <= i < |s.queue| && s.queue[i].n == n {
        assert s'.queue[i].n == n;
      }
      AccountedStays(s, s', n);
    }
  }

  lemma DeliverKeeps(s: State, data: Json)
    requires Inv(s)
    ensures Inv(Do(s, Deliver(data)))
  {
    hide Inv, LogsOk, PcOk, TasksOk, NothingLost, TaskOk, Decode, Valid, Admit;
    var s' := Do(s, Deliver(data));
    assert Grows(s, s');
    InvParts(s);
    hide *;
    DeliveredLogs(s, data);
    DeliveredPc(s, data);
    DeliveredAccounts(s, data);
    TasksStay(s, s');
    InvWhole(s');
  }

  lemma CrashKeeps(s: State)
    requires Inv(s)
    ensures Inv(Do(s, Crash))
  {
    hide Decode, Valid, Admit;
    AccountsStay(s, Do(s, Crash));
  }

  lemma ReadInProgressKeeps(s: State, ids: seq<string>, ok: bool)
    requires Inv(s) && Can(s, ReadInProgress(ids, ok))
    ensures Inv(Do(s, ReadInProgress(ids, ok)))
  {
    hide Decode, Valid, Admit;
    AccountsStay(s, Do(s, ReadInProgress(ids, ok)));
  }

  lemma SweepReportKeeps(s: State)
    requires Inv(s) && Can(s, SweepReport)
    ensures Inv(Do(s, SweepReport))
  {
    hide Inv, LogsOk, PcOk, TasksOk, NothingLost, TaskOk, Decode, Valid, Admit;
    var s', id := Do(s, SweepReport), s.pc.todo[0];
    var report := Report(id, Abandon(EntryOf(id, s.store[id])).result, Some(s.store[id].origin));
    assert s' == s.(reports := s.reports + [report], pc := Swept(s.pc.todo)) && Grows(s, s');
    InvParts(s);
    SweptPc(s, report);
    hide *;
    LogsStay(s, s');
    TasksStay(s, s');
    AccountsStay(s, s');
    InvWhole(s');
  }

  lemma SweptPc(s: State, report: Report)
    requires PcOk(s) && s.pc.Sweep? && s.pc.todo != [] && s.pc.todo[0] in s.store
    requires report.origin == Some(s.store[s.pc.todo[0]].origin)
    ensures PcOk(s.(reports := s.reports + [report], pc := Swept(s.pc.todo)))
  {
    assert report in s.reports + [report];
  }

  lemma AbandonedRow(id: string, row: Row)
    ensures var row' := UpdateRow(row, Abandon(EntryOf(id, row))); row'.origin == row.origin && row'.command == row.command
  {
  }

  lemma SweptOnPc(s: State, s': State)
    requires PcOk(s) && s.pc.Swept? && s.pc.todo != []
    requires s'.pc == SweepNext(s.pc.todo[1..]) && s'.tasks == s.tasks && s.store.Keys <= s'.store.Keys
    ensures PcOk(s') && TasksOk(s') && s.pc.todo[0] in s.store && Reported(s, s.store[s.pc.todo[0]].origin)
  {
  }

  lemma SweepUpdateKeeps(s: State, ok: bool)
    requires Inv(s) && Can(s, SweepUpdate(ok))
    ensures Inv(Do(s, SweepUpdate(ok)))
  {
    hide Inv, LogsOk, PcOk, TasksOk, NothingLost, TaskOk, Decode, Valid, Admit;
    var s', id := Do(s, SweepUpdate(ok)), s.pc.todo[0];
    var row := if ok then UpdateRow(s.store[id], Abandon(EntryOf(id, s.store[id]))) else s.store[id];
    assert s' == s.(store := s.store[id := row], pc := SweepNext(s.pc.todo[1..])) && Grows(s, s');
    InvParts(s);
    AbandonedRow(id, s.store[id]);
    hide *;
    SweptOnPc(s, s');
    LogsStay(s, s');
    RowUpdateKeepsAccounts(s, s', id, row);
    InvWhole(s');
  }

  lemma TakeKeeps(s: State)
    requires Inv(s) && Can(s, Take)
    ensures Inv(Do(s, Take))
  {
    hide Decode, Valid, Admit;
    var s' := Do(s, Take);
    TasksStay(s, s');
    AccountsStay(s, s');
  }

  lemma MisreadKeeps(s: State)
    requires Inv(s) && Can(s, Misread)
    ensures Inv(Do(s, Misread))
  {
    hide Decode, Valid, Admit;
    Admitted(JNull);
    var s' := Do(s, Misread);
    TasksStay(s, s');
    AccountsStay(s, s');
  }

  lemma RefusedLogs(s: State, s': State, report: Report)
    requires LogsOk(s) && PcOk(s) && s.pc.Refuse?
    requires report.id == s.pc.entry.id && report.origin == s.pc.origin
    requires s' == s.(reports := s.reports + [report], pc := Refused(s.pc.origin, s.pc.n))
    ensures LogsOk(s') && PcOk(s')
  {
    hide Decode, Valid;
    assert report in s'.reports;
  }

  lemma RefuseReportKeeps(s: State)
    requires Inv(s) && Can(s, RefuseReport)
    ensures Inv(Do(s, RefuseReport))
  {
    hide Inv, LogsOk, PcOk, TasksOk, NothingLost, TaskOk, Decode, Valid, Admit;
    var s' := Do(s, RefuseReport);
    var report := Report(s.pc.entry.id, s.pc.entry.result, s.pc.origin);
    assert s' == s.(reports := s.reports + [report], pc := Refused(s.pc.origin, s.pc.n)) && Grows(s, s');
    InvParts(s);
    hide *;
    RefusedLogs(s, s', report);
    TasksStay(s, s');
    AccountsStay(s, s');
    InvWhole(s');
  }

  /** A queue whose head was popped, or was not, still holds the last deliveries. */
  lemma PoppedLogs(s: State, s': State)
    requires LogsOk(s) && s.queue != [] && (s'.queue == s.queue || s'.queue == s.queue[1..])
    requires s'.entered == s.entered && s'.store == s.store && s'.reports == s.reports
    requires s'.dispatched == s.dispatched && s'.silent == s.silent
    ensures LogsOk(s')
  {
    hide Decode, Valid;
  }

  lemma RefusedPc(s: State)
    requires PcOk(s) && s.pc.Refused?
    ensures HeadIs(s, s.pc.n) && (s.pc.origin.Some? ==> Reported(s, s.pc.n))
  {
  }

  lemma RefusePopKeeps(s: State, ok: bool)
    requires Inv(s) && Can(s, RefusePop(ok))
    ensures Inv(Do(s, RefusePop(ok)))
  {
    hide Inv, LogsOk, PcOk, TasksOk, NothingLost, TaskOk, Decode, Valid, Admit;
    var s' := Do(s, RefusePop(ok));
    assert Grows(s, s') && s'.pc == Fetch;
    assert ok && s.pc.origin.None? ==> s.pc.n in s'.misread;
    InvParts(s);
    RefusedPc(s);
    if ok && s.pc.origin.Some? {
      ReportedStays(s, s'.(queue := []), s.pc.n);
    }
    assert ok ==> Accounted(s'.(queue := []), s.queue[0].n);
    hide *;
    PcFree(s');
    PoppedLogs(s, s');
    TasksStay(s, s');
    PopKeepsAccounts(s, s');
    InvWhole(s');
  }

  lemma AcceptedPc(s: State, s': State)
    requires PcOk(s) && s.pc.Inserted? && s'.pc == Launch(s.pc.entry, s.pc.n)
    requires s'.entered == s.entered && s'.store == s.store && s'.dispatched == s.dispatched && s'.tasks == s.tasks
    ensures PcOk(s') && HeadIs(s, s.pc.n) && Pending(s', s.pc.n)
  {
    hide Decode, Valid, Admit;
    assert s.pc.entry.id in s.store;
  }

  lemma AcceptPopKeeps(s: State, ok: bool)
    requires Inv(s) && Can(s, AcceptPop(ok))
    ensures Inv(Do(s, AcceptPop(ok)))
  {
    hide Inv, LogsOk, PcOk, TasksOk, NothingLost, TaskOk, Decode, Valid, Admit;
    var s' := Do(s, AcceptPop(ok));
    assert Grows(s, s');
    InvParts(s);
    AcceptedPc(s, s');
    assert Accounted(s'.(queue := []), s.queue[0].n);
    hide *;
    PoppedLogs(s, s');
    TasksStay(s, s');
    PopKeepsAccounts(s, s');
    InvWhole(s');
  }

  /** An id without a row was never run. */
  lemma NeverRan(s: State, id: string)
    requires LogsOk(s) && TasksOk(s) && id !in s.store
    ensures id !in s.tasks && id !in s.dispatched
  {
    hide Decode, Valid, Admit;
    assert id in s.tasks ==> TaskOk(s, id);
  }

  lemma InsertPc(s: State)
    requires PcOk(s) && s.pc.Insert?
    ensures HeadIs(s, s.pc.n) && AdmittedFrom(s, s.pc.entry, s.pc.n)
  {
  }

  /** The insert creates the row of the head, which no task runs and which was never dispatched. */
  lemma StoredRow(s: State, ok: bool)
    requires LogsOk(s) && PcOk(s) && TasksOk(s) && s.pc.Insert?
    ensures PcOk(AfterStore(s, ok))
  {
    hide LogsOk, TasksOk, Decode, Valid, Admit;
    InsertPc(s);
    HeadEntered(s);
    Admitted(s.entered[s.pc.n]);
    if s.pc.entry.id !in s.store {
      NeverRan(s, s.pc.entry.id);
    }
  }

  lemma HeadEntered(s: State)
    requires LogsOk(s) && s.queue != []
    ensures s.queue[0].n < |s.entered| && s.queue[0].data == s.entered[s.queue[0].n]
  {
  }

  lemma StoredLogs(s: State, ok: bool)
    requires LogsOk(s) && PcOk(s) && s.pc.Insert?
    ensures LogsOk(AfterStore(s, ok))
  {
    hide Decode, Valid, Admit, PcOk;
    InsertPc(s);
    Admitted(s.entered[s.pc.n]);
  }

  lemma StoreKeeps(s: State, ok: bool)
    requires Inv(s) && s.pc.Insert?
    ensures Inv(AfterStore(s, ok))
  {
    hide Inv, LogsOk, PcOk, TasksOk, NothingLost, TaskOk, Decode, Valid, Admit;
    var s' := AfterStore(s, ok);
    assert Grows(s, s') && s'.tasks == s.tasks && s'.dispatched == s.dispatched && s'.entered == s.entered && s'.queue == s.queue;
    assert forall id :: id in s.store ==> id in s'.store && s'.store[id] == s.store[id];
    InvParts(s);
    hide *;
    StoredRow(s, ok);
    StoredLogs(s, ok);
    StoredTasks(s, s');
    AccountsStay(s, s');
    InvWhole(s');
  }

  lemma StoredTasks(s: State, s': State)
    requires Grows(s, s') && TasksOk(s) && s'.tasks == s.tasks && s'.dispatched == s.dispatched
    requires forall id :: id in s.store ==> id in s'.store && s'.store[id] == s.store[id]
    ensures TasksOk(s')
  {
    forall id | id in s'.tasks ensures TaskOk(s', id) {
      assert TaskOk(s, id);
      TaskStays(s, s', id);
    }
  }

  lemma SpawnKeeps(s: State)
    requires Inv(s) && s.pc.Launch?
    ensures Inv(AfterSpawn(s))
  {
    hide Inv, LogsOk, PcOk, TasksOk, NothingLost, TaskOk, Decode, Valid, Admit;
    var s', id := AfterSpawn(s), s.pc.entry.id;
    assert Touches(s, s', id) && s'.store == s.store && (s'.pc.Fetch? || s'.pc.Await?);
    InvParts(s);
    SpawnedTask(s);
    hide *;
    PcFree(s');
    LogsStay(s, s');
    OtherTasksStay(s, s', id);
    TasksWhole(s');
    AccountsStay(s, s');
    InvWhole(s');
  }

  lemma TasksWhole(s: State)
    requires forall id :: id in s.tasks ==> TaskOk(s, id)
    ensures TasksOk(s)
  {
  }

  lemma SpawnedTask(s: State)
    requires PcOk(s) && s.pc.Launch?
    ensures TaskOk(AfterSpawn(s), s.pc.entry.id)
  {
    hide Decode, Valid, Admit;
  }

  lemma RowOfTask(s: State, id: string)
    requires LogsOk(s) && id in s.tasks && TaskOk(s, id)
    ensures s.store[id].command == s.tasks[id].entry.command
  {
    hide Decode, Valid, Admit;
    Admitted(s.entered[s.tasks[id].origin]);
  }

  lemma DispatchedLogs(s: State, id: string)
    requires LogsOk(s) && id in s.tasks && id in s.store && id !in s.dispatched
    ensures LogsOk(AfterDispatch(s, id))
  {
    hide Decode, Valid;
  }

  lemma DispatchedTask(s: State, id: string)
    requires id in s.tasks && TaskOk(s, id) && s.tasks[id].phase.Ready?
    ensures id in s.store && id !in s.dispatched && TaskOk(AfterDispatch(s, id), id)
  {
    hide Decode, Valid, Admit;
    assert id in s.dispatched + [id];
  }

  lemma DispatchKeeps(s: State, id: string)
    requires Inv(s) && id in s.tasks && s.tasks[id].phase.Ready?
    ensures Inv(AfterDispatch(s, id))
  {
    hide Inv, LogsOk, PcOk, TasksOk, NothingLost, TaskOk, Decode, Valid, Admit;
    var s' := AfterDispatch(s, id);
    assert Touches(s, s', id) && s'.store == s.store && s'.pc == s.pc;
    InvParts(s);
    hide *;
    TaskOf(s, id);
    DispatchedTask(s, id);
    DispatchedLogs(s, id);
    OtherTasksStay(s, s', id);
    TasksWhole(s');
    PcStays(s, s', id);
    AccountsStay(s, s');
    InvWhole(s');
  }

  /** A finished task is answered for, or is a restart. */
  lemma FinishedTask(s: State, id: string, result: Result, found: bool)
    requires TasksOk(s) && id in s.tasks && s.tasks[id].phase.Running? && Outcome(s.tasks[id].entry.mod, found, result)
    ensures var s' := AfterFinish(s, id, result, found);
            && TaskOk(s', id)
            && (s'.silent == s.silent || Decode(s.entered[s.tasks[id].origin]).command == RESTART)
  {
    hide Decode, Valid, Admit;
    var s' := AfterFinish(s, id, result, found);
    var t := s.tasks[id];
    assert TaskOk(s, id);
    Admitted(s.entered[t.origin]);
    assert Reports(t.entry.mod, found) ==> s'.reports[|s.reports|].origin == Some(t.origin);
    if Reported(s, t.origin) {
      ReportedStays(s, s', t.origin);
    }
  }

  lemma FinishKeeps(s: State, id: string, result: Result, found: bool)
    requires Inv(s) && id in s.tasks && s.tasks[id].phase.Running? && Outcome(s.tasks[id].entry.mod, found, result)
    ensures Inv(AfterFinish(s, id, result, found))
  {
    hide Decode, Valid, Admit, Outcome, Reports, LogsOk, PcOk, NothingLost;
    var s' := AfterFinish(s, id, result, found);
    FinishedTask(s, id, result, found);
    assert TaskOk(s, id);
    hide TaskOk;
    LogsStay(s, s');
    assert Touches(s, s', id);
    hide Touches;
    OtherTasksStay(s, s', id);
    PcStays(s, s', id);
    AccountsStay(s, s');
  }

  lemma ResultRow(s: State, id: string)
    requires LogsOk(s) && id in s.tasks && TaskOk(s, id) && s.tasks[id].phase.Done?
    ensures var t := s.tasks[id]; var row := UpdateRow(s.store[id], t.entry.(result := t.phase.result));
            && row.origin == s.store[id].origin && row.command == s.store[id].command
            && (row.result.status == s.store[id].result.status || Reported(s, row.origin) || row.origin in s.silent)
  {
    RowOfTask(s, id);
    hide Decode, Valid, Admit;
  }

  lemma RecordedPc(s: State, s': State, id: string)
    requires PcOk(s) && id in s.tasks && Touches(s, s', id) && (s'.pc == s.pc || s'.pc == Fetch)
    ensures PcOk(s')
  {
    if s'.pc == s.pc {
      PcStays(s, s', id);
    }
  }

  lemma RecordKeeps(s: State, id: string, ok: bool)
    requires Inv(s) && id in s.tasks && s.tasks[id].phase.Done? && id in s.store
    ensures Inv(AfterRecord(s, id, ok))
  {
    hide Inv, LogsOk, PcOk, TasksOk, NothingLost, TaskOk, Decode, Valid, Admit;
    var s', t := AfterRecord(s, id, ok), s.tasks[id];
    var row := if ok then UpdateRow(s.store[id], t.entry.(result := t.phase.result)) else s.store[id];
    assert s' == s.(store := s.store[id := row], tasks := s.tasks - {id}, pc := if s.pc == Await(id) then Fetch else s.pc);
    InvParts(s);
    assert Touches(s, s', id) && Grows(s, s');
    hide *;
    TaskOf(s, id);
    ResultRow(s, id);
    LogsStay(s, s');
    RowUpdateKeepsAccounts(s, s', id, row);
    OtherTasksStay(s, s', id);
    TasksWhole(s');
    RecordedPc(s, s', id);
    InvWhole(s');
  }

  lemma StepKeeps(s: State, step: Step)
    requires Inv(s) && Can(s, step)
    ensures Inv(Do(s, step))
  {
    hide Inv;
    match step
    case Deliver(data) => DeliverKeeps(s, data);
    case Crash => CrashKeeps(s);
    case ReadInProgress(ids, ok) => ReadInProgressKeeps(s, ids, ok);
    case SweepReport => SweepReportKeeps(s);
    case SweepUpdate(ok) => SweepUpdateKeeps(s, ok);
    case Take => TakeKeeps(s);
    case Misread => MisreadKeeps(s);
    case RefuseReport => RefuseReportKeeps(s);
    case RefusePop(ok) => RefusePopKeeps(s, ok);
    case StoreRow(ok) => StoreKeeps(s, ok);
    case AcceptPop(ok) => AcceptPopKeeps(s, ok);
    case Spawn => SpawnKeeps(s);
    case Dispatch(id) => DispatchKeeps(s, id);
    case Finish(id, result, found) => FinishKeeps(s, id, result, found);
    case Record(id, ok) => RecordKeeps(s, id, ok);
  }
}
