/**
 The handler's own code: the store operations, the clean-up at start-up and the processing loop,
 in the order of their statements. Each method is proved to take steps of the command machine, so
 what holds over every run of the machine holds of this code.
 */
module CommandHandler {
  import opened Options
  import opened Paths
  import opened Commands
  import opened CommandMachine

  lemma ReachesStep(s: State, t: State, step: Step)
    requires Reaches(s, t, Follows) && Can(t, step)
    ensures Reaches(s, Do(t, step), Follows)
  {
    hide Do, Can, Reaches;
    assert Follows(t, Do(t, step));
    ReachesNext(s, t, Do(t, step), Follows);
  }

  /** What the environment decides in one turn of the loop: which database calls succeed, what the
      executed command or the restart handler answers, whether the module exists, and which commands are
      delivered before the turn and while it works on its command. */
  datatype Turn = Turn(readOk: bool, storeOk: bool, popOk: bool, updateOk: bool,
                       ran: Result, restarting: bool, found: bool, arrivals: seq<Json>, meanwhile: seq<Json>)

  /** Commands queued after `n` deliveries. */
  function Items(n: nat, data: seq<Json>): (r: seq<Item>)
    ensures |r| == |data| && forall i :: 0 <= i < |data| ==> r[i] == Item(n + i, data[i])
  {
    seq(|data|, i requires 0 <= i < |data| => Item(n + i, data[i]))
  }

  lemma ItemsConcat(n: nat, a: seq<Json>, b: seq<Json>)
    ensures Items(n, a + b) == Items(n, a) + Items(n + |a|, b)
  {
  }

  /** Everything delivered in some turns. */
  function Arrivals(turns: seq<Turn>): seq<Json> {
    if turns == [] then []
    else
      var n := |turns| - 1;
      Arrivals(turns[..n]) + turns[n].arrivals + turns[n].meanwhile
  }

  function Answer(e: Entry, t: Turn): Result {
    if e.mod == CENTRALIZED_CONFIGURATION then t.ran
    else if e.mod == RESTART_HANDLER then
      if t.restarting then Result(IN_PROGRESS, "Pending restart execution")
      else Result(FAILURE, "Systemctl restart failed")
    else if t.found then t.ran
    else Result(FAILURE, "Module not found")
  }

  /** What a command that is not run is answered with: it was not accepted, or its row could not be stored. */
  function Refusal(accepted: bool): Result {
    Result(FAILURE, if accepted then "Agent's database failure" else "Command is not valid")
  }

  function InterruptedReport(id: string, row: Row): Report {
    Report(id, Interrupted(row).result, Some(row.origin))
  }

  /** One report per listed row, in the order of the list. */
  function InterruptedReports(store: map<string, Row>, ids: seq<string>): seq<Report>
    requires forall id <- ids :: id in store
  {
    if ids == [] then []
    else InterruptedReports(store, ids[..|ids| - 1]) + [InterruptedReport(ids[|ids| - 1], store[ids[|ids| - 1]])]
  }

  /** The store after the listed rows were answered, in order; a write that fails leaves its row alone. */
  function Cleaned(store: map<string, Row>, ids: seq<string>, writes: seq<bool>): (r: map<string, Row>)
    requires |writes| == |ids| && forall id <- ids :: id in store
    ensures r.Keys == store.Keys
  {
    if ids == [] then store
    else
      var k := |ids| - 1;
      var prev := Cleaned(store, ids[..k], writes[..k]);
      if writes[k] then prev[ids[k] := UpdateRow(prev[ids[k]], Abandon(EntryOf(ids[k], prev[ids[k]])))] else prev
  }

  /** A restart that was under way has succeeded, anything else has failed. */
  function Interrupted(row: Row): Row {
    row.(result := if row.command == "restart" then Result(SUCCESS, "Agent restarted successfully")
                   else Result(FAILURE, "Agent stopped during execution"))
  }

  predicate Written(ids: seq<string>, writes: seq<bool>, id: string)
    requires |writes| == |ids|
  {
    exists j :: 0 <= j < |ids| && ids[j] == id && writes[j]
  }

  lemma WrittenLast(ids: seq<string>, writes: seq<bool>, id: string)
    requires |writes| == |ids| > 0
    ensures var k := |ids| - 1;
            Written(ids, writes, id) <==> Written(ids[..k], writes[..k], id) || (ids[k] == id && writes[k])
  {
    var k := |ids| - 1;
    if Written(ids[..k], writes[..k], id) {
      var j :| 0 <= j < k && ids[..k][j] == id && writes[..k][j];
      assert ids[j] == id && writes[j];
    }
    if Written(ids, writes, id) {
      var j :| 0 <= j < |ids| && ids[j] == id && writes[j];
      assert j < k ==> ids[..k][j] == id && writes[..k][j];
    }
  }

  /** Exactly the listed rows whose write succeeds change, and only in their result. */
  lemma {:induction false} CleanedRow(store: map<string, Row>, ids: seq<string>, writes: seq<bool>, id: string)
    requires |writes| == |ids| && id in store && forall k <- ids :: k in store
    ensures Cleaned(store, ids, writes)[id] == if Written(ids, writes, id) then Interrupted(store[id]) else store[id]
  {
    if ids != [] {
      var k := |ids| - 1;
      assert ids == ids[..k] + [ids[k]];
      CleanedRow(store, ids[..k], writes[..k], id);
      WrittenLast(ids, writes, id);
      hide Written;
    }
  }

  /** When every write succeeds, no command is left in progress. */
  lemma CleanedLeavesNone(store: map<string, Row>, ids: seq<string>, writes: seq<bool>)
    requires Lists(ids, InProgress(store)) && |writes| == |ids|
    requires forall j :: 0 <= j < |writes| ==> writes[j]
    ensures InProgress(Cleaned(store, ids, writes)) == {}
  {
    var r := Cleaned(store, ids, writes);
    forall id | id in r ensures r[id].result.status != IN_PROGRESS {
      CleanedRow(store, ids, writes, id);
      assert id in store.Keys;
      if id in ids {
        var j :| 0 <= j < |ids| && ids[j] == id;
        assert Written(ids, writes, id);
      } else {
        assert id !in InProgress(store);
      }
    }
  }

  /** The head is examined, or the empty object that a failed read gives. */
  lemma HeadSteps(s: State, readOk: bool)
    requires s.pc.Fetch? && s.queue != []
    ensures var item := s.queue[0];
            Reaches(s, s.(pc := if readOk then Examine(Decode(item.data), Some(item.n), item.n)
                                else Examine(Decode(JObject(map[])), None, item.n)), Follows)
    ensures Decode(JObject(map[])).id == ""
  {
    assert Decode(JObject(map[])).id == "";
    hide Decode, Reaches, Examine;
    ReachesSelf(s, Follows);
    ReachesStep(s, s, if readOk then Take else Misread);
  }

  lemma StoreSteps(s: State, storeOk: bool)
    requires s.pc.Insert?
    ensures Reaches(s, AfterStore(s, storeOk), Follows)
  {
    ReachesSelf(s, Follows);
    ReachesStep(s, s, StoreRow(storeOk));
  }

  lemma RefuseSteps(s: State)
    requires s.pc.Refuse?
    ensures var report := Report(s.pc.entry.id, s.pc.entry.result, s.pc.origin);
            Reaches(s, s.(reports := s.reports + [report], pc := Refused(s.pc.origin, s.pc.n)), Follows)
  {
    ReachesSelf(s, Follows);
    ReachesStep(s, s, RefuseReport);
  }

  lemma RefusedSteps(s: State, t: State, popOk: bool)
    requires Reaches(s, t, Follows) && t.pc.Refused? && t.queue != []
    ensures Reaches(s, t.(queue := if popOk then t.queue[1..] else t.queue, pc := Fetch,
                          misread := if popOk && t.pc.origin.None? then t.misread + {t.pc.n} else t.misread), Follows)
  {
    ReachesStep(s, t, RefusePop(popOk));
  }

  lemma AcceptSteps(s: State, t: State, popOk: bool)
    requires Reaches(s, t, Follows) && t.pc.Inserted? && t.queue != []
    ensures Reaches(s, t.(queue := if popOk then t.queue[1..] else t.queue, pc := Launch(t.pc.entry, t.pc.n)), Follows)
  {
    ReachesStep(s, t, AcceptPop(popOk));
  }

  lemma {:induction false} PathKeeps(run: seq<State>, i: nat)
    requires Chain(run, Follows) && i < |run| && Inv(run[0])
    ensures Inv(run[i])
  {
    hide Inv, Do, Can;
    if i > 0 {
      PathKeeps(run, i - 1);
      assert Follows(run[i - 1], run[i]);
      var step :| Can(run[i - 1], step) && run[i] == Do(run[i - 1], step);
      StepKeeps(run[i - 1], step);
    }
  }

  lemma ReachesKeeps(s: State, t: State)
    requires Reaches(s, t, Follows) && Inv(s)
    ensures Inv(t)
  {
    hide Inv, Follows;
    var run :| Leads(run, s, t, Follows);
    PathKeeps(run, |run| - 1);
  }

  /** The four steps of a synchronous dispatch. */
  lemma DispatchSteps(s: State, result: Result, found: bool, ok: bool)
    requires s.pc.Launch? && s.tasks == map[] && s.pc.entry.mode == SYNC && s.pc.entry.id in s.store
    requires Outcome(s.pc.entry.mod, found, result)
    ensures var e := s.pc.entry; var told := Reports(e.mod, found);
            Reaches(s, s.(pc := Fetch, dispatched := s.dispatched + [e.id],
                          reports := if told then s.reports + [Report(e.id, result, Some(s.pc.n))] else s.reports,
                          silent := if told || result.status in {IN_PROGRESS, UNKNOWN} then s.silent else s.silent + {s.pc.n},
                          store := if ok then s.store[e.id := UpdateRow(s.store[e.id], e.(result := result))] else s.store), Follows)
  {
    hide Outcome, Reports, Follows, UpdateRow;
    var id := s.pc.entry.id;
    var a := AfterSpawn(s);
    var b := AfterDispatch(a, id);
    var c := AfterFinish(b, id, result, found);
    ReachesSelf(s, Follows);
    ReachesStep(s, s, Spawn);
    ReachesStep(s, a, Dispatch(id));
    ReachesStep(s, b, Finish(id, result, found));
    ReachesStep(s, c, Record(id, ok));
    hide Reaches;
    assert AfterRecord(c, id, ok).tasks == s.tasks;
  }

  /** What the execution of a command answers: a restart what its handler says, anything else its module. */
  function FinalResult(name: string, turn: Turn): Result {
    if name != "restart" then turn.ran
    else if turn.restarting then Result(IN_PROGRESS, "Pending restart execution")
    else Result(FAILURE, "Systemctl restart failed")
  }

  /** The row that delivery `n` of the command leaves: in progress, or with the answer if that could be recorded. */
  function FinalRow(name: string, args: map<string, Json>, turn: Turn, n: nat): Row {
    Row(if name == "restart" then "RestartHandler" else "CentralizedConfiguration", name, args, SYNC,
        if !turn.updateOk || FinalResult(name, turn).status == UNKNOWN
        then Result(IN_PROGRESS, if turn.updateOk then FinalResult(name, turn).message else "") else FinalResult(name, turn), n)
  }

  /** The report of the command, if it is reported at all. */
  function FinalReports(id: string, name: string, turn: Turn, n: nat): seq<Report> {
    if name == "restart" then [] else [Report(id, turn.ran, Some(n))]
  }

  lemma FinalResults(data: Json, id: string, name: string, args: map<string, Json>, turn: Turn, n: nat)
    requires Sends(data, id, name, args) && Acceptable(name, args)
    ensures Valid(Decode(data))
    ensures var e := Admit(Decode(data));
            && e.id == id && FinalReports(id, name, turn, n) == ReportsOf(e, turn, n)
            && FinalRow(name, args, turn, n) == RowAfter(e, turn, n)
  {
    Decodes(data, id, name, args);
    AcceptedIff(Decode(data));
  }

  lemma SentParts(data: Json, turn: Turn, n: nat)
    ensures forall id, name, args :: Sends(data, id, name, args) ==>
      && Decode(data).id == id && (Valid(Decode(data)) <==> Acceptable(name, args))
      && (Acceptable(name, args) ==> var e := Admit(Decode(data));
            e.id == id && FinalReports(id, name, turn, n) == ReportsOf(e, turn, n) && FinalRow(name, args, turn, n) == RowAfter(e, turn, n))
  {
    hide FinalRow, FinalReports, ReportsOf, RowAfter, Admit;
    forall id, name, args | Sends(data, id, name, args)
      ensures Decode(data).id == id && (Valid(Decode(data)) <==> Acceptable(name, args))
      ensures Acceptable(name, args) ==>
        var e := Admit(Decode(data));
        e.id == id && FinalReports(id, name, turn, n) == ReportsOf(e, turn, n) && FinalRow(name, args, turn, n) == RowAfter(e, turn, n)
    {
      Decodes(data, id, name, args);
      AcceptedIff(Decode(data));
      if Acceptable(name, args) {
        FinalResults(data, id, name, args, turn, n);
      }
    }
  }

  function ReportsOf(e: Entry, turn: Turn, n: nat): seq<Report> {
    if Reports(e.mod, turn.found) then [Report(e.id, Answer(e, turn), Some(n))] else []
  }

  /** The configuration module always answers; the restart handler never does; any other module does exactly
      when it is there. */
  lemma ReportsWhen(e: Entry, turn: Turn, n: nat)
    ensures e.mod == "CentralizedConfiguration" ==> ReportsOf(e, turn, n) == [Report(e.id, turn.ran, Some(n))]
    ensures e.mod == "RestartHandler" ==> ReportsOf(e, turn, n) == []
    ensures e.mod !in {"CentralizedConfiguration", "RestartHandler"} ==>
      ReportsOf(e, turn, n) == if turn.found then [Report(e.id, turn.ran, Some(n))] else []
  {
  }

  function RowAfter(e: Entry, turn: Turn, n: nat): Row {
    if turn.updateOk then UpdateRow(RowOf(e, n), e.(result := Answer(e, turn))) else RowOf(e, n)
  }

  class Handler {
    var queue: seq<Item>
    var store: map<string, Row>
    var reports: seq<Report>
    /** Every command delivered so far; a queued command carries its number in this list. */
    var entered: seq<Json>
    ghost var dispatched: seq<string>
    ghost var misread: set<nat>
    ghost var silent: set<nat>

    ghost function View(pc: Pc): State
      reads this
    {
      State(queue, store, pc, map[], entered, dispatched, reports, misread, silent)
    }

    /** Commands are delivered, whatever the handler is doing. */
    method Arrive(data: seq<Json>, ghost pc: Pc)
      modifies this`queue, this`entered
      ensures Reaches(old(View(pc)), View(pc), Follows)
      ensures entered == old(entered) + data && queue == old(queue) + Items(|old(entered)|, data)
    {
      hide Reaches;
      ghost var start := View(pc);
      ReachesSelf(start, Follows);
      ghost var n := |entered|;
      for i := 0 to |data|
        invariant entered == old(entered) + data[..i] && queue == old(queue) + Items(n, data[..i])
        invariant Reaches(start, View(pc), Follows)
      {
        ReachesStep(start, View(pc), Deliver(data[i]));
        assert Items(n, data[..i + 1]) == Items(n, data[..i]) + [Item(n + i, data[i])];
        queue := queue + [Item(|entered|, data[i])];
        entered := entered + [data[i]];
      }
      assert data[..|data|] == data;
    }

    method StoreCommand(e: Entry, n: nat, ok: bool) returns (stored: bool)
      modifies this`store
      ensures stored <==> ok && e.id !in old(store)
      ensures store == if stored then old(store)[e.id := RowOf(e, n)] else old(store)
    {
      stored := ok && e.id !in store;
      if stored {
        store := store[e.id := RowOf(e, n)];
      }
    }

    method UpdateCommand(e: Entry, ok: bool) returns (updated: bool)
      requires e.id in store
      modifies this`store
      ensures updated == ok
      ensures store == if ok then old(store)[e.id := UpdateRow(old(store[e.id]), e)] else old(store)
    {
      updated := ok;
      if ok {
        store := store[e.id := UpdateRow(store[e.id], e)];
      }
    }

    /** The commands in progress, in the order `ids` in which the database lists them; nothing when
        the read fails or there are none. */
    method GetInProgress(ids: seq<string>, ok: bool) returns (r: Option<seq<Entry>>)
      requires Lists(ids, InProgress(store))
      ensures r.Some? <==> ok && ids != []
      ensures r.Some? ==> |r.value| == |ids| && forall i :: 0 <= i < |ids| ==> ids[i] in store && r.value[i] == EntryOf(ids[i], store[ids[i]])
    {
      if !ok || ids == [] {
        return None;
      }
      var commands: seq<Entry> := [];
      for i := 0 to |ids|
        invariant |commands| == i
        invariant forall j :: 0 <= j < i ==> ids[j] in store && commands[j] == EntryOf(ids[j], store[ids[j]])
      {
        assert ids[i] in InProgress(store);
        commands := commands + [EntryOf(ids[i], store[ids[i]])];
      }
      return Some(commands);
    }

    /** One turn of the clean-up: answer the command, then update its row. */
    method AnswerInterrupted(cmd: Entry, ok: bool, ghost todo: seq<string>)
      requires cmd.id in store && cmd == EntryOf(cmd.id, store[cmd.id])
      requires todo != [] && todo[0] == cmd.id
      modifies this`store, this`reports
      ensures reports == old(reports) + [InterruptedReport(cmd.id, old(store)[cmd.id])]
      ensures store == if ok then old(store)[cmd.id := UpdateRow(old(store)[cmd.id], Abandon(cmd))] else old(store)
      ensures Reaches(old(View(Sweep(todo))), View(SweepNext(todo[1..])), Follows)
    {
      ghost var s := View(Sweep(todo));
      ghost var t := Do(s, SweepReport);
      ReachesSelf(s, Follows);
      ReachesStep(s, s, SweepReport);
      ReachesStep(s, t, SweepUpdate(ok));
      hide Reaches;
      var answered := Abandon(cmd);
      reports := reports + [Report(cmd.id, answered.result, Some(store[cmd.id].origin))];
      var _ := UpdateCommand(answered, ok);
    }

    /** The loop over the commands that were found in progress. */
    method AnswerAllInterrupted(cmds: seq<Entry>, ids: seq<string>, writes: seq<bool>)
      requires |cmds| == |writes| == |ids|
      requires forall i :: 0 <= i < |ids| ==> ids[i] in store && cmds[i] == EntryOf(ids[i], store[ids[i]])
      requires forall i, j :: 0 <= i < j < |ids| ==> ids[i] != ids[j]
      modifies this`store, this`reports
      ensures Reaches(old(View(SweepNext(ids))), View(Fetch), Follows)
      ensures store == Cleaned(old(store), ids, writes)
      ensures reports == old(reports) + InterruptedReports(old(store), ids)
    {
      hide Reaches, Follows, Abandon, UpdateRow, Interrupted;
      ghost var start := View(SweepNext(ids));
      ReachesSelf(start, Follows);
      assert ids[0..] == ids;
      for i := 0 to |ids|
        invariant store == Cleaned(old(store), ids[..i], writes[..i])
        invariant reports == old(reports) + InterruptedReports(old(store), ids[..i])
        invariant Reaches(start, View(SweepNext(ids[i..])), Follows)
      {
        CleanedRow(old(store), ids[..i], writes[..i], ids[i]);
        assert ids[i..][1..] == ids[i + 1..];
        assert ids[..i + 1][..i] == ids[..i] && writes[..i + 1][..i] == writes[..i];
        ghost var before := View(Sweep(ids[i..]));
        AnswerInterrupted(cmds[i], writes[i], ids[i..]);
        ReachesTrans(start, before, View(SweepNext(ids[i + 1..])), Follows);
      }
      assert ids[..|ids|] == ids && writes[..|ids|] == writes && ids[|ids|..] == [];
    }

    /** Every command found in progress is answered once, in order: a restart as a success,
        anything else as a failure. */
    method CleanUpInProgressCommands(ids: seq<string>, readOk: bool, writes: seq<bool>)
      requires Lists(ids, InProgress(store)) && |writes| == |ids|
      modifies this`store, this`reports
      ensures Reaches(old(View(Boot)), View(Fetch), Follows)
      ensures store == if readOk then Cleaned(old(store), ids, writes) else old(store)
      ensures reports == if readOk then old(reports) + InterruptedReports(old(store), ids) else old(reports)
    {
      ghost var start := View(Boot);
      ReachesSelf(start, Follows);
      ReachesStep(start, start, ReadInProgress(ids, readOk));
      var cmds := GetInProgress(ids, readOk);
      if cmds.Some? {
        hide Reaches, Do, Can;
        AnswerAllInterrupted(cmds.value, ids, writes);
        ReachesTrans(start, old(View(SweepNext(ids))), View(Fetch), Follows);
      }
    }

    /** A refused command is answered with a failure and popped. `origin` is absent when the head could
        not be read. */
    method RefuseCommand(e: Entry, origin: Option<nat>, popOk: bool, meanwhile: seq<Json>)
      requires queue != []
      modifies this`queue, this`entered, this`reports, this`misread
      ensures Reaches(old(View(Refuse(e, origin, queue[0].n))), View(Fetch), Follows)
      ensures reports == old(reports) + [Report(e.id, e.result, origin)]
      ensures entered == old(entered) + meanwhile
      ensures queue == Rest(old(queue), popOk) + Items(|old(entered)|, meanwhile)
      ensures misread == if popOk && origin.None? then old(misread) + {old(queue)[0].n} else old(misread)
    {
      hide Reaches, Follows;
      ghost var s := View(Refuse(e, origin, queue[0].n));
      RefuseSteps(s);
      ghost var head := queue[0].n;
      reports := reports + [Report(e.id, e.result, origin)];
      ghost var t := View(Refused(origin, head));
      Arrive(meanwhile, Refused(origin, head));
      ReachesTrans(s, t, View(Refused(origin, head)), Follows);
      RefusedSteps(s, View(Refused(origin, head)), popOk);
      if popOk {
        misread := if origin.None? then misread + {queue[0].n} else misread;
        queue := queue[1..];
      }
    }

    /** Run a stored command to its end and record the result. */
    method DispatchAndRecord(e: Entry, n: nat, turn: Turn)
      requires e.id in store && e.mode == SYNC
      modifies this`store, this`reports, this`dispatched, this`silent
      ensures Reaches(old(View(Launch(e, n))), View(Fetch), Follows)
      ensures dispatched == old(dispatched) + [e.id]
      ensures reports == old(reports) + ReportsOf(e, turn, n)
      ensures store == if turn.updateOk
                       then old(store)[e.id := UpdateRow(old(store)[e.id], e.(result := Answer(e, turn)))] else old(store)
    {
      var result := Answer(e, turn);
      ghost var s := View(Launch(e, n));
      DispatchSteps(s, result, turn.found, turn.updateOk);
      dispatched := dispatched + [e.id];
      if Reports(e.mod, turn.found) {
        reports := reports + [Report(e.id, result, Some(n))];
      } else if result.status != IN_PROGRESS && result.status != UNKNOWN {
        silent := silent + {n};
      }
      hide Reaches;
      var _ := UpdateCommand(e.(result := result), turn.updateOk);
    }

    /** A command whose row was inserted is popped and run. */
    method RunStored(e: Entry, turn: Turn)
      requires queue != [] && e.mode == SYNC && e.id in store
      modifies this`queue, this`entered, this`store, this`reports, this`dispatched, this`silent
      ensures Reaches(old(View(Inserted(e, queue[0].n))), View(Fetch), Follows)
      ensures entered == old(entered) + turn.meanwhile
      ensures queue == Rest(old(queue), turn.popOk) + Items(|old(entered)|, turn.meanwhile)
      ensures dispatched == old(dispatched) + [e.id] && reports == old(reports) + ReportsOf(e, turn, old(queue)[0].n)
      ensures store == if turn.updateOk
                       then old(store)[e.id := UpdateRow(old(store)[e.id], e.(result := Answer(e, turn)))] else old(store)
    {
      hide Reaches, Follows, ReportsOf, UpdateRow, Answer;
      var n := queue[0].n;
      ghost var s := View(Inserted(e, n));
      ReachesSelf(s, Follows);
      AcceptSteps(s, s, turn.popOk);
      if turn.popOk {
        queue := queue[1..];
      }
      ghost var t := View(Launch(e, n));
      Arrive(turn.meanwhile, Launch(e, n));
      ghost var u := View(Launch(e, n));
      ReachesTrans(s, t, u, Follows);
      DispatchAndRecord(e, n, turn);
      ReachesTrans(s, u, View(Fetch), Follows);
    }

    /** A valid command: its row is inserted before it is popped and run; a second delivery of its id
        is refused. */
    method ProcessValid(e: Entry, turn: Turn)
      requires queue != [] && e.mode == SYNC
      modifies this`queue, this`entered, this`store, this`reports, this`dispatched, this`silent, this`misread
      ensures Reaches(old(View(Insert(e, queue[0].n))), View(Fetch), Follows)
      ensures entered == old(entered) + turn.meanwhile
      ensures queue == Rest(old(queue), turn.popOk) + Items(|old(entered)|, turn.meanwhile)
      ensures if turn.storeOk && e.id !in old(store)
              then dispatched == old(dispatched) + [e.id] &&
                   store == old(store)[e.id := RowAfter(e, turn, old(queue)[0].n)] &&
                   reports == old(reports) + ReportsOf(e, turn, old(queue)[0].n)
              else dispatched == old(dispatched) && store == old(store) &&
                   reports == old(reports) + [Report(e.id, Refusal(true), Some(old(queue)[0].n))]
    {
      hide Reaches, Follows, ReportsOf, UpdateRow, Answer, RowOf;
      var n := queue[0].n;
      ghost var s := View(Insert(e, n));
      StoreSteps(s, turn.storeOk);
      var stored := StoreCommand(e, n, turn.storeOk);
      ghost var t := View(if stored then Inserted(e, n) else Refuse(e.(result := FAILED_STORE), Some(n), n));
      if stored {
        RunStored(e, turn);
      } else {
        RefuseCommand(e.(result := FAILED_STORE), Some(n), turn.popOk, turn.meanwhile);
      }
      ReachesTrans(s, t, View(Fetch), Follows);
    }

    /** One turn of the processing loop on a non-empty queue. A valid command whose id is new is
        executed once; any other head is answered with a failure; either way the head is popped. */
    method ProcessHead(turn: Turn)
      requires queue != []
      modifies this`queue, this`entered, this`store, this`reports, this`dispatched, this`silent, this`misread
      ensures Reaches(old(View(Fetch)), View(Fetch), Follows)
      ensures entered == old(entered) + turn.meanwhile
      ensures queue == Rest(old(queue), turn.popOk) + Items(|old(entered)|, turn.meanwhile)
      ensures var d := Decode(old(queue)[0].data);
              if turn.readOk && Valid(d) && turn.storeOk && d.id !in old(store)
              then dispatched == old(dispatched) + [d.id] && store.Keys == old(store).Keys + {d.id}
              else dispatched == old(dispatched) && store == old(store) &&
                   reports == old(reports) + [if turn.readOk then Report(d.id, Refusal(Valid(d)), Some(old(queue)[0].n))
                                              else Report("", Refusal(false), None)]
      // the same for a command object with its parts written out
      ensures forall id, name, args :: turn.readOk && Sends(old(queue)[0].data, id, name, args) ==>
        var n := old(queue)[0].n;
        if Acceptable(name, args) && turn.storeOk && id !in old(store)
        then dispatched == old(dispatched) + [id] && store == old(store)[id := FinalRow(name, args, turn, n)] &&
             reports == old(reports) + FinalReports(id, name, turn, n)
        else dispatched == old(dispatched) && store == old(store) &&
             reports == old(reports) + [Report(id, Refusal(Acceptable(name, args)), Some(n))]
    {
      hide Decode, Valid, Admit, Reaches, Follows, ReportsOf, RowAfter, FinalRow, FinalReports, Sends, Acceptable;
      var n := queue[0].n;
      ghost var s := View(Fetch);
      Admitted(queue[0].data);
      SentParts(queue[0].data, turn, n);
      HeadSteps(s, turn.readOk);
      var cmd, origin := Decode(queue[0].data), Some(n);
      if !turn.readOk {
        cmd, origin := Decode(JObject(map[])), None;
      }
      ghost var t := View(Examine(cmd, origin, n));
      if !Valid(cmd) {
        RefuseCommand(cmd.(result := FAILED_CHECK), origin, turn.popOk, turn.meanwhile);
      } else {
        ProcessValid(Admit(cmd), turn);
      }
      ReachesTrans(s, t, View(Fetch), Follows);
    }

    /** One turn of the loop: what is delivered before it, and the head of the queue if there is one; on an
        empty queue the turn waits. */
    method TakeTurn(turn: Turn) returns (taken: bool)
      modifies this`queue, this`entered, this`store, this`reports, this`dispatched, this`silent, this`misread
      ensures Reaches(old(View(Fetch)), View(Fetch), Follows)
      ensures entered == old(entered) + (turn.arrivals + turn.meanwhile)
      ensures taken == (old(queue) != [] || turn.arrivals != [])
      ensures queue == Served(old(queue) + Items(|old(entered)|, turn.arrivals + turn.meanwhile), taken && turn.popOk)
    {
      hide *;
      ghost var start, q, n := View(Fetch), queue, |entered|;
      TurnQueue(q, n, turn.arrivals, turn.meanwhile, turn.popOk);
      Arrive(turn.arrivals, Fetch);
      ghost var before := View(Fetch);
      taken := queue != [];
      if taken {
        ProcessHead(turn);
      } else {
        Arrive(turn.meanwhile, Fetch);
      }
      ReachesTrans(start, before, View(Fetch), Follows);
    }

    /** The loop. As long as no pop fails, the queue is served in order, one command per turn that finds one. */
    method TakeTurns(turns: seq<Turn>) returns (taken: nat)
      modifies this`queue, this`entered, this`store, this`reports, this`dispatched, this`silent, this`misread
      ensures Reaches(old(View(Fetch)), View(Fetch), Follows)
      ensures entered == old(entered) + Arrivals(turns)
      ensures (forall i :: 0 <= i < |turns| ==> turns[i].popOk) ==>
        Left(queue, old(queue) + Items(|old(entered)|, Arrivals(turns)), taken)
    {
      hide *;
      taken := 0;
      ghost var start, e, q := View(Fetch), entered, queue;
      ReachesSelf(start, Follows);
      ProgressStart(e, q, turns);
      for i := 0 to |turns|
        invariant Reaches(start, View(Fetch), Follows)
        invariant Progress(entered, queue, e, q, turns, i, taken)
      {
        ghost var before, entered', queue', taken' := View(Fetch), entered, queue, taken;
        var more := TakeTurn(turns[i]);
        ReachesTrans(start, before, View(Fetch), Follows);
        if more {
          taken := taken + 1;
        }
        ProgressMore(entered', queue', entered, queue, e, q, turns, i, taken', more);
      }
      ProgressEnd(entered, queue, e, q, turns, taken);
    }

    /** The whole task: clean up, then one turn after another. From a state every run can be in, it leaves
        such a state, whatever is delivered meanwhile. */
    method CommandsProcessingTask(ids: seq<string>, readOk: bool, writes: seq<bool>, turns: seq<Turn>) returns (taken: nat)
      requires Lists(ids, InProgress(store)) && |writes| == |ids|
      requires Inv(View(Boot))
      modifies this`queue, this`entered, this`store, this`reports, this`dispatched, this`silent, this`misread
      ensures Reaches(old(View(Boot)), View(Fetch), Follows)
      ensures Inv(View(Fetch))
      ensures entered == old(entered) + Arrivals(turns)
      ensures (forall i :: 0 <= i < |turns| ==> turns[i].popOk) ==>
        Left(queue, old(queue) + Items(|old(entered)|, Arrivals(turns)), taken)
    {
      hide Reaches, Inv, Left, Arrivals;
      ghost var start := View(Boot);
      CleanUpInProgressCommands(ids, readOk, writes);
      ghost var swept := View(Fetch);
      taken := TakeTurns(turns);
      ReachesTrans(start, swept, View(Fetch), Follows);
      ReachesKeeps(start, View(Fetch));
    }
  }

  /** What the first `i` turns have delivered and, if no pop failed, served. */
  ghost predicate Progress(entered: seq<Json>, queue: seq<Item>, e: seq<Json>, q: seq<Item>, turns: seq<Turn>, i: nat, taken: nat)
    requires i <= |turns|
  {
    && entered == e + Arrivals(turns[..i])
    && ((forall j :: 0 <= j < i ==> turns[j].popOk) ==> Left(queue, q + Items(|e|, Arrivals(turns[..i])), taken))
  }

  lemma ProgressStart(e: seq<Json>, q: seq<Item>, turns: seq<Turn>)
    ensures Progress(e, q, e, q, turns, 0, 0)
  {
    assert Arrivals(turns[..0]) == [] && q + Items(|e|, []) == q;
  }

  lemma ProgressEnd(entered: seq<Json>, queue: seq<Item>, e: seq<Json>, q: seq<Item>, turns: seq<Turn>, taken: nat)
    requires Progress(entered, queue, e, q, turns, |turns|, taken)
    ensures entered == e + Arrivals(turns)
    ensures (forall j :: 0 <= j < |turns| ==> turns[j].popOk) ==> Left(queue, q + Items(|e|, Arrivals(turns)), taken)
  {
    assert turns[..|turns|] == turns;
  }

  lemma ProgressMore(entered: seq<Json>, queue: seq<Item>, entered': seq<Json>, queue': seq<Item>,
                     e: seq<Json>, q: seq<Item>, turns: seq<Turn>, i: nat, taken: nat, more: bool)
    requires i < |turns| && Progress(entered, queue, e, q, turns, i, taken)
    requires var come := turns[i].arrivals + turns[i].meanwhile;
             && entered' == entered + come && (more ==> queue != [] || come != [])
             && queue' == Served(queue + Items(|entered|, come), more && turns[i].popOk)
    ensures Progress(entered', queue', e, q, turns, i + 1, if more then taken + 1 else taken)
  {
    var done, come := Arrivals(turns[..i]), turns[i].arrivals + turns[i].meanwhile;
    assert turns[..i + 1][..i] == turns[..i];
    assert Arrivals(turns[..i + 1]) == done + come;
    assert e + (done + come) == e + done + come;
    ItemsConcat(|e|, done, come);
    assert q + Items(|e|, done + come) == q + Items(|e|, done) + Items(|e| + |done|, come);
    hide Arrivals, Items;
    if forall j :: 0 <= j < i + 1 ==> turns[j].popOk {
      LeftMore(queue, q + Items(|e|, done), taken, Items(|entered|, come), more);
    }
    hide Left, Served;
  }

  lemma TurnQueue(q: seq<Item>, n: nat, arrivals: seq<Json>, meanwhile: seq<Json>, popOk: bool)
    ensures q + Items(n, arrivals) == [] <==> q == [] && arrivals == []
    ensures q + Items(n, arrivals) != [] ==>
            Rest(q + Items(n, arrivals), popOk) + Items(n + |arrivals|, meanwhile) ==
            Served(q + Items(n, arrivals + meanwhile), popOk)
    ensures q + Items(n, arrivals) + Items(n + |arrivals|, meanwhile) == Served(q + Items(n, arrivals + meanwhile), false)
  {
    ItemsConcat(n, arrivals, meanwhile);
    assert q + Items(n, arrivals + meanwhile) == q + Items(n, arrivals) + Items(n + |arrivals|, meanwhile);
  }

  function Served(queue: seq<Item>, pop: bool): seq<Item> {
    if pop && queue != [] then queue[1..] else queue
  }

  /** The queue is what is left of all commands after the first `taken` were taken, in order. */
  predicate Left(queue: seq<Item>, all: seq<Item>, taken: nat) {
    taken <= |all| && queue == all[taken..]
  }

  lemma LeftMore(queue: seq<Item>, all: seq<Item>, taken: nat, come: seq<Item>, more: bool)
    requires Left(queue, all, taken) && (more ==> queue != [] || come != [])
    ensures Left(Served(queue + come, more), all + come, if more then taken + 1 else taken)
  {
  }

  /** The queue after its head was taken, unless that failed. */
  function Rest(queue: seq<Item>, popOk: bool): seq<Item>
    requires queue != []
  {
    if popOk then queue[1..] else queue
  }
}
