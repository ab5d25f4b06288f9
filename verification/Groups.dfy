/**
 The list of groups of the agent, replaced as a whole inside a transaction. Any call of the database
 may fail; a call that fails changes nothing.
 */
module Groups {

  datatype GroupRow = GroupRow(id: nat, name: string)

  /** The rows in the order of their ids, and the last id ever given out. */
  datatype Table = Table(rows: seq<GroupRow>, last: nat)

  /** What the connection sees, what is committed, and whether a transaction is open. */
  datatype Base = Base(visible: Table, committed: Table, inTransaction: bool)

  /** Outside a transaction the connection sees what is committed. */
  predicate Sound(b: Base) {
    !b.inTransaction ==> b.visible == b.committed
  }

  /** Which calls of one replacement fail; the inserts by their position. */
  datatype Faults = Faults(begin: bool, remove: bool, inserts: set<nat>, commit: bool, rollback: bool)

  function NamesOf(t: Table): (r: seq<string>)
    ensures |r| == |t.rows| && forall i :: 0 <= i < |r| ==> r[i] == t.rows[i].name
  {
    seq(|t.rows|, i requires 0 <= i < |t.rows| => t.rows[i].name)
  }

  /** A row gets an id that was never given out. */
  function WithRow(t: Table, name: string): Table {
    Table(t.rows + [GroupRow(t.last + 1, name)], t.last + 1)
  }

  function WithRows(t: Table, names: seq<string>): Table {
    if names == [] then t else WithRow(WithRows(t, names[..|names| - 1]), names[|names| - 1])
  }

  /** How many inserts are made before the first that fails. */
  function Inserts(list: seq<string>, f: Faults): (k: nat)
    ensures k <= |list| && (k < |list| ==> k in f.inserts) && forall i :: 0 <= i < k ==> i !in f.inserts
  {
    FirstFault(list, f, 0)
  }

  function FirstFault(list: seq<string>, f: Faults, from: nat): (k: nat)
    requires from <= |list|
    ensures from <= k <= |list| && (k < |list| ==> k in f.inserts) && forall i :: from <= i < k ==> i !in f.inserts
    decreases |list| - from
  {
    if from == |list| || from in f.inserts then from else FirstFault(list, f, from + 1)
  }

  predicate Begins(b: Base, f: Faults) {
    !b.inTransaction && !f.begin
  }

  predicate Succeeds(b: Base, list: seq<string>, f: Faults) {
    Begins(b, f) && !f.remove && Inserts(list, f) == |list| && !f.commit
  }

  /** No call of the replacement fails, and no transaction is open. */
  predicate AllWork(b: Base, list: seq<string>, f: Faults) {
    !b.inTransaction && !f.begin && !f.remove && !f.commit && forall i :: 0 <= i < |list| ==> i !in f.inserts
  }

  /** A replacement succeeds exactly when its calls do. */
  lemma SucceedsIff(b: Base, list: seq<string>, f: Faults)
    ensures Succeeds(b, list, f) <==> AllWork(b, list, f)
  {
  }

  /** The table as the transaction leaves it when it ends, well or not. */
  function Worked(t: Table, list: seq<string>, f: Faults): Table {
    if f.remove then t else WithRows(Table([], t.last), list[..Inserts(list, f)])
  }

  function After(b: Base, list: seq<string>, f: Faults): Base {
    if !Begins(b, f) then b
    else if Succeeds(b, list, f) then
      Base(Worked(b.visible, list, f), Worked(b.visible, list, f), false)
    else if f.rollback then
      Base(Worked(b.visible, list, f), b.committed, true)
    else
      Base(b.committed, b.committed, false)
  }

  class AgentInfoPersistence {
    var visible: Table
    var committed: Table
    var inTransaction: bool

    function State(): Base
      reads this
    {
      Base(visible, committed, inTransaction)
    }

    /** A transaction cannot begin inside another. */
    method BeginTransaction(fault: bool) returns (ok: bool)
      modifies this`inTransaction
      ensures ok == (!fault && !old(inTransaction))
      ensures inTransaction == (ok || old(inTransaction))
    {
      ok := !fault && !inTransaction;
      if ok {
        inTransaction := true;
      }
    }

    method RemoveAll(fault: bool) returns (ok: bool)
      modifies this`visible
      ensures ok == !fault && visible == if ok then Table([], old(visible).last) else old(visible)
    {
      ok := !fault;
      if ok {
        visible := Table([], visible.last);
      }
    }

    method Insert(name: string, fault: bool) returns (ok: bool)
      modifies this`visible
      ensures ok == !fault && visible == if ok then WithRow(old(visible), name) else old(visible)
    {
      ok := !fault;
      if ok {
        visible := WithRow(visible, name);
      }
    }

    method CommitTransaction(fault: bool) returns (ok: bool)
      modifies this`committed, this`inTransaction
      ensures ok == !fault
      ensures ok ==> committed == visible && !inTransaction
      ensures !ok ==> committed == old(committed) && inTransaction == old(inTransaction)
    {
      ok := !fault;
      if ok {
        committed := visible;
        inTransaction := false;
      }
    }

    method RollbackTransaction(fault: bool) returns (ok: bool)
      modifies this`visible, this`inTransaction
      ensures ok == !fault
      ensures ok ==> visible == committed && !inTransaction
      ensures !ok ==> visible == old(visible) && inTransaction == old(inTransaction)
    {
      ok := !fault;
      if ok {
        visible := committed;
        inTransaction := false;
      }
    }

    method SetGroups(groupList: seq<string>, f: Faults) returns (ok: bool)
      modifies this
      ensures State() == After(old(State()), groupList, f)
      ensures ok == Succeeds(old(State()), groupList, f)
      ensures ok <==> !old(inTransaction) && !f.begin && !f.remove && !f.commit &&
                      forall i :: 0 <= i < |groupList| ==> i !in f.inserts
      ensures ok ==> NamesOf(committed) == groupList && visible == committed && !inTransaction
      ensures !ok ==> committed == old(committed)
    {
      WholeList(visible.last, groupList);
      hide NamesOf;
      SucceedsIff(State(), groupList, f);
      var began := BeginTransaction(f.begin);
      if !began {
        return false;
      }
      ghost var t := visible;
      var fine := RemoveAll(f.remove);
      var i := 0;
      assert groupList[..0] == [];
      while fine && i < |groupList|
        invariant 0 <= i <= Inserts(groupList, f)
        invariant fine ==> visible == WithRows(Table([], t.last), groupList[..i])
        invariant !fine ==> visible == Worked(t, groupList, f) && (f.remove || i < |groupList|) && (!f.remove ==> i in f.inserts)
        invariant f.remove ==> !fine
        invariant inTransaction && committed == old(committed)
        decreases |groupList| - i, fine
      {
        assert groupList[..i + 1][..i] == groupList[..i];
        fine := Insert(groupList[i], i in f.inserts);
        if fine {
          i := i + 1;
        }
      }
      assert fine ==> groupList[..i] == groupList;
      if fine {
        fine := CommitTransaction(f.commit);
      }
      if !fine {
        var _ := RollbackTransaction(f.rollback);
        return false;
      }
      return true;
    }

    /** The names in id order; a failed read gives none. */
    method GetGroups(readOk: bool) returns (groupList: seq<string>)
      ensures groupList == if readOk then NamesOf(visible) else []
    {
      groupList := [];
      if !readOk {
        return;
      }
      for i := 0 to |visible.rows|
        invariant groupList == NamesOf(visible)[..i]
      {
        groupList := groupList + [visible.rows[i].name];
      }
    }
  }

  // ----- one replacement -----

  /** Rows with these names and the ids that follow the last one given out. */
  function Fresh(last: nat, names: seq<string>): (rows: seq<GroupRow>)
    ensures |rows| == |names| && forall i :: 0 <= i < |names| ==> rows[i] == GroupRow(last + 1 + i, names[i])
  {
    seq(|names|, i requires 0 <= i < |names| => GroupRow(last + 1 + i, names[i]))
  }

  lemma {:induction false} WithRowsFacts(t: Table, names: seq<string>)
    ensures WithRows(t, names) == Table(t.rows + Fresh(t.last, names), t.last + |names|)
  {
    if names == [] {
      assert t.rows + Fresh(t.last, names) == t.rows;
    } else {
      var n := |names| - 1;
      WithRowsFacts(t, names[..n]);
      assert t.rows + Fresh(t.last, names) == t.rows + Fresh(t.last, names[..n]) + [GroupRow(t.last + 1 + n, names[n])];
    }
  }

  lemma WholeList(last: nat, names: seq<string>)
    ensures NamesOf(WithRows(Table([], last), names)) == names
  {
    WithRowsFacts(Table([], last), names);
  }

  /** Replacing the groups is atomic, whichever calls fail. It succeeds when none does; the table then holds
      exactly the list, in order, and it is committed. On failure what is committed is untouched, and everything is as it was
      exactly when the transaction never began or its rollback did not fail. */
  lemma Atomic(b: Base, list: seq<string>, f: Faults)
    requires Sound(b)
    ensures var a := After(b, list, f);
            && Sound(a)
            && (AllWork(b, list, f) ==>
                  && a.committed == a.visible == Table(Fresh(b.visible.last, list), b.visible.last + |list|)
                  && NamesOf(a.visible) == list && !a.inTransaction)
            && (!AllWork(b, list, f) ==> a.committed == b.committed && (a == b <==> b.inTransaction || f.begin || !f.rollback))
  {
    SucceedsIff(b, list, f);
    WithRowsFacts(Table([], b.visible.last), list[..Inserts(list, f)]);
  }

  /** When a replacement fails, what the connection sees is unchanged exactly when the transaction never
      began, or was rolled back, or had not changed anything yet. */
  lemma SeenUnchangedIff(b: Base, list: seq<string>, f: Faults)
    requires Sound(b) && !AllWork(b, list, f)
    ensures After(b, list, f).visible == b.visible <==>
            b.inTransaction || f.begin || !f.rollback || f.remove || (b.visible.rows == [] && Inserts(list, f) == 0)
  {
    SucceedsIff(b, list, f);
    var t, names := Table([], b.visible.last), list[..Inserts(list, f)];
    WithRowsFacts(t, names);
    if Begins(b, f) && f.rollback && !f.remove {
      var w := WithRows(t, names);
      assert names == [] ==> w == t;
      assert names != [] ==> w.last != b.visible.last;
    }
  }

  // ----- any number of replacements -----

  datatype Call = Call(list: seq<string>, faults: Faults)

  function Run(b: Base, calls: seq<Call>): Base {
    if calls == [] then b
    else
      var n := |calls| - 1;
      After(Run(b, calls[..n]), calls[n].list, calls[n].faults)
  }

  /** The list of the last replacement that succeeded, or the one at the start. */
  function LastSaved(b: Base, calls: seq<Call>): seq<string> {
    if calls == [] then NamesOf(b.committed)
    else
      var n := |calls| - 1;
      if AllWork(Run(b, calls[..n]), calls[n].list, calls[n].faults) then calls[n].list else LastSaved(b, calls[..n])
  }

  /** After any run, whatever fails in it, the list saved last is what is committed; and it is what the
      connection sees unless a rollback failed. */
  lemma {:induction false} CommittedIsLastSaved(b: Base, calls: seq<Call>)
    requires Sound(b)
    ensures var r := Run(b, calls);
            && Sound(r) && NamesOf(r.committed) == LastSaved(b, calls)
            && (!r.inTransaction ==> NamesOf(r.visible) == LastSaved(b, calls))
  {
    if calls != [] {
      var n := |calls| - 1;
      CommittedIsLastSaved(b, calls[..n]);
      Atomic(Run(b, calls[..n]), calls[n].list, calls[n].faults);
    }
  }

  /** A rollback that failed. */
  predicate RollbackFails(b: Base, call: Call) {
    !b.inTransaction && !call.faults.begin && !AllWork(b, call.list, call.faults) && call.faults.rollback
  }

  /** A run ends with a transaction open exactly when one was open at the start or some rollback in the
      run failed. */
  lemma {:induction false} StuckIff(b: Base, calls: seq<Call>)
    ensures Run(b, calls).inTransaction <==>
            b.inTransaction || exists i :: 0 <= i < |calls| && RollbackFails(Run(b, calls[..i]), calls[i])
  {
    if calls != [] {
      var n := |calls| - 1;
      StuckIff(b, calls[..n]);
      SucceedsIff(Run(b, calls[..n]), calls[n].list, calls[n].faults);
      assert forall i :: 0 <= i < n ==> calls[..n][..i] == calls[..i];
      hide Succeeds, AllWork;
      if exists i :: 0 <= i < |calls| && RollbackFails(Run(b, calls[..i]), calls[i]) {
        var i :| 0 <= i < |calls| && RollbackFails(Run(b, calls[..i]), calls[i]);
        assert i < n ==> RollbackFails(Run(b, calls[..n][..i]), calls[..n][i]);
      }
      if Run(b, calls[..n]).inTransaction && !b.inTransaction {
        var i :| 0 <= i < n && RollbackFails(Run(b, calls[..n][..i]), calls[..n][i]);
        assert RollbackFails(Run(b, calls[..i]), calls[i]);
      }
    }
  }

  /** With a transaction left open no replacement succeeds any more, and nothing changes. */
  lemma {:induction false} StuckForever(b: Base, calls: seq<Call>)
    requires b.inTransaction
    ensures Run(b, calls) == b && LastSaved(b, calls) == NamesOf(b.committed)
  {
    if calls != [] {
      StuckForever(b, calls[..|calls| - 1]);
    }
  }

  // ----- the groups in memory -----

  class AgentInfo {
    var groups: seq<string>
    const persistence: AgentInfoPersistence

    constructor (persistence: AgentInfoPersistence, readOk: bool)
      ensures this.persistence == persistence && groups == if readOk then NamesOf(persistence.visible) else []
    {
      this.persistence := persistence;
      groups := [];
      new;
      groups := persistence.GetGroups(readOk);
    }

    method SetGroups(groupList: seq<string>)
      modifies this
      ensures groups == groupList
    {
      groups := groupList;
    }

    method SaveGroups(f: Faults) returns (ok: bool)
      modifies persistence
      ensures persistence.State() == After(old(persistence.State()), groups, f)
      ensures ok == Succeeds(old(persistence.State()), groups, f)
    {
      ok := persistence.SetGroups(groups, f);
    }

    /** The groups change in memory first. They agree with what is stored exactly when saving succeeds or
        the stored list was the new list already. */
    method SetAndSave(groupList: seq<string>, f: Faults) returns (ok: bool)
      requires Sound(persistence.State())
      modifies this, persistence
      ensures groups == groupList && Sound(persistence.State())
      ensures persistence.State() == After(old(persistence.State()), groupList, f)
      ensures ok == AllWork(old(persistence.State()), groupList, f)
      ensures NamesOf(persistence.committed) == groups <==> ok || old(NamesOf(persistence.committed)) == groupList
    {
      ghost var b := persistence.State();
      SetGroups(groupList);
      ok := SaveGroups(f);
      Atomic(b, groupList, f);
      SucceedsIff(b, groupList, f);
    }
  }
}
