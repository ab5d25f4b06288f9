/**
 Installing group configuration: each requested group's file is downloaded to a temporary place, checked,
 and moved to the shared directory; when all are in place the modules are reloaded. Whatever the server,
 the file system or the group store do is decided by the environment.
 */
module CentralizedConfig {
  import opened Options
  import opened Groups

  datatype Command =
    | SetGroup(groups: Option<seq<string>>)   // None: the parameters do not hold a list of names
    | FetchConfig
    | Unknown

  datatype Status = SUCCESS | FAILURE

  /** What happens to one group's file: the temporary name, the answer of the download and what it leaves
      there, whether an invalid file can be deleted, and whether the move succeeds. */
  datatype Fetch = Fetch(tmp: string, downloaded: bool, content: Option<string>, removable: bool, movable: bool)

  /** What happens to one command: which calls fail when the groups are stored, whether the shared
      directory can be listed, which of its entries cannot be deleted, and what happens to the file of each
      group. */
  datatype Env = Env(faults: Faults, listable: bool, stuck: set<string>, fetches: nat -> Fetch)

  type Files = map<string, string>

  /** The file arrives, is valid and can be moved. */
  predicate Installs(f: Fetch, valid: string -> bool) {
    f.downloaded && f.content.Some? && valid(f.content.value) && f.movable
  }

  /** The file of every group was downloaded, is there, is valid and could be moved. */
  ghost predicate AllArrive(groups: seq<string>, fetches: nat -> Fetch, valid: string -> bool) {
    forall i :: 0 <= i < |groups| ==>
      fetches(i).downloaded && fetches(i).content.Some? && valid(fetches(i).content.value) && fetches(i).movable
  }

  lemma AllInstalledIff(groups: seq<string>, fetches: nat -> Fetch, valid: string -> bool)
    ensures InstalledCount(groups, fetches, valid, 0) == |groups| <==> AllArrive(groups, fetches, valid)
  {
  }

  /** The groups before the first whose file is not installed. */
  function InstalledCount(groups: seq<string>, fetches: nat -> Fetch, valid: string -> bool, from: nat): (k: nat)
    requires from <= |groups|
    ensures from <= k <= |groups| && (k < |groups| ==> !Installs(fetches(k), valid))
    ensures forall i :: from <= i < k ==> Installs(fetches(i), valid)
    decreases |groups| - from
  {
    if from == |groups| || !Installs(fetches(from), valid) then from else InstalledCount(groups, fetches, valid, from + 1)
  }

  /** The shared directory with the files of the first `k` groups; a group named twice keeps the last. */
  function Installed(shared: Files, groups: seq<string>, fetches: nat -> Fetch, k: nat): Files
    requires k <= |groups| && forall i :: 0 <= i < k ==> fetches(i).content.Some?
  {
    if k == 0 then shared else Installed(shared, groups, fetches, k - 1)[groups[k - 1] := fetches(k - 1).content.value]
  }

  /** A temporary file stays: the download failed half-way, the file is invalid and cannot be deleted, or it
      is valid and cannot be moved. */
  predicate Stays(f: Fetch, valid: string -> bool) {
    f.content.Some? && (!f.downloaded || if valid(f.content.value) then !f.movable else !f.removable)
  }

  /** The temporary directory after the files of the first `m` groups were fetched. */
  function TempAfter(temp: Files, fetches: nat -> Fetch, valid: string -> bool, m: nat): Files {
    if m == 0 then temp
    else
      var before, f := TempAfter(temp, fetches, valid, m - 1), fetches(m - 1);
      if Stays(f, valid) then before[f.tmp := f.content.value] else before - {f.tmp}
  }

  /** At most the file of the group that failed is left behind. */
  lemma {:induction false} LeftBehind(temp: Files, fetches: nat -> Fetch, valid: string -> bool, k: nat)
    requires forall i :: 0 <= i < k ==> Installs(fetches(i), valid)
    ensures TempAfter(temp, fetches, valid, k).Keys <= temp.Keys
    ensures TempAfter(temp, fetches, valid, k + 1).Keys <= temp.Keys + {fetches(k).tmp}
    ensures fetches(k).tmp in TempAfter(temp, fetches, valid, k + 1) <==> Stays(fetches(k), valid)
  {
    if k > 0 {
      LeftBehind(temp, fetches, valid, k - 1);
    }
  }

  ghost predicate AllValid(files: Files, valid: string -> bool) {
    forall name :: name in files ==> valid(files[name])
  }

  /** The last position of a group in the list. */
  function LastIndex(groups: seq<string>, name: string): (k: nat)
    requires name in groups
    ensures k < |groups| && groups[k] == name && forall i :: k < i < |groups| ==> groups[i] != name
  {
    var n := |groups| - 1;
    if groups[n] == name then n else LastIndex(groups[..n], name)
  }

  /** What the directory holds after the first `k` groups, name by name. */
  lemma {:induction false} InstalledAt(shared: Files, groups: seq<string>, fetches: nat -> Fetch, k: nat)
    requires k <= |groups| && forall i :: 0 <= i < k ==> fetches(i).content.Some?
    ensures var r := Installed(shared, groups, fetches, k);
            && (forall name :: name in r <==> name in shared || name in groups[..k])
            && (forall name :: name in r && name in groups[..k] ==>
                  r[name] == fetches(LastIndex(groups[..k], name)).content.value)
            && (forall name :: name in r && name !in groups[..k] ==> r[name] == shared[name])
  {
    if k > 0 {
      InstalledAt(shared, groups, fetches, k - 1);
      assert groups[..k] == groups[..k - 1] + [groups[k - 1]];
      assert groups[..k][..k - 1] == groups[..k - 1];
    }
  }

  /** The directory holds the last download of each group, and of other names what it held before. */
  ghost predicate InstalledFor(shared: Files, groups: seq<string>, fetches: nat -> Fetch, r: Files) {
    && (forall name :: name in r <==> name in shared || name in groups)
    && (forall name :: name in r && name !in groups ==> r[name] == shared[name])
    && (forall i :: 0 <= i < |groups| && groups[i] !in groups[i + 1..] ==>
          fetches(i).content.Some? && groups[i] in r && r[groups[i]] == fetches(i).content.value)
  }

  lemma InstalledAll(shared: Files, groups: seq<string>, fetches: nat -> Fetch, valid: string -> bool)
    requires AllArrive(groups, fetches, valid)
    ensures InstalledFor(shared, groups, fetches, Installed(shared, groups, fetches, |groups|))
  {
    InstalledAt(shared, groups, fetches, |groups|);
    assert groups[..|groups|] == groups;
    var r := Installed(shared, groups, fetches, |groups|);
    forall i | 0 <= i < |groups| && groups[i] !in groups[i + 1..]
      ensures fetches(i).content.Some? && groups[i] in r && r[groups[i]] == fetches(i).content.value
    {
      forall m | i < m < |groups| ensures groups[m] != groups[i] {
        assert groups[m] == groups[i + 1..][m - i - 1];
      }
      assert LastIndex(groups, groups[i]) == i;
    }
  }

  /** The names are usable, and the groups can be stored and the directory emptied. */
  predicate Prepared(groups: seq<string>, env: Env, base: Base, shared: Files) {
    "" !in groups && AllWork(base, groups, env.faults) && env.listable && shared.Keys !! env.stuck
  }

  class CentralizedConfiguration {
    const valid: string -> bool
    const agent: AgentInfo
    var shared: Files
    var temp: Files
    var reloads: nat
    /** Every state the shared directory was in. */
    ghost var trace: seq<Files>

    /** The directory never held a file that was not valid. */
    ghost predicate Validated()
      reads this`shared, this`trace
    {
      trace != [] && trace[|trace| - 1] == shared && forall i :: 0 <= i < |trace| ==> AllValid(trace[i], valid)
    }

    constructor (valid: string -> bool, agent: AgentInfo, shared: Files)
      requires AllValid(shared, valid)
      ensures Validated() && this.valid == valid && this.agent == agent && this.shared == shared && reloads == 0
    {
      this.valid := valid;
      this.agent := agent;
      this.shared := shared;
      temp := map[];
      reloads := 0;
      trace := [shared];
    }

    /** The entries are deleted one by one, in any order, up to the first that cannot be. */
    method CleanShared(env: Env) returns (ok: bool)
      requires Validated()
      modifies this`shared, this`trace
      ensures Validated() && old(trace) <= trace
      ensures ok <==> env.listable && old(shared).Keys !! env.stuck
      ensures ok ==> shared == map[]
      ensures shared.Items <= old(shared).Items
    {
      if !env.listable {
        return false;
      }
      var entries := shared.Keys;
      while entries != {}
        invariant Validated() && old(trace) <= trace
        invariant entries == shared.Keys && shared.Items <= old(shared).Items
        invariant old(shared).Keys - entries !! env.stuck
        decreases |entries|
      {
        var entry :| entry in entries;
        if entry in env.stuck {
          assert entry in old(shared) by { assert (entry, shared[entry]) in old(shared).Items; }
          return false;
        }
        shared := map name | name in shared && name != entry :: shared[name];
        trace := trace + [shared];
        entries := entries - {entry};
      }
      ok := true;
    }

    /** One group. Nothing reaches the shared directory unless it was downloaded and found valid. */
    method InstallGroup(group: string, f: Fetch) returns (ok: bool)
      requires Validated()
      modifies this`shared, this`temp, this`trace
      ensures Validated() && old(trace) <= trace
      ensures ok == Installs(f, valid)
      ensures ok <==> f.downloaded && f.content.Some? && valid(f.content.value) && f.movable
      ensures ok ==> f.content.Some? && shared == old(shared)[group := f.content.value]
      ensures temp == if Stays(f, valid) then old(temp)[f.tmp := f.content.value] else old(temp) - {f.tmp}
      ensures !ok ==> shared == old(shared) && trace == old(trace)
    {
      if f.content.Some? {
        temp := temp[f.tmp := f.content.value];
      } else {
        temp := temp - {f.tmp};
      }
      if !f.downloaded {
        return false;
      }
      if f.tmp !in temp || !valid(temp[f.tmp]) {
        if f.tmp in temp && f.removable {
          temp := temp - {f.tmp};
        }
        return false;
      }
      if !f.movable {
        return false;
      }
      shared := shared[group := temp[f.tmp]];
      temp := temp - {f.tmp};
      trace := trace + [shared];
      ok := true;
    }

    /** The groups in order, up to the first whose file cannot be installed. */
    method InstallGroups(ids: seq<string>, env: Env) returns (ok: bool)
      requires Validated()
      modifies this`shared, this`temp, this`trace
      ensures Validated() && old(trace) <= trace
      ensures var k := InstalledCount(ids, env.fetches, valid, 0);
              && ok == (k == |ids|) && shared == Installed(old(shared), ids, env.fetches, k)
              && temp == TempAfter(old(temp), env.fetches, valid, if ok then k else k + 1)
    {
      for i := 0 to |ids|
        invariant Validated() && old(trace) <= trace
        invariant i <= InstalledCount(ids, env.fetches, valid, 0)
        invariant shared == Installed(old(shared), ids, env.fetches, i)
        invariant temp == TempAfter(old(temp), env.fetches, valid, i)
      {
        ok := InstallGroup(ids[i], env.fetches(i));
        if !ok {
          return;
        }
      }
      ok := true;
    }

    /** Set and store the groups, then empty the shared directory. The groups in memory change even when
        they cannot be stored. */
    method PrepareGroups(ids: seq<string>, env: Env) returns (ok: bool)
      requires Validated() && Sound(agent.persistence.State())
      modifies this`shared, this`trace, agent, agent.persistence
      ensures Validated() && old(trace) <= trace && Sound(agent.persistence.State())
      ensures ok == Prepared(ids, env, old(agent.persistence.State()), old(shared))
      ensures ok ==> shared == map[]
      ensures agent.groups == if "" in ids then old(agent.groups) else ids
      ensures agent.persistence.State() ==
              if "" in ids then old(agent.persistence.State()) else After(old(agent.persistence.State()), ids, env.faults)
      ensures "" in ids || !AllWork(old(agent.persistence.State()), ids, env.faults) ==>
        shared == old(shared) && trace == old(trace)
      ensures shared.Items <= old(shared).Items
    {
      if "" in ids {
        return false;
      }
      var saved := agent.SetAndSave(ids, env.faults);
      if !saved {
        return false;
      }
      ok := CleanShared(env);
    }

    method ExecuteCommand(command: Command, env: Env) returns (status: Status)
      requires Validated() && Sound(agent.persistence.State())
      modifies this, agent, agent.persistence
      // every state the directory goes through holds valid files only
      ensures Validated() && old(trace) <= trace && Sound(agent.persistence.State())
      // the modules are reloaded exactly on success
      ensures reloads == old(reloads) + if status == SUCCESS then 1 else 0
      // set-group changes the groups in memory, stored or not, unless a name is empty
      ensures command.SetGroup? && command.groups.Some? && "" !in command.groups.value ==>
        && agent.groups == command.groups.value
        && agent.persistence.State() == After(old(agent.persistence.State()), command.groups.value, env.faults)
      // it starts from an empty directory and installs the groups up to the first that fails
      ensures command.SetGroup? && command.groups.Some? &&
              Prepared(command.groups.value, env, old(agent.persistence.State()), old(shared)) ==>
        var k := InstalledCount(agent.groups, env.fetches, valid, 0);
        && (status == SUCCESS <==> k == |agent.groups|)
        && shared == Installed(map[], agent.groups, env.fetches, k)
        && temp == TempAfter(old(temp), env.fetches, valid, if status == SUCCESS then k else k + 1)
      // when it cannot start, files may be gone from the directory, but none is new
      ensures command.SetGroup? && command.groups.Some? &&
              !Prepared(command.groups.value, env, old(agent.persistence.State()), old(shared)) ==>
        status == FAILURE && temp == old(temp) && shared.Items <= old(shared).Items
      // fetch-config replaces the files of the groups in memory up to the first that fails
      ensures command.FetchConfig? ==>
        var k := InstalledCount(agent.groups, env.fetches, valid, 0);
        && agent.groups == old(agent.groups) && agent.persistence.State() == old(agent.persistence.State())
        && (status == SUCCESS <==> k == |agent.groups|)
        && shared == Installed(old(shared), agent.groups, env.fetches, k)
        && temp == TempAfter(old(temp), env.fetches, valid, if status == SUCCESS then k else k + 1)
      // success written out on the names, the calls and the downloads, and what the directory then holds
      ensures command.SetGroup? && command.groups.Some? ==>
        var ids := command.groups.value;
        && (status == SUCCESS <==> "" !in ids && AllWork(old(agent.persistence.State()), ids, env.faults) &&
                                   env.listable && old(shared).Keys !! env.stuck && AllArrive(ids, env.fetches, valid))
        && (status == SUCCESS ==> InstalledFor(map[], ids, env.fetches, shared))
      ensures command.FetchConfig? ==>
        && (status == SUCCESS <==> AllArrive(old(agent.groups), env.fetches, valid))
        && (status == SUCCESS ==> InstalledFor(old(shared), old(agent.groups), env.fetches, shared))
      // a command that is not understood changes nothing
      ensures command.Unknown? || (command.SetGroup? && (command.groups.None? || "" in command.groups.value)) ==>
        && status == FAILURE && agent.groups == old(agent.groups) && agent.persistence.State() == old(agent.persistence.State())
        && shared == old(shared) && temp == old(temp) && trace == old(trace)
    {
      hide Validated, Installed, InstalledCount, TempAfter, After, AllWork, Sound, InstalledFor, AllArrive;
      var ids: seq<string> := [];
      match command {
        case SetGroup(None) =>
          return FAILURE;
        case SetGroup(Some(requested)) =>
          ids := requested;
          var ok := PrepareGroups(ids, env);
          if !ok {
            return FAILURE;
          }
        case FetchConfig =>
          ids := agent.groups;
        case Unknown =>
          return FAILURE;
      }
      ghost var before := shared;
      AllInstalledIff(ids, env.fetches, valid);
      var installed := InstallGroups(ids, env);
      if installed {
        InstalledAll(before, ids, env.fetches, valid);
      }
      if !installed {
        return FAILURE;
      }
      reloads := reloads + 1;
      status := SUCCESS;
    }
  }

  /** After a successful set-group the directory holds a file for each requested group and no other: the
      content is that of the group's last download, and it is valid. */
  lemma ExactlyTheRequested(groups: seq<string>, fetches: nat -> Fetch, valid: string -> bool)
    requires InstalledCount(groups, fetches, valid, 0) == |groups|
    ensures var r := Installed(map[], groups, fetches, |groups|);
            && (forall name :: name in r <==> name in groups)
            && (forall name :: name in r ==>
                  var f := fetches(LastIndex(groups, name));
                  f.content.Some? && r[name] == f.content.value && valid(r[name]))
  {
    InstalledAt(map[], groups, fetches, |groups|);
    assert groups[..|groups|] == groups;
  }
}
