/**
 Commands as the agent receives them from the manager, checks them, and keeps them in the
 `command_store` table (one row per command id, which is the primary key).
 */
module Commands {

  datatype Json =
    | JNull
    | JBool(b: bool)
    | JNumber(n: int)
    | JString(s: string)
    | JArray(elems: seq<Json>)
    | JObject(fields: map<string, Json>)

  datatype Status = SUCCESS | FAILURE | IN_PROGRESS | TIMEOUT | UNKNOWN

  datatype Mode = SYNC | ASYNC

  datatype Result = Result(status: Status, message: string)

  datatype Entry = Entry(id: string, mod: string, command: string, params: map<string, Json>,
                         mode: Mode, result: Result)

  /** A row of the store. `origin` is a history variable: the number of the delivery that
      inserted the row. */
  datatype Row = Row(mod: string, command: string, params: map<string, Json>, mode: Mode,
                     result: Result, origin: nat)

  const SET_GROUP := "set-group"
  const FETCH_CONFIG := "fetch-config"
  const RESTART := "restart"
  const GROUPS_ARG := "groups"
  const CENTRALIZED_CONFIGURATION := "CentralizedConfiguration"
  const RESTART_HANDLER := "RestartHandler"

  /** What the handler knows of a command name: the module that runs it, how, and the arguments
      that must be arrays (the only type any known argument has). */
  datatype Details = Details(mod: string, mode: Mode, arrayArgs: seq<string>)

  const VALID_COMMANDS: map<string, Details> :=
    map[SET_GROUP := Details(CENTRALIZED_CONFIGURATION, SYNC, [GROUPS_ARG]),
        FETCH_CONFIG := Details(CENTRALIZED_CONFIGURATION, SYNC, []),
        RESTART := Details(RESTART_HANDLER, SYNC, [])]

  function StringField(j: Json, key: string): string {
    if j.JObject? && key in j.fields && j.fields[key].JString? then j.fields[key].s else ""
  }

  /** The entry built from the head of the command queue. Anything missing or of the wrong type
      becomes an empty id, name or parameter object. */
  function Decode(data: Json): Entry {
    var action := if data.JObject? && "action" in data.fields && data.fields["action"].JObject?
                  then data.fields["action"] else JObject(map[]);
    var args := if "args" in action.fields && action.fields["args"].JObject?
                then action.fields["args"].fields else map[];
    Entry(StringField(data, "document_id"), "", StringField(action, "name"), args, ASYNC, Result(IN_PROGRESS, ""))
  }

  /** The command is known and its arguments are present with the right type; extra arguments
      are tolerated. */
  predicate Valid(e: Entry) {
    && e.command in VALID_COMMANDS
    && forall arg <- VALID_COMMANDS[e.command].arrayArgs :: arg in e.params && e.params[arg].JArray?
  }

  /** A valid entry with the module and mode of its command filled in. */
  function Admit(e: Entry): Entry
    requires Valid(e)
  {
    e.(mod := VALID_COMMANDS[e.command].mod, mode := VALID_COMMANDS[e.command].mode)
  }

  // ----- what the manager sends -----

  /** The object has the field with that value. */
  predicate Field(j: Json, key: string, value: Json) {
    j.JObject? && key in j.fields && j.fields[key] == value
  }

  /** The command object, with any further fields: an id, and an action with a name and arguments. */
  predicate Sends(data: Json, id: string, name: string, args: map<string, Json>) {
    && Field(data, "document_id", JString(id))
    && "action" in data.fields
    && Field(data.fields["action"], "name", JString(name)) && Field(data.fields["action"], "args", JObject(args))
  }

  /** What is read from a command object is what was put in, whatever other fields there are. */
  lemma DecodesSent(id: string, name: string, args: map<string, Json>, more: map<string, Json>, further: map<string, Json>)
    ensures var action := JObject(further["name" := JString(name)]["args" := JObject(args)]);
            var data := JObject(more["document_id" := JString(id)]["action" := action]);
            Sends(data, id, name, args) && Decode(data) == Entry(id, "", name, args, ASYNC, Result(IN_PROGRESS, ""))
  {
    var action := JObject(further["name" := JString(name)]["args" := JObject(args)]);
    var data := JObject(more["document_id" := JString(id)]["action" := action]);
    assert data.fields["action"] == action;
    Decodes(data, id, name, args);
  }

  lemma Decodes(data: Json, id: string, name: string, args: map<string, Json>)
    requires Sends(data, id, name, args)
    ensures Decode(data) == Entry(id, "", name, args, ASYNC, Result(IN_PROGRESS, ""))
  {
  }

  /** Each part of any object, and of anything else: its value where it is there with the right type, and
      nothing where it is missing or has another type. */
  lemma DecodesParts(data: Json)
    ensures forall id :: Field(data, "document_id", JString(id)) ==> Decode(data).id == id
    ensures (forall id :: !Field(data, "document_id", JString(id))) ==> Decode(data).id == ""
    ensures forall action, name :: Field(data, "action", action) && Field(action, "name", JString(name)) ==>
      Decode(data).command == name
    ensures (forall action, name :: Field(data, "action", action) ==> !Field(action, "name", JString(name))) ==>
      Decode(data).command == ""
    ensures forall action, args :: Field(data, "action", action) && Field(action, "args", JObject(args)) ==>
      Decode(data).params == args
    ensures (forall action, args :: Field(data, "action", action) ==> !Field(action, "args", JObject(args))) ==>
      Decode(data).params == map[]
  {
    var d := Decode(data);
    if d.id != "" {
      assert Field(data, "document_id", JString(d.id));
    }
    if d.command != "" {
      assert Field(data, "action", data.fields["action"]) && Field(data.fields["action"], "name", JString(d.command));
    }
    if d.params != map[] {
      assert Field(data, "action", data.fields["action"]) && Field(data.fields["action"], "args", JObject(d.params));
    }
  }

  /** The commands the agent knows: set-group with a list of groups, fetch-config and restart. */
  predicate Acceptable(name: string, args: map<string, Json>) {
    || name == "fetch-config" || name == "restart"
    || (name == "set-group" && "groups" in args && args["groups"].JArray?)
  }

  /** These and no other are accepted, and go to these modules. */
  lemma AcceptedIff(e: Entry)
    ensures Valid(e) <==> Acceptable(e.command, e.params)
    ensures Valid(e) ==>
      Admit(e) == e.(mod := if e.command == "restart" then "RestartHandler" else "CentralizedConfiguration", mode := SYNC)
  {
    if e.command in VALID_COMMANDS {
      assert e.command == "set-group" ==> VALID_COMMANDS[e.command].arrayArgs == ["groups"];
    }
  }

  /** Every admitted entry is synchronous, keeps its identity, and goes to one of two modules;
      the restart handler gets the restart command and nothing else. */
  lemma Admitted(data: Json)
    ensures !Valid(Decode(JObject(map[])))
    ensures Decode(data).result.status == IN_PROGRESS
    ensures Valid(Decode(data)) ==>
              var d := Decode(data);
              var e := Admit(d);
              && e.id == d.id && e.command == d.command && e.result == d.result
              && e.mode == SYNC
              && e.mod in {CENTRALIZED_CONFIGURATION, RESTART_HANDLER}
              && (e.mod == RESTART_HANDLER <==> e.command == RESTART)
  {
  }

  function RowOf(e: Entry, origin: nat): Row {
    Row(e.mod, e.command, e.params, e.mode, e.result, origin)
  }

  function EntryOf(id: string, r: Row): Entry {
    Entry(id, r.mod, r.command, r.params, r.mode, r.result)
  }

  /** The row after an update: empty text, empty parameters and an unknown status change nothing. */
  function UpdateRow(r: Row, e: Entry): Row {
    r.(mod := if e.mod == "" then r.mod else e.mod,
       command := if e.command == "" then r.command else e.command,
       params := if e.params == map[] then r.params else e.params,
       result := Result(if e.result.status == UNKNOWN then r.result.status else e.result.status,
                        if e.result.message == "" then r.result.message else e.result.message))
  }

  /** What is given is written, what is not given stays: nothing given, each field alone, and all of them. */
  lemma Updates(r: Row, id: string, mode: Mode, mod: string, command: string, params: map<string, Json>, result: Result)
    requires mod != "" && command != "" && params != map[] && result.status != UNKNOWN && result.message != ""
    ensures UpdateRow(r, Entry(id, "", "", map[], mode, Result(UNKNOWN, ""))) == r
    ensures UpdateRow(r, Entry(id, mod, "", map[], mode, Result(UNKNOWN, ""))) == r.(mod := mod)
    ensures UpdateRow(r, Entry(id, "", command, map[], mode, Result(UNKNOWN, ""))) == r.(command := command)
    ensures UpdateRow(r, Entry(id, "", "", params, mode, Result(UNKNOWN, ""))) == r.(params := params)
    ensures UpdateRow(r, Entry(id, "", "", map[], mode, Result(result.status, ""))) == r.(result := Result(result.status, r.result.message))
    ensures UpdateRow(r, Entry(id, "", "", map[], mode, Result(UNKNOWN, result.message))) == r.(result := Result(r.result.status, result.message))
    ensures UpdateRow(r, Entry(id, mod, command, params, mode, result)) == Row(mod, command, params, r.mode, result, r.origin)
  {
  }

  /** A result is recorded with its status and message; nothing else of the row changes. */
  lemma Records(r: Row, id: string, result: Result)
    ensures UpdateRow(r, EntryOf(id, r).(result := result)) ==
            r.(result := Result(if result.status == UNKNOWN then r.result.status else result.status,
                                if result.message == "" then r.result.message else result.message))
  {
  }

  /** A stored command is read back from its row. */
  lemma StoredReadBack(e: Entry, origin: nat)
    ensures EntryOf(e.id, RowOf(e, origin)) == e && RowOf(e, origin).origin == origin
  {
  }

  /** What the clean-up after a restart decides about a command left in progress. */
  function Abandon(e: Entry): Entry {
    e.(result := if e.command == RESTART then Result(SUCCESS, "Agent restarted successfully")
                 else Result(FAILURE, "Agent stopped during execution"))
  }

  function StatusToInt(s: Status): int {
    match s
    case SUCCESS => 0
    case FAILURE => 1
    case IN_PROGRESS => 2
    case TIMEOUT => 3
    case UNKNOWN => 4
  }

  function StatusFromInt(i: int): (s: Status)
    ensures StatusToInt(s) == if 0 <= i <= 3 then i else 4
    ensures (s == SUCCESS <==> i == 0) && (s == FAILURE <==> i == 1) && (s == IN_PROGRESS <==> i == 2) && (s == TIMEOUT <==> i == 3)
  {
    match i
    case 0 => SUCCESS
    case 1 => FAILURE
    case 2 => IN_PROGRESS
    case 3 => TIMEOUT
    case _ => UNKNOWN
  }
}
