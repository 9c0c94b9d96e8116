/** The action plugin's state machine, run against a manager over one resource of the store. */
module ActionPlugin {
  import opened Json
  import opened Numerals
  import opened GatewayStore

  /** What a plugin and the resource behind it declare. */
  datatype Config = Config(
    lookup: string,          // the field that names an item
    model: set<string>,      // the fields of the model class, which a find answers in full
    api: set<string>,        // the fields that create and update send
    argspec: set<string>,
    auth: set<string>,
    writeOnly: set<string>,
    mutableFk: set<string>,
    str: Text
  )

  const DIRECTIVES: set<string> := {"state", "new_name"}
  const READ_ONLY: set<string> := {"id", "created", "modified", "url"}

  ghost predicate Sensible(cfg: Config) {
    && PythonText(cfg.str)
    && cfg.api <= cfg.model && cfg.api !! DIRECTIVES + READ_ONLY + cfg.auth
    && "id" in cfg.model && cfg.lookup in cfg.api
    && !("id" in cfg.auth) && !("id" in cfg.writeOnly)
    && cfg.api !! cfg.writeOnly
  }

  /** How the stored value of a field is shown by a find: a resolved foreign key shows its id. */
  type Show = (string, Value) -> Value

  ghost predicate KeepsIds(show: Show) {
    forall v :: show("id", v) == v
  }

  // ---------------------------------------------------------------- whether to write

  predicate SameType(a: Value, b: Value) {
    && a.Null? == b.Null? && a.Bool? == b.Bool? && a.Int? == b.Int? && a.Float? == b.Float?
    && a.Str? == b.Str? && a.List? == b.List?
  }

  /** A name stands against the digits of the id it was resolved to. */
  predicate NameAgainstDigits(desired: Value, current: Value) {
    desired.Str? && current.Str? && !AllDigits(desired.s) && AllDigits(current.s)
  }

  /** The values a comparison lets pass as the same. */
  predicate Passes(cfg: Config, key: string, desired: Value, current: Value) {
    || desired == current
    || (!SameType(desired, current) && cfg.str(desired) == cfg.str(current))
    || (key !in cfg.mutableFk && NameAgainstDigits(desired, current))
  }

  predicate IsCompared(cfg: Config, desired: Fields, current: Fields, key: string) {
    && key in desired && key in current && desired[key] != Null
    && key !in cfg.auth + DIRECTIVES + READ_ONLY + cfg.writeOnly
  }

  predicate NeedsUpdate(cfg: Config, desired: Fields, current: Fields) {
    || Truthy(Get(desired, "new_name"))
    || exists key | key in desired ::
         IsCompared(cfg, desired, current, key) && !Passes(cfg, key, desired[key], current[key])
  }

  /** The comparison loop: no update exactly when every compared pair of values passes. */
  method ShouldUpdate(cfg: Config, desired: Fields, current: Fields) returns (update: bool)
    ensures update == NeedsUpdate(cfg, desired, current)
  {
    if Truthy(Get(desired, "new_name")) {
      return true;
    }
    var skip := cfg.auth + DIRECTIVES + READ_ONLY + cfg.writeOnly;
    var rest := desired.Keys;
    while rest != {}
      invariant rest <= desired.Keys
      invariant forall key | key in desired.Keys - rest ::
                  IsCompared(cfg, desired, current, key) ==> Passes(cfg, key, desired[key], current[key])
    {
      var key :| key in rest;
      rest := rest - {key};
      var wanted := desired[key];
      if key in skip || wanted == Null || key !in current {
        continue;
      }
      var have := current[key];
      if key !in cfg.mutableFk && wanted.Str? && have.Str? && !AllDigits(wanted.s) && AllDigits(have.s) {
        continue;
      }
      if SameType(wanted, have) {
        if wanted != have {
          return true;
        }
      } else if cfg.str(wanted) != cfg.str(have) {
        return true;
      }
    }
    return false;
  }

  // ---------------------------------------------------------------- the manager

  datatype Operation = CreateOp | UpdateOp | DeleteOp | FindOp | EnforcedOp

  datatype Write = WriteNew | WriteOver(id: int) | Remove(id: int)

  datatype Call = Finds | Writes(write: Write)

  /** The answer to a find; an unreachable server and a missing id raise alike. */
  datatype Find = Got(shown: Fields) | Missing | Unreachable

  /** A stored item as a find shows it: every field of the model, null where nothing is stored. */
  function Shown(cfg: Config, show: Show, item: Fields): Fields {
    map k | k in cfg.model :: if k in item then show(k, item[k]) else Null
  }

  /** The id or the number that a find asks for directly, if any. */
  function DirectId(cfg: Config, data: Fields): Option<int> {
    if Truthy(Get(data, "id")) && data["id"].Int? then Some(data["id"].n)
    else
      var text := Strip(cfg.str(Get(data, cfg.lookup)));
      if AllDigits(text) && ParseInt(text) != None && ParseInt(text) != Some(0) then ParseInt(text) else None
  }

  /** The first item that came in with the name, in the order of the store's list. */
  function FirstHolder(cfg: Config, st: Stored, name: string): (id: Option<int>)
    ensures id.Some? ==> id.value in st.items
  {
    var ids := Select(st.items, st.order, Query(map[cfg.lookup := name], None, None), cfg.str);
    if ids == [] then None else Some(ids[0])
  }

  /** What a find answers: the item of an id or a number asked for, else the first of the name. */
  function FindOf(cfg: Config, show: Show, reachable: bool, st: Stored, data: Fields): Find {
    if !reachable then Unreachable
    else match DirectId(cfg, data)
      case Some(id) => if id in st.items then Got(Shown(cfg, show, st.items[id])) else Unreachable
      case None =>
        if !Truthy(Get(data, cfg.lookup)) then Missing
        else match FirstHolder(cfg, st, cfg.str(Get(data, cfg.lookup)))
          case None => Missing
          case Some(id) => Got(Shown(cfg, show, st.items[id]))
  }

  /** The body of a create: what the task declares of the fields that are sent. */
  function Body(cfg: Config, data: Fields): Fields {
    map k | k in data && k in cfg.api && data[k] != Null :: data[k]
  }

  /** The body of an update: fields left out are filled in from the item as shown; a rename wins. */
  function UpdateBody(cfg: Config, data: Fields, current: Fields): Fields {
    Body(cfg, current) + Body(cfg, data) +
    if Get(data, "new_name") != Null then map[cfg.lookup := data["new_name"]] else map[]
  }

  class Manager {
    const cfg: Config
    const show: Show
    const resource: GenericResource
    var reachable: bool
    var calls: seq<Call>

    ghost predicate Valid()
      reads this, resource
    {
      && Sensible(cfg) && KeepsIds(show) && resource.str == cfg.str
      && resource.Valid() && Keyed(resource.items)
      && resource.nextId > 0
      && forall id | id in resource.items :: id > 0
    }

    constructor (cfg: Config, show: Show, resource: GenericResource)
      requires Sensible(cfg) && KeepsIds(show) && resource.str == cfg.str && resource.Valid()
      requires Keyed(resource.items) && resource.nextId > 0 && forall id | id in resource.items :: id > 0
      ensures Valid() && this.cfg == cfg && this.show == show && this.resource == resource
      ensures reachable && calls == []
    {
      this.cfg, this.show, this.resource := cfg, show, resource;
      reachable, calls := true, [];
    }

    method FindItem(data: Fields) returns (find: Find)
      requires Valid()
      modifies this`calls
      ensures Valid() && calls == old(calls) + [Finds]
      ensures find == FindOf(cfg, show, reachable, resource.Contents(), data)
    {
      calls := calls + [Finds];
      if !reachable {
        return Unreachable;
      }
      var direct := DirectId(cfg, data);
      if direct != None {
        var item := resource.GetItem(direct.value);
        return if item != None then Got(Shown(cfg, show, item.value)) else Unreachable;
      }
      if !Truthy(Get(data, cfg.lookup)) {
        return Missing;
      }
      var results := resource.ListItems(Query(map[cfg.lookup := cfg.str(Get(data, cfg.lookup))], None, None));
      if results == [] {
        return Missing;
      }
      return Got(Shown(cfg, show, results[0]));
    }

    /** A create of a body without the required fields and a write to a missing item are refused. */
    method Execute(write: Write, data: Fields) returns (ok: bool)
      requires Valid()
      modifies this`calls, resource
      ensures Valid() && calls == old(calls) + [Writes(write)]
      ensures (resource.Contents(), ok) ==
              Written(cfg, show, resource.required, resource.patchable, old(resource.Contents()), write, data)
    {
      calls := calls + [Writes(write)];
      match write {
        case WriteNew =>
          var body := Body(cfg, data);
          var id := resource.Create(body);
          ok := id != None;
        case WriteOver(id) =>
          var current := resource.GetItem(id);
          if current == None {
            return false;
          }
          var body := UpdateBody(cfg, data, Shown(cfg, show, current.value));
          var item := resource.Patch(id, body);
          ok := true;
        case Remove(id) =>
          ok := resource.Delete(id);
      }
    }
  }

  /** What a write leaves in the store, and whether it was accepted. */
  function Written(cfg: Config, show: Show, required: seq<string>, patchable: Option<set<string>>,
                   st: Stored, write: Write, data: Fields): (Stored, bool)
  {
    match write
    case WriteNew =>
      if Accepts(required, Body(cfg, data)) then (Created(st, Body(cfg, data)), true) else (st, false)
    case WriteOver(id) =>
      if id !in st.items then (st, false)
      else
        var body := UpdateBody(cfg, data, Shown(cfg, show, st.items[id]));
        (Placed(st, id, Patched(st.items[id], body, patchable)), true)
    case Remove(id) =>
      (Dropped(st, id), id in st.items)
  }

  /** An item that no write names stays; one that is removed goes; a new one comes under the next id. */
  ghost predicate Accounted(before: Stored, after: Stored, made: seq<Call>) {
    && (forall id | id in before.items && Writes(Remove(id)) !in made && Writes(WriteOver(id)) !in made ::
          id in after.items && after.items[id] == before.items[id])
    && (forall id | id in before.items && Writes(Remove(id)) !in made :: id in after.items)
    && (forall id | Writes(Remove(id)) in made :: id !in after.items)
    && (forall id | id in after.items :: id in before.items || (id == before.nextId && Writes(WriteNew) in made))
  }

  lemma WrittenAccounts(cfg: Config, show: Show, required: seq<string>, patchable: Option<set<string>>, st: Stored,
                        write: Write, data: Fields, made: seq<Call>)
    requires Writes(write) in made && forall call | call in made :: call == Finds || call == Writes(write)
    requires st.nextId !in st.items
    ensures Accounted(st, Written(cfg, show, required, patchable, st, write, data).0, made)
  {
  }

  // ---------------------------------------------------------------- field by field

  /** What a create stores of the task: every declared field that is sent, and nothing else. */
  lemma BodyFields(cfg: Config, data: Fields, key: string)
    ensures key in Body(cfg, data) <==> key in data && key in cfg.api && data[key] != Null
    ensures key in Body(cfg, data) ==> Body(cfg, data)[key] == data[key]
  {
  }

  /**
   What an update makes of an item: a new name replaces the lookup field; a declared field that
   is sent takes its value; one that is not declared is sent as it is shown; what may not change
   or is not sent stays.
   */
  lemma UpdatedFields(cfg: Config, data: Fields, shown: Fields, item: Fields, allowed: Option<set<string>>, key: string)
    ensures var after := Patched(item, UpdateBody(cfg, data, shown), allowed);
            var may := key != "id" && key != "created" && key != "url" && (allowed == None || key in allowed.value);
            var renamed := key == cfg.lookup && "new_name" in data && data["new_name"] != Null;
            var declared := key in data && key in cfg.api && data[key] != Null;
            var filled := key in shown && key in cfg.api && shown[key] != Null;
            && (may && renamed ==> key in after && after[key] == data["new_name"])
            && (may && !renamed && declared ==> key in after && after[key] == data[key])
            && (may && !renamed && !declared && filled ==> key in after && after[key] == shown[key])
            && (!may || (!renamed && !declared && !filled) ==>
                  (key in after <==> key in item) && (key in item ==> after[key] == item[key]))
  {
    PatchedFields(item, UpdateBody(cfg, data, shown), allowed, key);
  }

  /** How an item is shown: every field of the model, null where nothing is stored. */
  lemma ShownFields(cfg: Config, show: Show, item: Fields, key: string)
    ensures key in Shown(cfg, show, item) <==> key in cfg.model
    ensures key in cfg.model ==> Shown(cfg, show, item)[key] == if key in item then show(key, item[key]) else Null
  {
  }

  /** What of the arguments describes the resource: what is given, credentials and write-only fields apart. */
  lemma DataFields(cfg: Config, params: Fields, key: string)
    ensures key in ResourceData(cfg, params) <==>
              key in params && params[key] != Null && key !in cfg.auth && key !in cfg.writeOnly
    ensures key in ResourceData(cfg, params) ==> ResourceData(cfg, params)[key] == params[key]
  {
  }

  /** The enforced state of a field: as declared, the name and the read-only fields as shown, else null. */
  lemma MergedFields(cfg: Config, params: Fields, shown: Fields, key: string)
    ensures var merged := Merged(cfg, params, shown);
            var asShown := key in shown && (key == "id" || key == "created" || key == "modified" || key == "url");
            && (key in merged <==> asShown || (key in cfg.argspec && key !in cfg.auth))
            && (asShown ==> merged[key] == shown[key])
            && (!asShown && key in merged ==>
                  merged[key] == if key in params then params[key]
                                 else if key == cfg.lookup && key in shown && !Blank(shown[key]) then shown[key]
                                 else Null)
  {
    TruthyUnlessBlank(Get(shown, key));
  }

  /** A find asks for the id, else for a name of digits as an id, else for the first item of the name. */
  lemma FindIs(cfg: Config, show: Show, st: Stored, data: Fields, find: Find)
    requires InOrder(st) && PythonText(cfg.str) && find == FindOf(cfg, show, true, st, data)
    ensures forall id | GivesId(data, id) ::
              find == if id in st.items then Got(Shown(cfg, show, st.items[id])) else Unreachable
    ensures (forall id :: !GivesId(data, id)) && cfg.lookup in data && data[cfg.lookup].Str? ==>
              var name := data[cfg.lookup].s;
              if AllDigits(Strip(name)) && ParseInt(Strip(name)) !in {None, Some(0)} then
                var id := ParseInt(Strip(name)).value;
                find == if id in st.items then Got(Shown(cfg, show, st.items[id])) else Unreachable
              else if name != "" then FirstOf(cfg, show, st, name, find) else find == Missing
  {
    IdIsGiven(data);
    if cfg.lookup in data && data[cfg.lookup].Str? && data[cfg.lookup].s != "" {
      FirstIsFirst(cfg, show, st, data[cfg.lookup].s);
    }
  }

  /** The first item in the order of the store that has the name. */
  ghost predicate FirstOf(cfg: Config, show: Show, st: Stored, name: string, find: Find) {
    if exists id | id in st.items :: Reads(st.items[id], cfg.lookup, name, cfg.str) then
      exists i | 0 <= i < |st.order| ::
        && st.order[i] in st.items && Reads(st.items[st.order[i]], cfg.lookup, name, cfg.str)
        && (forall j | 0 <= j < i && st.order[j] in st.items ::
              !Reads(st.items[st.order[j]], cfg.lookup, name, cfg.str))
        && find == Got(Shown(cfg, show, st.items[st.order[i]]))
    else find == Missing
  }

  lemma {:induction false} FirstSelected(items: Table, order: seq<int>, query: Query, str: Text) returns (i: nat)
    requires Select(items, order, query, str) != []
    ensures i < |order| && Select(items, order, query, str)[0] == order[i]
    ensures order[i] in items && Matches(items[order[i]], query, str)
    ensures forall j | 0 <= j < i && order[j] in items :: !Matches(items[order[j]], query, str)
  {
    var n := |order| - 1;
    if Select(items, order[..n], query, str) != [] {
      i := FirstSelected(items, order[..n], query, str);
      assert forall j | 0 <= j < i :: order[..n][j] == order[j];
    } else {
      i := n;
      forall j | 0 <= j < n && order[j] in items ensures !Matches(items[order[j]], query, str) {
        NoneSelected(items, order[..n], query, str, j);
      }
    }
  }

  lemma {:induction false} NoneSelected(items: Table, order: seq<int>, query: Query, str: Text, j: nat)
    requires Select(items, order, query, str) == [] && j < |order| && order[j] in items
    ensures !Matches(items[order[j]], query, str)
  {
    if j < |order| - 1 {
      NoneSelected(items, order[..|order| - 1], query, str, j);
    }
  }

  lemma FirstIsFirst(cfg: Config, show: Show, st: Stored, name: string)
    requires InOrder(st)
    ensures FirstOf(cfg, show, st, name, match FirstHolder(cfg, st, name)
                                         case None => Missing
                                         case Some(id) => Got(Shown(cfg, show, st.items[id])))
  {
    var query := Query(map[cfg.lookup := name], None, None);
    forall id | id in st.items
      ensures Matches(st.items[id], query, cfg.str) <==> Reads(st.items[id], cfg.lookup, name, cfg.str)
    {
      assert query.all[cfg.lookup] == name;
      MatchesIff(st.items[id], query, cfg.str);
    }
    if FirstHolder(cfg, st, name) == None {
      forall id | id in st.items ensures !Reads(st.items[id], cfg.lookup, name, cfg.str) {
        var j: nat :| j < |st.order| && st.order[j] == id;
        NoneSelected(st.items, st.order, query, cfg.str, j);
      }
    } else {
      var i := FirstSelected(st.items, st.order, query, cfg.str);
      assert st.order[i] in st.items;
    }
  }

  /** When a task calls for an update: a new name, or a field that is compared and does not pass. */
  lemma NeedsUpdateIff(cfg: Config, desired: Fields, current: Fields)
    ensures NeedsUpdate(cfg, desired, current) <==>
              || ("new_name" in desired && !Blank(desired["new_name"]))
              || exists key | key in desired ::
                   && key in current && desired[key] != Null && key !in cfg.auth && key !in cfg.writeOnly
                   && key !in ["state", "new_name", "id", "created", "modified", "url"]
                   && Differ(cfg, key, desired[key], current[key])
  {
    TruthyUnlessBlank(Get(desired, "new_name"));
    forall key | key in desired
      ensures IsCompared(cfg, desired, current, key) && !Passes(cfg, key, desired[key], current[key]) <==>
                && key in current && desired[key] != Null && key !in cfg.auth && key !in cfg.writeOnly
                && key !in ["state", "new_name", "id", "created", "modified", "url"]
                && Differ(cfg, key, desired[key], current[key])
    {
      if key in current {
        PassesUnlessDiffer(cfg, key, desired[key], current[key]);
      }
    }
  }

  /**
   Two values differ: as values when they are of one type, by their texts when they are not. A
   text that is not all digits against one that is counts as a name against its id, and does not
   differ unless the field is one whose reference may change.
   */
  predicate Differ(cfg: Config, key: string, desired: Value, current: Value) {
    match (desired, current)
    case (Str(s), Str(t)) => s != t && (key in cfg.mutableFk || AllDigits(s) || !AllDigits(t))
    case (Null, Null) => false
    case (Bool(a), Bool(b)) => a != b
    case (Int(a), Int(b)) => a != b
    case (Float(a), Float(b)) => a != b
    case (List(a), List(b)) => a != b
    case (Dict(a), Dict(b)) => a != b
    case _ => cfg.str(desired) != cfg.str(current)
  }

  lemma PassesUnlessDiffer(cfg: Config, key: string, desired: Value, current: Value)
    ensures Passes(cfg, key, desired, current) <==> !Differ(cfg, key, desired, current)
  {
  }

  // ---------------------------------------------------------------- one task

  function StateOf(params: Fields): Value {
    if "state" in params then params["state"] else Str("present")
  }

  function DetectOperation(params: Fields): Option<Operation> {
    var state := StateOf(params);
    if state in {Str("absent"), Str("deleted")} then Some(DeleteOp)
    else if state == Str("present") then Some(if Truthy(Get(params, "id")) then UpdateOp else CreateOp)
    else if state in {Str("exists"), Str("find"), Str("gathered")} then Some(FindOp)
    else if state in {Str("enforced"), Str("merged")} then Some(EnforcedOp)
    else None
  }

  /** What of the task's arguments describes the resource. */
  function ResourceData(cfg: Config, params: Fields): Fields {
    map k | k in params && params[k] != Null && k !in cfg.auth && k !in cfg.writeOnly :: params[k]
  }

  /** The enforced state: declared fields as given, the lookup field kept, the others null. */
  function Merged(cfg: Config, params: Fields, shown: Fields): Fields {
    (map k | k in cfg.argspec && k !in cfg.auth ::
      if k in params then params[k]
      else if k == cfg.lookup && Truthy(Get(shown, k)) then shown[k]
      else Null)
    + map k | k in shown && k in READ_ONLY :: shown[k]
  }

  function IdIn(fields: Fields): Option<int> {
    if Truthy(Get(fields, "id")) && fields["id"].Int? then Some(fields["id"].n) else None
  }

  function FoundId(find: Find): Option<int> {
    if find.Got? then IdIn(find.shown) else None
  }

  datatype Decision = Quiet | Answer(there: bool) | Do(write: Write, data: Fields) | Fail

  /** What a task comes to once the item has been looked for. */
  function Decide(cfg: Config, params: Fields, find: Find): Decision {
    var data := ResourceData(cfg, params);
    match DetectOperation(params)
    case None => Fail
    case Some(FindOp) =>
      if find.Unreachable? && StateOf(params) != Str("exists") then Fail else Answer(FoundId(find) != None)
    case Some(CreateOp) =>
      if FoundId(find) == None then Do(WriteNew, data)
      else if NeedsUpdate(cfg, data, find.shown) then Do(WriteOver(FoundId(find).value), data)
      else Quiet
    case Some(UpdateOp) => if IdIn(data) == None then Fail else Do(WriteOver(IdIn(data).value), data)
    case Some(DeleteOp) =>
      if IdIn(data) != None then Do(Remove(IdIn(data).value), data)
      else if FoundId(find) != None then Do(Remove(FoundId(find).value), data)
      else Quiet
    case Some(EnforcedOp) =>
      if find.Unreachable? then Fail
      else if FoundId(find) == None then Do(WriteNew, data)
      else if NeedsUpdate(cfg, Merged(cfg, params, find.shown), find.shown)
      then Do(WriteOver(FoundId(find).value), Merged(cfg, params, find.shown))
      else Quiet
  }

  // ---------------------------------------------------------------- the states, one by one

  /** The integer id in some fields, if there is one that is not zero. */
  ghost predicate GivesId(fields: Fields, id: int) {
    "id" in fields && fields["id"] == Int(id) && id != 0
  }

  function Made(write: Write, checkMode: bool): seq<Call> {
    if checkMode then [] else [Writes(write)]
  }

  /** The absent and deleted states: what is given or found by a look goes, and nothing else is done. */
  ghost predicate Removes(params: Fields, find: Find, checkMode: bool, made: seq<Call>) {
    && (forall id | GivesId(params, id) :: made == Made(Remove(id), checkMode))
    && ((forall id :: !GivesId(params, id)) ==>
          && (forall id | find.Got? && GivesId(find.shown, id) :: made == [Finds] + Made(Remove(id), checkMode))
          && ((forall id :: !(find.Got? && GivesId(find.shown, id))) ==> made == [Finds]))
  }

  /** A write to the item found if `desired` differs from it, a new item if none was found. */
  ghost predicate Ensures(cfg: Config, desired: Fields, find: Find, checkMode: bool, made: seq<Call>) {
    && (forall id | find.Got? && GivesId(find.shown, id) ::
          made == [Finds] + if NeedsUpdate(cfg, desired, find.shown) then Made(WriteOver(id), checkMode) else [])
    && ((forall id :: !(find.Got? && GivesId(find.shown, id))) ==> made == [Finds] + Made(WriteNew, checkMode))
  }

  /** The present state: with an id the item is written over unseen, without one it is looked for. */
  ghost predicate Presents(cfg: Config, params: Fields, find: Find, checkMode: bool, made: seq<Call>, failed: bool) {
    if "id" in params && !Blank(params["id"]) then
      && (params["id"].Int? ==> made == Made(WriteOver(params["id"].n), checkMode))
      && (!params["id"].Int? ==> made == [] && failed)
    else Ensures(cfg, ResourceData(cfg, params), find, checkMode, made)
  }

  /** The enforced and merged states: a failing look ends it; fields not declared count as null. */
  ghost predicate Enforces(cfg: Config, params: Fields, find: Find, checkMode: bool, made: seq<Call>, failed: bool) {
    if find.Unreachable? then made == [Finds] && failed
    else Ensures(cfg, if find.Got? then Merged(cfg, params, find.shown) else params, find, checkMode, made)
  }

  /** The calls a task makes, and where it fails without a write, by its state alone. */
  ghost predicate ByState(cfg: Config, params: Fields, find: Find, checkMode: bool, made: seq<Call>, failed: bool,
                          there: Option<bool>)
  {
    var state := if "state" in params then params["state"] else Str("present");
    if state == Str("absent") || state == Str("deleted") then Removes(params, find, checkMode, made) && there == None
    else if state == Str("present") then Presents(cfg, params, find, checkMode, made, failed) && there == None
    else if state == Str("enforced") || state == Str("merged") then
      Enforces(cfg, params, find, checkMode, made, failed) && there == None
    else if state == Str("exists") || state == Str("find") || state == Str("gathered") then
      && made == [Finds] && (failed <==> state != Str("exists") && find.Unreachable?)
      && (!failed ==> there == Some(find.Got? && exists id :: GivesId(find.shown, id)))
    else made == [] && failed && there == None
  }

  lemma IdIsGiven(fields: Fields)
    ensures forall id :: GivesId(fields, id) <==> IdIn(fields) == Some(id)
  {
  }

  /** The calls of a decision. */
  function CallsOf(cfg: Config, params: Fields, decision: Decision, checkMode: bool): seq<Call> {
    (if LooksFirst(cfg, params) then [Finds] else []) + if decision.Do? then Made(decision.write, checkMode) else []
  }

  lemma OperationOf(params: Fields)
    ensures var state := if "state" in params then params["state"] else Str("present");
            DetectOperation(params) ==
            if state == Str("absent") || state == Str("deleted") then Some(DeleteOp)
            else if state == Str("present") then
              Some(if "id" in params && !Blank(params["id"]) then UpdateOp else CreateOp)
            else if state == Str("enforced") || state == Str("merged") then Some(EnforcedOp)
            else if state == Str("exists") || state == Str("find") || state == Str("gathered") then Some(FindOp)
            else None
  {
    TruthyUnlessBlank(Get(params, "id"));
  }

  lemma DeleteRemoves(cfg: Config, params: Fields, find: Find, checkMode: bool)
    requires Sensible(cfg) && DetectOperation(params) == Some(DeleteOp)
    ensures Removes(params, find, checkMode, CallsOf(cfg, params, Decide(cfg, params, find), checkMode))
    ensures Decide(cfg, params, find).Quiet? || Decide(cfg, params, find).Do?
  {
    IdIsKept(cfg, params);
    IdIsGiven(params);
    if find.Got? {
      IdIsGiven(find.shown);
    }
  }

  lemma CreateEnsures(cfg: Config, params: Fields, find: Find, checkMode: bool)
    requires DetectOperation(params) == Some(CreateOp)
    ensures Ensures(cfg, ResourceData(cfg, params), find, checkMode,
                    CallsOf(cfg, params, Decide(cfg, params, find), checkMode))
    ensures Decide(cfg, params, find).Quiet? || Decide(cfg, params, find).Do?
  {
    if find.Got? {
      IdIsGiven(find.shown);
    }
  }

  lemma EnforcedEnforces(cfg: Config, params: Fields, find: Find, checkMode: bool)
    requires DetectOperation(params) == Some(EnforcedOp)
    ensures Enforces(cfg, params, find, checkMode, CallsOf(cfg, params, Decide(cfg, params, find), checkMode), true)
    ensures Decide(cfg, params, find) == Fail <==> find.Unreachable?
    ensures !Decide(cfg, params, find).Answer?
  {
    if find.Got? {
      IdIsGiven(find.shown);
    }
  }

  lemma UpdateGoesOver(cfg: Config, params: Fields, find: Find)
    requires Sensible(cfg) && DetectOperation(params) == Some(UpdateOp) && "id" in params && !Blank(params["id"])
    ensures params["id"].Int? ==>
              Decide(cfg, params, find) == Do(WriteOver(params["id"].n), ResourceData(cfg, params))
    ensures !params["id"].Int? ==> Decide(cfg, params, find) == Fail
  {
    IdIsKept(cfg, params);
    TruthyUnlessBlank(Get(params, "id"));
  }

  lemma DecisionByState(cfg: Config, params: Fields, find: Find, checkMode: bool, failed: bool)
    requires Sensible(cfg)
    requires var decision := Decide(cfg, params, find);
             !decision.Do? || checkMode ==> (failed <==> decision == Fail)
    ensures var decision := Decide(cfg, params, find);
            ByState(cfg, params, find, checkMode, CallsOf(cfg, params, decision, checkMode), failed,
                    if decision.Answer? then Some(decision.there) else None)
  {
    OperationOf(params);
    match DetectOperation(params) {
      case Some(DeleteOp) => DeleteRemoves(cfg, params, find, checkMode);
      case Some(CreateOp) => CreateEnsures(cfg, params, find, checkMode);
      case Some(EnforcedOp) => EnforcedEnforces(cfg, params, find, checkMode);
      case Some(UpdateOp) => UpdateGoesOver(cfg, params, find);
      case Some(FindOp) =>
        if find.Got? {
          IdIsGiven(find.shown);
        }
      case None =>
    }
  }

  lemma IdIsKept(cfg: Config, params: Fields)
    requires Sensible(cfg)
    ensures IdIn(ResourceData(cfg, params)) == IdIn(params)
  {
  }

  predicate LooksFirst(cfg: Config, params: Fields) {
    match DetectOperation(params)
    case None => false
    case Some(UpdateOp) => false
    case Some(DeleteOp) => IdIn(ResourceData(cfg, params)) == None
    case Some(_) => true
  }

  datatype Report = No | Yes | AsManagerSays

  datatype Result = Result(changed: Report, failed: bool, there: Option<bool>)

  /** What a task comes to in the state the manager and its store are in. */
  function Planned(manager: Manager, params: Fields): Decision
    reads manager, manager.resource
  {
    Decide(manager.cfg, params,
           FindOf(manager.cfg, manager.show, manager.reachable, manager.resource.Contents(),
                  ResourceData(manager.cfg, params)))
  }

  /** The part of a run before check mode is looked at: one find at most, and what it leads to. */
  method Choose(manager: Manager, params: Fields) returns (decision: Decision)
    requires manager.Valid()
    modifies manager`calls
    ensures manager.Valid()
    ensures decision == Planned(manager, params)
    ensures manager.calls == old(manager.calls) + if LooksFirst(manager.cfg, params) then [Finds] else []
  {
    var cfg := manager.cfg;
    var operation := DetectOperation(params);
    if operation == None {
      return Fail;
    }
    var data := ResourceData(cfg, params);
    var op, id := operation.value, IdIn(data);
    var found := Missing;
    if op in {FindOp, CreateOp, EnforcedOp} || (op == DeleteOp && id == None) {
      found := manager.FindItem(data);
    }
    match op {
      case FindOp =>
        return if found == Unreachable && StateOf(params) != Str("exists") then Fail
               else Answer(FoundId(found) != None);
      case CreateOp =>
        if FoundId(found) != None {
          var update := ShouldUpdate(cfg, data, found.shown);
          if !update {
            return Quiet;
          }
          op, id := UpdateOp, FoundId(found);
        }
      case UpdateOp =>
      case DeleteOp =>
        if id == None {
          if FoundId(found) == None {
            return Quiet;
          }
          id := FoundId(found);
        }
      case EnforcedOp =>
        if found == Unreachable {
          return Fail;
        }
        if FoundId(found) != None {
          var merged := Merged(cfg, params, found.shown);
          var update := ShouldUpdate(cfg, merged, found.shown);
          if !update {
            return Quiet;
          }
          data, op, id := merged, UpdateOp, FoundId(found);
        } else {
          op := CreateOp;
        }
    }
    if op == UpdateOp && id == None {
      return Fail;
    }
    var write := if op == CreateOp then WriteNew else if op == UpdateOp then WriteOver(id.value) else Remove(id.value);
    return Do(write, data);
  }

  /**
   Runs one task. Check mode only looks; a real run looks at most once and writes at most
   once, and the store changes by that write alone.
   */
  method Run(manager: Manager, params: Fields, checkMode: bool) returns (result: Result)
    requires manager.Valid()
    modifies manager`calls, manager.resource
    ensures manager.Valid()
    ensures var decision := old(Planned(manager, params));
            && manager.calls == old(manager.calls) + (if LooksFirst(manager.cfg, params) then [Finds] else [])
                                + (if decision.Do? && !checkMode then [Writes(decision.write)] else [])
            && result.there == (if decision.Answer? then Some(decision.there) else None)
            && (result.changed == Yes <==> decision.Do? && checkMode)
            && (result.changed == AsManagerSays <==> decision.Do? && !checkMode && !result.failed)
    ensures var decision := old(Planned(manager, params));
            if decision.Do? && !checkMode then
              (manager.resource.Contents(), !result.failed) ==
              Written(manager.cfg, manager.show, manager.resource.required, manager.resource.patchable,
                      old(manager.resource.Contents()), decision.write, decision.data)
            else
              manager.resource.Contents() == old(manager.resource.Contents()) && (result.failed <==> decision == Fail)
  {
    var decision := Choose(manager, params);
    match decision {
      case Fail => return Result(No, true, None);
      case Quiet => return Result(No, false, None);
      case Answer(there) => return Result(No, false, Some(there));
      case Do(write, data) =>
        if checkMode {
          return Result(Yes, false, None);
        }
        var ok := manager.Execute(write, data);
        return Result(if ok then AsManagerSays else No, !ok, None);
    }
  }

  /**
   The run of any task, by what its state asks for: which calls it makes, where it fails, and what
   these calls leave of the store.
   */
  method RunByState(manager: Manager, params: Fields, checkMode: bool) returns (result: Result, ghost made: seq<Call>)
    requires manager.Valid()
    modifies manager`calls, manager.resource
    ensures manager.Valid() && manager.calls == old(manager.calls) + made
    ensures ByState(manager.cfg, params,
                    old(FindOf(manager.cfg, manager.show, manager.reachable, manager.resource.Contents(),
                               ResourceData(manager.cfg, params))),
                    checkMode, made, result.failed, result.there)
    ensures Accounted(old(manager.resource.Contents()), manager.resource.Contents(), made)
  {
    ghost var st := manager.resource.Contents();
    ghost var find := FindOf(manager.cfg, manager.show, manager.reachable, st, ResourceData(manager.cfg, params));
    ghost var decision := Planned(manager, params);
    result := Run(manager, params, checkMode);
    made := CallsOf(manager.cfg, params, decision, checkMode);
    DecisionByState(manager.cfg, params, find, checkMode, result.failed);
    if decision.Do? && !checkMode {
      WrittenAccounts(manager.cfg, manager.show, manager.resource.required, manager.resource.patchable, st,
                      decision.write, decision.data, made);
    }
  }
}
