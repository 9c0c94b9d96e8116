/** Whole sequences of tasks against the store: what each acts on, uniqueness, independence. */
module ActionRuns {
  import opened Json
  import opened Numerals
  import opened GatewayStore
  import opened ActionPlugin
  import opened Collections

  /** What does not change while tasks run. */
  datatype Setup = Setup(cfg: Config, show: Show, required: seq<string>, patchable: Option<set<string>>)

  ghost predicate WellFormed(setup: Setup, st: Stored) {
    && Sensible(setup.cfg) && KeepsIds(setup.show)
    && Keyed(st.items) && InOrder(st) && st.nextId > 0
    && forall id | id in st.items :: 0 < id < st.nextId
  }

  /** A well-formed store in which no two items have one name. */
  ghost predicate Sound(setup: Setup, st: Stored) {
    WellFormed(setup, st) && Unique(setup.cfg, st.items)
  }

  function NameIn(cfg: Config, item: Fields): string {
    TextOf(item, cfg.lookup, cfg.str)
  }

  ghost predicate Unique(cfg: Config, items: Table) {
    forall a, b | a in items && b in items && NameIn(cfg, items[a]) == NameIn(cfg, items[b]) :: a == b
  }

  /** A present, absent or exists task that names its item and renames nothing. */
  predicate Plain(cfg: Config, params: Fields) {
    && StateOf(params) in {Str("present"), Str("absent"), Str("exists")}
    && Get(params, "id") == Null && Get(params, "new_name") == Null
    && cfg.lookup in params && params[cfg.lookup].Str? && params[cfg.lookup].s != ""
  }

  function Name(cfg: Config, params: Fields): string
    requires Plain(cfg, params)
  {
    params[cfg.lookup].s
  }

  /** A name of digits asks for the item of that id, unless it is zero. */
  function Numeral(name: string): Option<int> {
    var text := Strip(name);
    if AllDigits(text) && ParseInt(text) != None && ParseInt(text) != Some(0) then ParseInt(text) else None
  }

  function Holders(cfg: Config, items: Table, name: string): set<int> {
    set id | id in items && NameIn(cfg, items[id]) == name
  }

  // ---------------------------------------------------------------- what a task acts on

  lemma DataKeepsName(cfg: Config, params: Fields)
    requires Sensible(cfg) && Plain(cfg, params)
    ensures var data := ResourceData(cfg, params);
            && Get(data, cfg.lookup) == Str(Name(cfg, params))
            && Get(Body(cfg, data), cfg.lookup) == Str(Name(cfg, params))
            && IdIn(data) == None && Get(data, "new_name") == Null
            && DirectId(cfg, data) == Numeral(Name(cfg, params))
  {
  }

  /** The item a task comes upon: that of the number, or the first of the name. */
  function Target(setup: Setup, st: Stored, params: Fields): (id: Option<int>)
    requires Plain(setup.cfg, params)
    ensures id.Some? ==> id.value in st.items
  {
    match Numeral(Name(setup.cfg, params))
    case Some(n) => if n in st.items then Some(n) else None
    case None => FirstHolder(setup.cfg, st, Name(setup.cfg, params))
  }

  function FindFor(setup: Setup, st: Stored, params: Fields): Find {
    FindOf(setup.cfg, setup.show, true, st, ResourceData(setup.cfg, params))
  }

  lemma ShownUnderItsId(setup: Setup, item: Fields, id: int)
    requires Sensible(setup.cfg) && KeepsIds(setup.show) && Get(item, "id") == Int(id) && id > 0
    ensures FoundId(Got(Shown(setup.cfg, setup.show, item))) == Some(id)
  {
  }

  lemma FindAnswers(setup: Setup, st: Stored, params: Fields)
    requires WellFormed(setup, st) && Plain(setup.cfg, params)
    ensures match Target(setup, st, params)
            case None => !FindFor(setup, st, params).Got?
            case Some(id) => FindFor(setup, st, params) == Got(Shown(setup.cfg, setup.show, st.items[id]))
  {
    DataKeepsName(setup.cfg, params);
  }

  lemma FindIsTarget(setup: Setup, st: Stored, params: Fields)
    requires WellFormed(setup, st) && Plain(setup.cfg, params)
    ensures FoundId(FindFor(setup, st, params)) == Target(setup, st, params)
    ensures Target(setup, st, params).Some? ==>
              FindFor(setup, st, params) ==
              Got(Shown(setup.cfg, setup.show, st.items[Target(setup, st, params).value]))
  {
    FindAnswers(setup, st, params);
    if Target(setup, st, params) != None {
      var id := Target(setup, st, params).value;
      ShownUnderItsId(setup, st.items[id], id);
    }
  }

  ghost function DecisionOn(setup: Setup, st: Stored, params: Fields): Decision {
    Decide(setup.cfg, params, FindFor(setup, st, params))
  }

  lemma OperationIs(cfg: Config, params: Fields)
    requires Plain(cfg, params)
    ensures StateOf(params) == Str("present") ==> DetectOperation(params) == Some(CreateOp)
    ensures StateOf(params) == Str("absent") ==> DetectOperation(params) == Some(DeleteOp)
    ensures StateOf(params) == Str("exists") ==> DetectOperation(params) == Some(FindOp)
    ensures StateOf(params) in {Str("present"), Str("absent"), Str("exists")}
  {
  }

  lemma DecideIs(cfg: Config, params: Fields, find: Find)
    requires Sensible(cfg) && Plain(cfg, params) && (FoundId(find) == None || find.Got?)
    ensures var data, target := ResourceData(cfg, params), FoundId(find);
            Decide(cfg, params, find) ==
            if StateOf(params) == Str("exists") then Answer(target != None)
            else if StateOf(params) == Str("absent") then
              if target == None then Quiet else Do(Remove(target.value), data)
            else if target == None then Do(WriteNew, data)
            else if NeedsUpdate(cfg, data, find.shown) then Do(WriteOver(target.value), data) else Quiet
  {
    OperationIs(cfg, params);
    assert IdIn(ResourceData(cfg, params)) == None by { DataKeepsName(cfg, params); }
  }

  /** What a plain task comes to, in terms of the item it comes upon. */
  lemma DecisionIs(setup: Setup, st: Stored, params: Fields)
    requires WellFormed(setup, st) && Plain(setup.cfg, params)
    ensures var data, target := ResourceData(setup.cfg, params), Target(setup, st, params);
            DecisionOn(setup, st, params) ==
            if StateOf(params) == Str("exists") then Answer(target != None)
            else if StateOf(params) == Str("absent") then
              if target == None then Quiet else Do(Remove(target.value), data)
            else if target == None then Do(WriteNew, data)
            else if NeedsUpdate(setup.cfg, data, Shown(setup.cfg, setup.show, st.items[target.value]))
            then Do(WriteOver(target.value), data) else Quiet
  {
    FindIsTarget(setup, st, params);
    DecideIs(setup.cfg, params, FindFor(setup, st, params));
  }

  ghost function After(setup: Setup, st: Stored, params: Fields): Stored {
    var decision := DecisionOn(setup, st, params);
    if decision.Do? then
      Written(setup.cfg, setup.show, setup.required, setup.patchable, st, decision.write, decision.data).0
    else st
  }

  ghost function AfterAll(setup: Setup, st: Stored, tasks: seq<Fields>): Stored {
    if tasks == [] then st
    else After(setup, AfterAll(setup, st, tasks[..|tasks| - 1]), tasks[|tasks| - 1])
  }

  function BodyOf(setup: Setup, params: Fields): Fields {
    Body(setup.cfg, ResourceData(setup.cfg, params))
  }

  function Updated(setup: Setup, item: Fields, params: Fields): Fields {
    var cfg := setup.cfg;
    Patched(item, UpdateBody(cfg, ResourceData(cfg, params), Shown(cfg, setup.show, item)), setup.patchable)
  }

  predicate Outdated(setup: Setup, item: Fields, params: Fields) {
    NeedsUpdate(setup.cfg, ResourceData(setup.cfg, params), Shown(setup.cfg, setup.show, item))
  }

  /** The store after a plain task, spelled out. */
  lemma AfterIs(setup: Setup, st: Stored, params: Fields)
    requires WellFormed(setup, st) && Plain(setup.cfg, params)
    ensures var target := Target(setup, st, params);
            After(setup, st, params) ==
            if StateOf(params) == Str("absent") && target != None then Dropped(st, target.value)
            else if StateOf(params) == Str("present") then
              if target == None then
                if Accepts(setup.required, BodyOf(setup, params)) then Created(st, BodyOf(setup, params)) else st
              else if Outdated(setup, st.items[target.value], params)
              then Placed(st, target.value, Updated(setup, st.items[target.value], params)) else st
            else st
  {
    DecisionIs(setup, st, params);
  }

  lemma PatchSparesId(item: Fields, payload: Fields, allowed: Option<set<string>>)
    ensures Patched(item, payload, allowed) - {"id"} == Patched(item - {"id"}, payload, allowed)
    ensures Get(Patched(item, payload, allowed), "id") == Get(item, "id")
  {
  }

  lemma NewItemIs(cfg: Config, id: int, params: Fields)
    requires Sensible(cfg) && Plain(cfg, params)
    ensures var body := Body(cfg, ResourceData(cfg, params));
            && NewItem(id, body) - {"id"} == body && Get(NewItem(id, body), "id") == Int(id)
            && NameIn(cfg, NewItem(id, body)) == Name(cfg, params)
  {
    DataKeepsName(cfg, params);
    var body := Body(cfg, ResourceData(cfg, params));
    assert NonNull(body) == body;
  }

  lemma CreatedWellFormed(setup: Setup, st: Stored, payload: Fields)
    requires WellFormed(setup, st) && Get(NewItem(st.nextId, payload), "id") == Int(st.nextId)
    ensures WellFormed(setup, Created(st, payload))
  {
    PlacedInOrder(st, st.nextId, NewItem(st.nextId, payload));
  }

  lemma PlacedWellFormed(setup: Setup, st: Stored, id: int, item: Fields)
    requires WellFormed(setup, st) && id in st.items && Get(item, "id") == Int(id)
    ensures WellFormed(setup, Placed(st, id, item))
  {
    PlacedInOrder(st, id, item);
  }

  lemma DroppedWellFormed(setup: Setup, st: Stored, id: int)
    requires WellFormed(setup, st)
    ensures WellFormed(setup, Dropped(st, id))
  {
    DroppedInOrder(st, id);
  }

  /** Tasks of any kind keep the store well-formed. */
  lemma StaysWellFormed(setup: Setup, st: Stored, params: Fields)
    requires WellFormed(setup, st) && Plain(setup.cfg, params)
    ensures WellFormed(setup, After(setup, st, params))
  {
    AfterIs(setup, st, params);
    match Target(setup, st, params) {
      case None =>
        NewItemIs(setup.cfg, st.nextId, params);
        CreatedWellFormed(setup, st, BodyOf(setup, params));
      case Some(id) =>
        var item := st.items[id];
        PatchSparesId(item, UpdateBody(setup.cfg, ResourceData(setup.cfg, params), Shown(setup.cfg, setup.show, item)),
                      setup.patchable);
        PlacedWellFormed(setup, st, id, Updated(setup, item, params));
        DroppedWellFormed(setup, st, id);
    }
  }

  /** The first of a name is one of those that have it. */
  lemma FirstHolderHolds(cfg: Config, st: Stored, name: string)
    requires InOrder(st)
    ensures FirstHolder(cfg, st, name) == None <==> Holders(cfg, st.items, name) == {}
    ensures FirstHolder(cfg, st, name) != None ==> FirstHolder(cfg, st, name).value in Holders(cfg, st.items, name)
  {
    var query := Query(map[cfg.lookup := name], None, None);
    var ids := Select(st.items, st.order, query, cfg.str);
    SelectionIsExact(st.items, st.order, query, cfg.str);
    assert forall id: int :: id in ids <==> id in Holders(cfg, st.items, name);
    if ids != [] {
      assert ids[0] in ids;
    } else {
      forall id: int ensures id !in Holders(cfg, st.items, name) {
        assert id !in ids;
      }
    }
  }

  // ---------------------------------------------------------------- when names stay unique

  /** An update may give the item the name that the task declares. */
  predicate Renames(setup: Setup) {
    setup.patchable == None || setup.cfg.lookup in setup.patchable.value
  }

  lemma UpdatedName(setup: Setup, item: Fields, params: Fields)
    requires Sensible(setup.cfg) && Plain(setup.cfg, params)
    ensures NameIn(setup.cfg, Updated(setup, item, params)) ==
            if Renames(setup) then Name(setup.cfg, params) else NameIn(setup.cfg, item)
    ensures Get(Updated(setup, item, params), "id") == Get(item, "id")
  {
    DataKeepsName(setup.cfg, params);
    PatchSparesId(item, UpdateBody(setup.cfg, ResourceData(setup.cfg, params), Shown(setup.cfg, setup.show, item)),
                  setup.patchable);
  }

  /**
   What keeps names unique: a create must find its name free or be refused, and an update that
   gives its item the declared name must find no other item with it.
   */
  predicate SparesNames(setup: Setup, st: Stored, params: Fields)
    requires Plain(setup.cfg, params)
  {
    var name := Name(setup.cfg, params);
    StateOf(params) == Str("present") ==>
      match Target(setup, st, params)
      case None => Holders(setup.cfg, st.items, name) == {} || !Accepts(setup.required, BodyOf(setup, params))
      case Some(id) =>
        !Outdated(setup, st.items[id], params) || !Renames(setup) || Holders(setup.cfg, st.items, name) <= {id}
  }

  lemma UniqueIffUnheld(cfg: Config, items: Table, id: int, item: Fields)
    requires Unique(cfg, items)
    ensures Unique(cfg, items[id := item]) <==> Holders(cfg, items, NameIn(cfg, item)) <= {id}
  {
    var after, name := items[id := item], NameIn(cfg, item);
    if Holders(cfg, items, name) <= {id} {
      assert forall n | n in items && NameIn(cfg, items[n]) == name :: n in Holders(cfg, items, name);
    } else {
      var other := Pick(Holders(cfg, items, name) - {id});
      assert other in after && id in after && NameIn(cfg, after[other]) == NameIn(cfg, after[id]);
    }
  }

  /** A step keeps names unique exactly under that condition. */
  lemma UniqueAfterIff(setup: Setup, st: Stored, params: Fields)
    requires Sound(setup, st) && Plain(setup.cfg, params)
    ensures Unique(setup.cfg, After(setup, st, params).items) <==> SparesNames(setup, st, params)
  {
    AfterIs(setup, st, params);
    match Target(setup, st, params) {
      case None =>
        var item := NewItem(st.nextId, BodyOf(setup, params));
        NewItemIs(setup.cfg, st.nextId, params);
        UniqueIffUnheld(setup.cfg, st.items, st.nextId, item);
        assert st.nextId !in Holders(setup.cfg, st.items, Name(setup.cfg, params));
      case Some(id) =>
        var item := Updated(setup, st.items[id], params);
        UpdatedName(setup, st.items[id], params);
        UniqueIffUnheld(setup.cfg, st.items, id, item);
        if !Renames(setup) {
          forall other | other in Holders(setup.cfg, st.items, NameIn(setup.cfg, item)) ensures other == id {
            assert NameIn(setup.cfg, st.items[other]) == NameIn(setup.cfg, st.items[id]);
          }
        }
    }
  }

  lemma HoldersAlone(setup: Setup, st: Stored, name: string, id: int)
    requires Sound(setup, st) && id in Holders(setup.cfg, st.items, name)
    ensures Holders(setup.cfg, st.items, name) == {id}
  {
    forall other: int ensures other in Holders(setup.cfg, st.items, name) <==> other in {id} {
      if other in Holders(setup.cfg, st.items, name) {
        assert NameIn(setup.cfg, st.items[other]) == NameIn(setup.cfg, st.items[id]);
      }
    }
  }

  /** A name that is no numeral always meets the condition. */
  lemma WordsSpareNames(setup: Setup, st: Stored, params: Fields)
    requires Sound(setup, st) && Plain(setup.cfg, params) && Numeral(Name(setup.cfg, params)) == None
    ensures SparesNames(setup, st, params)
  {
    var name := Name(setup.cfg, params);
    FirstHolderHolds(setup.cfg, st, name);
    if Target(setup, st, params) != None {
      HoldersAlone(setup, st, name, Target(setup, st, params).value);
    }
  }

  /** After each of the tasks names are unique. */
  ghost predicate UniqueThroughout(setup: Setup, st: Stored, tasks: seq<Fields>) {
    Unique(setup.cfg, AfterAll(setup, st, tasks).items) &&
    (tasks != [] ==> UniqueThroughout(setup, st, tasks[..|tasks| - 1]))
  }

  /** Each of the tasks meets the condition in its turn. */
  ghost predicate AllSpareNames(setup: Setup, st: Stored, tasks: seq<Fields>)
    requires forall i | 0 <= i < |tasks| :: Plain(setup.cfg, tasks[i])
  {
    tasks == [] ||
    var n := |tasks| - 1;
    AllSpareNames(setup, st, tasks[..n]) && SparesNames(setup, AfterAll(setup, st, tasks[..n]), tasks[n])
  }

  /** Over a whole run, names are unique throughout exactly when every task meets the condition in its turn. */
  lemma {:induction false} UniqueThroughoutIff(setup: Setup, st: Stored, tasks: seq<Fields>)
    requires Sound(setup, st) && forall i | 0 <= i < |tasks| :: Plain(setup.cfg, tasks[i])
    ensures WellFormed(setup, AfterAll(setup, st, tasks))
    ensures UniqueThroughout(setup, st, tasks) <==> AllSpareNames(setup, st, tasks)
  {
    if tasks != [] {
      var n := |tasks| - 1;
      var before := AfterAll(setup, st, tasks[..n]);
      UniqueThroughoutIff(setup, st, tasks[..n]);
      StaysWellFormed(setup, before, tasks[n]);
      if UniqueThroughout(setup, st, tasks[..n]) {
        UniqueAfterIff(setup, before, tasks[n]);
      }
    }
  }

  /**
   A name of digits is created again by a second run: two present tasks leave two items of the
   name exactly when the first new id was not the number itself.
   */
  lemma TwiceIsTwo(setup: Setup, st: Stored, params: Fields)
    requires Sound(setup, st) && Plain(setup.cfg, params) && StateOf(params) == Str("present")
    requires Numeral(Name(setup.cfg, params)) != None && Target(setup, st, params) == None
    requires Holders(setup.cfg, st.items, Name(setup.cfg, params)) == {}
    requires Accepts(setup.required, BodyOf(setup, params))
    ensures Unique(setup.cfg, After(setup, After(setup, st, params), params).items) <==>
            Numeral(Name(setup.cfg, params)) == Some(st.nextId)
  {
    var name, once := Name(setup.cfg, params), After(setup, st, params);
    UniqueAfterIff(setup, st, params);
    StaysWellFormed(setup, st, params);
    UniqueAfterIff(setup, once, params);
    AfterIs(setup, st, params);
    NewItemIs(setup.cfg, st.nextId, params);
    assert once.items[st.nextId] == NewItem(st.nextId, BodyOf(setup, params));
    assert st.nextId in Holders(setup.cfg, once.items, name);
    HoldersAlone(setup, once, name, st.nextId);
  }

  // ---------------------------------------------------------------- what a task does to other names

  /** What is stored under a name, apart from the id. */
  ghost function Content(cfg: Config, items: Table, name: string): Option<Fields> {
    if Holders(cfg, items, name) == {} then None
    else
      Some(items[Pick(Holders(cfg, items, name))] - {"id"})
  }

  lemma ContentIs(setup: Setup, st: Stored, name: string, id: int)
    requires Sound(setup, st) && id in Holders(setup.cfg, st.items, name)
    ensures Content(setup.cfg, st.items, name) == Some(st.items[id] - {"id"})
  {
    HoldersAlone(setup, st, name, id);
  }

  lemma SameContent(cfg: Config, before: Table, after: Table, name: string)
    requires forall id: int :: (id in before && NameIn(cfg, before[id]) == name) <==>
                               (id in after && NameIn(cfg, after[id]) == name)
    requires forall id: int | id in before && NameIn(cfg, before[id]) == name :: id in after && before[id] == after[id]
    ensures Content(cfg, before, name) == Content(cfg, after, name)
  {
    var a, b := Holders(cfg, before, name), Holders(cfg, after, name);
    assert forall id: int :: id in a <==> id in b;
    assert a == b;
    if a != {} {
      var id := Pick(a);
      assert id in a && before[id] == after[id];
    }
  }

  /** The task comes upon an item of another name and deletes or changes it. */
  predicate TouchesAnother(setup: Setup, st: Stored, params: Fields)
    requires Plain(setup.cfg, params)
  {
    match Target(setup, st, params)
    case None => false
    case Some(id) =>
      && NameIn(setup.cfg, st.items[id]) != Name(setup.cfg, params)
      && (|| StateOf(params) == Str("absent")
          || (StateOf(params) == Str("present") && Outdated(setup, st.items[id], params) &&
              Updated(setup, st.items[id], params) != st.items[id]))
  }

  lemma PlacedElsewhere(cfg: Config, st: Stored, id: int, item: Fields, other: string)
    requires NameIn(cfg, item) != other && (id in st.items ==> NameIn(cfg, st.items[id]) != other)
    ensures Content(cfg, st.items, other) == Content(cfg, Placed(st, id, item).items, other)
  {
    SameContent(cfg, st.items, Placed(st, id, item).items, other);
  }

  lemma DroppedElsewhere(cfg: Config, st: Stored, id: int, other: string)
    requires id in st.items ==> NameIn(cfg, st.items[id]) != other
    ensures Content(cfg, st.items, other) == Content(cfg, Dropped(st, id).items, other)
  {
    SameContent(cfg, st.items, Dropped(st, id).items, other);
  }

  /** A task that comes upon an item of its own name. */
  lemma OwnItemOnly(setup: Setup, st: Stored, params: Fields, id: int, other: string)
    requires WellFormed(setup, st) && Plain(setup.cfg, params) && Target(setup, st, params) == Some(id)
    requires NameIn(setup.cfg, st.items[id]) == Name(setup.cfg, params) && other != Name(setup.cfg, params)
    ensures Content(setup.cfg, st.items, other) == Content(setup.cfg, After(setup, st, params).items, other)
  {
    AfterIs(setup, st, params);
    UpdatedName(setup, st.items[id], params);
    PlacedElsewhere(setup.cfg, st, id, Updated(setup, st.items[id], params), other);
    DroppedElsewhere(setup.cfg, st, id, other);
  }

  /** A task that comes upon an item of another name and leaves it as it is. */
  lemma OtherItemKept(setup: Setup, st: Stored, params: Fields, id: int)
    requires WellFormed(setup, st) && Plain(setup.cfg, params) && Target(setup, st, params) == Some(id)
    requires NameIn(setup.cfg, st.items[id]) != Name(setup.cfg, params) && !TouchesAnother(setup, st, params)
    ensures After(setup, st, params) == st
  {
    AfterIs(setup, st, params);
    assert st.items[id := st.items[id]] == st.items;
  }

  lemma UntouchedContent(setup: Setup, st: Stored, params: Fields, other: string)
    requires WellFormed(setup, st) && Plain(setup.cfg, params) && !TouchesAnother(setup, st, params)
    requires other != Name(setup.cfg, params)
    ensures Content(setup.cfg, st.items, other) == Content(setup.cfg, After(setup, st, params).items, other)
  {
    match Target(setup, st, params) {
      case None =>
        AfterIs(setup, st, params);
        NewItemIs(setup.cfg, st.nextId, params);
        PlacedElsewhere(setup.cfg, st, st.nextId, NewItem(st.nextId, BodyOf(setup, params)), other);
      case Some(id) =>
        if NameIn(setup.cfg, st.items[id]) == Name(setup.cfg, params) {
          OwnItemOnly(setup, st, params, id, other);
        } else {
          OtherItemKept(setup, st, params, id);
        }
    }
  }

  lemma SameButForId(a: Fields, b: Fields)
    requires "id" in a && "id" in b && a["id"] == b["id"] && a - {"id"} == b - {"id"}
    ensures a == b
  {
    assert a.Keys == (a - {"id"}).Keys + {"id"} && b.Keys == (b - {"id"}).Keys + {"id"};
    forall k | k in a && k != "id" ensures a[k] == b[k] {
      assert (a - {"id"})[k] == (b - {"id"})[k];
    }
  }

  lemma TouchedContent(setup: Setup, st: Stored, params: Fields)
    requires Sound(setup, st) && Plain(setup.cfg, params) && TouchesAnother(setup, st, params)
    ensures var other := NameIn(setup.cfg, st.items[Target(setup, st, params).value]);
            && other != Name(setup.cfg, params)
            && Content(setup.cfg, st.items, other) != Content(setup.cfg, After(setup, st, params).items, other)
  {
    var cfg, id, after := setup.cfg, Target(setup, st, params).value, After(setup, st, params);
    var item, other := st.items[id], NameIn(setup.cfg, st.items[id]);
    AfterIs(setup, st, params);
    HoldersAlone(setup, st, other, id);
    ContentIs(setup, st, other, id);
    assert forall n: int | n in Holders(cfg, st.items, other) :: n == id;
    if Holders(cfg, after.items, other) != {} {
      var n := Pick(Holders(cfg, after.items, other));
      assert n == id || n in Holders(cfg, st.items, other);
      assert after.items[id] == Updated(setup, item, params);
      UpdatedName(setup, item, params);
      assert Get(item, "id") == Int(id);
      if item - {"id"} == after.items[id] - {"id"} {
        SameButForId(item, after.items[id]);
      }
    }
  }

  /** A task leaves every other name as it was exactly when it does not come upon an item of another name. */
  lemma OthersKeptIff(setup: Setup, st: Stored, params: Fields)
    requires Sound(setup, st) && Plain(setup.cfg, params)
    ensures (forall other | other != Name(setup.cfg, params) ::
               Content(setup.cfg, st.items, other) == Content(setup.cfg, After(setup, st, params).items, other))
            <==> !TouchesAnother(setup, st, params)
  {
    if TouchesAnother(setup, st, params) {
      TouchedContent(setup, st, params);
    } else {
      forall other | other != Name(setup.cfg, params)
        ensures Content(setup.cfg, st.items, other) == Content(setup.cfg, After(setup, st, params).items, other)
      {
        UntouchedContent(setup, st, params, other);
      }
    }
  }

  /** Only a name of digits can come upon an item of another name. */
  lemma WordsKeepToThemselves(setup: Setup, st: Stored, params: Fields)
    requires WellFormed(setup, st) && Plain(setup.cfg, params) && Numeral(Name(setup.cfg, params)) == None
    ensures !TouchesAnother(setup, st, params)
  {
    FirstHolderHolds(setup.cfg, st, Name(setup.cfg, params));
  }

  /** An absent task leaves nothing under its name exactly when nobody but the item it comes upon has it. */
  lemma AbsentFreesNameIff(setup: Setup, st: Stored, params: Fields)
    requires Sound(setup, st) && Plain(setup.cfg, params) && StateOf(params) == Str("absent")
    ensures var target := Target(setup, st, params);
            Holders(setup.cfg, After(setup, st, params).items, Name(setup.cfg, params)) == {} <==>
            Holders(setup.cfg, st.items, Name(setup.cfg, params)) <= if target == None then {} else {target.value}
  {
    var held, left := Holders(setup.cfg, st.items, Name(setup.cfg, params)),
                      Holders(setup.cfg, After(setup, st, params).items, Name(setup.cfg, params));
    var target := Target(setup, st, params);
    AfterIs(setup, st, params);
    assert forall id: int :: id in left <==> id in held && Some(id) != target;
    if left != {} {
      assert Pick(left) in left;
    }
  }

  // ---------------------------------------------------------------- one name at a time

  /**
   Asking by number comes to the same as asking by name: the item of the number, if there is
   one, has the name, and nothing else does.
   */
  predicate Agrees(setup: Setup, st: Stored, params: Fields)
    requires Plain(setup.cfg, params)
  {
    match Numeral(Name(setup.cfg, params))
    case None => true
    case Some(n) => Holders(setup.cfg, st.items, Name(setup.cfg, params)) == if n in st.items then {n} else {}
  }

  lemma TargetIsHolder(setup: Setup, st: Stored, params: Fields)
    requires Sound(setup, st) && Plain(setup.cfg, params) && Agrees(setup, st, params)
    ensures Holders(setup.cfg, st.items, Name(setup.cfg, params)) ==
            if Target(setup, st, params) == None then {} else {Target(setup, st, params).value}
  {
    var name := Name(setup.cfg, params);
    if Numeral(name) == None {
      FirstHolderHolds(setup.cfg, st, name);
      if Target(setup, st, params) != None {
        HoldersAlone(setup, st, name, Target(setup, st, params).value);
      }
    }
  }

  /** What one task makes of the content of its own name. */
  function Step(setup: Setup, content: Option<Fields>, params: Fields): Option<Fields> {
    var cfg, data := setup.cfg, ResourceData(setup.cfg, params);
    if StateOf(params) == Str("exists") then content
    else if StateOf(params) == Str("absent") then None
    else match content
      case None => if Accepts(setup.required, Body(cfg, data)) then Some(Body(cfg, data)) else None
      case Some(item) =>
        var shown := Shown(cfg, setup.show, item);
        if NeedsUpdate(cfg, data, shown) then Some(Patched(item, UpdateBody(cfg, data, shown), setup.patchable))
        else content
  }

  /** The content of a name after the tasks on that name alone, the others passed over. */
  function Replay(setup: Setup, content: Option<Fields>, tasks: seq<Fields>, name: string): Option<Fields>
    requires forall i | 0 <= i < |tasks| :: Plain(setup.cfg, tasks[i])
  {
    if tasks == [] then content
    else
      var n := |tasks| - 1;
      var before := Replay(setup, content, tasks[..n], name);
      if Name(setup.cfg, tasks[n]) == name then Step(setup, before, tasks[n]) else before
  }

  lemma AlikeBesidesId(cfg: Config, data: Fields, a: Fields, b: Fields)
    requires Sensible(cfg) && a.Keys == b.Keys && forall k | k in a && k != "id" :: a[k] == b[k]
    ensures NeedsUpdate(cfg, data, a) == NeedsUpdate(cfg, data, b)
    ensures UpdateBody(cfg, data, a) == UpdateBody(cfg, data, b)
  {
    assert Body(cfg, a) == Body(cfg, b);
    forall key | key in data
      ensures IsCompared(cfg, data, a, key) && !Passes(cfg, key, data[key], a[key]) <==>
              IsCompared(cfg, data, b, key) && !Passes(cfg, key, data[key], b[key])
    {
    }
  }

  /** The id plays no part in the comparison nor in what an update writes. */
  lemma IdPlaysNoPart(setup: Setup, data: Fields, item: Fields)
    requires Sensible(setup.cfg)
    ensures var cfg, rest := setup.cfg, item - {"id"};
            var shown, shownRest := Shown(cfg, setup.show, item), Shown(cfg, setup.show, rest);
            && NeedsUpdate(cfg, data, shown) == NeedsUpdate(cfg, data, shownRest)
            && UpdateBody(cfg, data, shown) == UpdateBody(cfg, data, shownRest)
            && Patched(item, UpdateBody(cfg, data, shown), setup.patchable) - {"id"}
               == Patched(rest, UpdateBody(cfg, data, shown), setup.patchable)
  {
    var cfg, rest := setup.cfg, item - {"id"};
    var shown, shownRest := Shown(cfg, setup.show, item), Shown(cfg, setup.show, rest);
    assert forall k | k in cfg.model && k != "id" :: shown[k] == shownRest[k];
    AlikeBesidesId(cfg, data, shown, shownRest);
    PatchSparesId(item, UpdateBody(cfg, data, shown), setup.patchable);
  }

  lemma AgreeingSparesNames(setup: Setup, st: Stored, params: Fields)
    requires Sound(setup, st) && Plain(setup.cfg, params) && Agrees(setup, st, params)
    ensures SparesNames(setup, st, params) && !TouchesAnother(setup, st, params)
    ensures Sound(setup, After(setup, st, params))
  {
    TargetIsHolder(setup, st, params);
    var target := Target(setup, st, params);
    if target != None {
      assert target.value in Holders(setup.cfg, st.items, Name(setup.cfg, params));
    }
    UniqueAfterIff(setup, st, params);
    StaysWellFormed(setup, st, params);
  }

  lemma OwnContentWhenFree(setup: Setup, st: Stored, params: Fields)
    requires Sound(setup, st) && Plain(setup.cfg, params) && Agrees(setup, st, params)
    requires Target(setup, st, params) == None
    ensures var name := Name(setup.cfg, params);
            Content(setup.cfg, After(setup, st, params).items, name) ==
            Step(setup, Content(setup.cfg, st.items, name), params)
  {
    var name, after := Name(setup.cfg, params), After(setup, st, params);
    AfterIs(setup, st, params);
    TargetIsHolder(setup, st, params);
    AgreeingSparesNames(setup, st, params);
    NewItemIs(setup.cfg, st.nextId, params);
    if after != st {
      assert after.items[st.nextId] == NewItem(st.nextId, BodyOf(setup, params));
      ContentIs(setup, after, name, st.nextId);
    }
  }

  lemma OwnContentWhenHeld(setup: Setup, st: Stored, params: Fields, id: int)
    requires Sound(setup, st) && Plain(setup.cfg, params) && Agrees(setup, st, params)
    requires Target(setup, st, params) == Some(id)
    ensures var name := Name(setup.cfg, params);
            Content(setup.cfg, After(setup, st, params).items, name) ==
            Step(setup, Content(setup.cfg, st.items, name), params)
  {
    var name, after, item := Name(setup.cfg, params), After(setup, st, params), st.items[id];
    AfterIs(setup, st, params);
    TargetIsHolder(setup, st, params);
    AgreeingSparesNames(setup, st, params);
    assert id in Holders(setup.cfg, st.items, name);
    ContentIs(setup, st, name, id);
    IdPlaysNoPart(setup, ResourceData(setup.cfg, params), item);
    if StateOf(params) == Str("absent") {
      assert forall n: int :: n in Holders(setup.cfg, after.items, name) ==> n in Holders(setup.cfg, st.items, name);
      assert Holders(setup.cfg, after.items, name) == {};
    } else if after != st {
      UpdatedName(setup, item, params);
      assert id in Holders(setup.cfg, after.items, name);
      ContentIs(setup, after, name, id);
    }
  }

  /** The content of `other` in `after`: changed if it is the name acted on, else as it was. */
  ghost predicate Turns(setup: Setup, st: Stored, after: Stored, name: string, content: Option<Fields>, other: string) {
    && Sound(setup, after)
    && Content(setup.cfg, after.items, other) ==
       if other == name then content else Content(setup.cfg, st.items, other)
  }

  lemma AgreeingActsByName(setup: Setup, st: Stored, params: Fields, other: string)
    requires Sound(setup, st) && Plain(setup.cfg, params) && Agrees(setup, st, params)
    ensures var name := Name(setup.cfg, params);
            Turns(setup, st, After(setup, st, params), name,
                  Step(setup, Content(setup.cfg, st.items, name), params), other)
  {
    AgreeingSparesNames(setup, st, params);
    if other != Name(setup.cfg, params) {
      UntouchedContent(setup, st, params, other);
    } else if Target(setup, st, params) == None {
      OwnContentWhenFree(setup, st, params);
    } else {
      OwnContentWhenHeld(setup, st, params, Target(setup, st, params).value);
    }
  }

  /** The task deletes nothing, creates nothing, and changes nothing in the item it comes upon. */
  predicate LeavesAlone(setup: Setup, st: Stored, params: Fields)
    requires Plain(setup.cfg, params)
  {
    var target := Target(setup, st, params);
    && (StateOf(params) == Str("absent") ==> target == None)
    && (StateOf(params) == Str("present") ==>
          if target == None then !Accepts(setup.required, BodyOf(setup, params))
          else !Outdated(setup, st.items[target.value], params) ||
               Updated(setup, st.items[target.value], params) == st.items[target.value])
  }

  lemma LeftAlone(setup: Setup, st: Stored, params: Fields)
    requires WellFormed(setup, st) && Plain(setup.cfg, params) && LeavesAlone(setup, st, params)
    ensures After(setup, st, params) == st
  {
    AfterIs(setup, st, params);
    if Target(setup, st, params) != None {
      var id := Target(setup, st, params).value;
      assert st.items[id := st.items[id]] == st.items;
    }
  }

  /** Asking by number comes to the same as asking by name, or neither would change anything. */
  ghost predicate ActsByName(setup: Setup, st: Stored, params: Fields)
    requires Plain(setup.cfg, params)
  {
    var content := Content(setup.cfg, st.items, Name(setup.cfg, params));
    Agrees(setup, st, params) || (LeavesAlone(setup, st, params) && Step(setup, content, params) == content)
  }

  /** One task changes the content of its own name as `Step` says and of no other name. */
  lemma TaskActsOnItsName(setup: Setup, st: Stored, params: Fields, other: string)
    requires Sound(setup, st) && Plain(setup.cfg, params) && ActsByName(setup, st, params)
    ensures var name := Name(setup.cfg, params);
            Turns(setup, st, After(setup, st, params), name,
                  Step(setup, Content(setup.cfg, st.items, name), params), other)
  {
    if Agrees(setup, st, params) {
      AgreeingActsByName(setup, st, params, other);
    } else {
      LeftAlone(setup, st, params);
    }
  }

  /** Asking by number where that is not the same goes wrong under some name. */
  lemma ActsOtherwise(setup: Setup, st: Stored, params: Fields) returns (other: string)
    requires Sound(setup, st) && Plain(setup.cfg, params) && !ActsByName(setup, st, params)
    ensures var name := Name(setup.cfg, params);
            !Turns(setup, st, After(setup, st, params), name,
                   Step(setup, Content(setup.cfg, st.items, name), params), other)
  {
    other := Name(setup.cfg, params);
    if LeavesAlone(setup, st, params) {
      LeftAlone(setup, st, params);
    } else if Target(setup, st, params) == None {
      UniqueAfterIff(setup, st, params);
    } else {
      var id := Target(setup, st, params).value;
      if NameIn(setup.cfg, st.items[id]) == other {
        HoldersAlone(setup, st, other, id);
      }
      other := NameIn(setup.cfg, st.items[id]);
      TouchedContent(setup, st, params);
    }
  }

  /** A task acts on its own name, as `Step` says, and on no other exactly under that condition. */
  lemma ActsOnItsNameIff(setup: Setup, st: Stored, params: Fields)
    requires Sound(setup, st) && Plain(setup.cfg, params)
    ensures (forall other :: Turns(setup, st, After(setup, st, params), Name(setup.cfg, params),
                                   Step(setup, Content(setup.cfg, st.items, Name(setup.cfg, params)), params), other))
            <==> ActsByName(setup, st, params)
  {
    if ActsByName(setup, st, params) {
      forall other: string
        ensures Turns(setup, st, After(setup, st, params), Name(setup.cfg, params),
                      Step(setup, Content(setup.cfg, st.items, Name(setup.cfg, params)), params), other)
      {
        TaskActsOnItsName(setup, st, params, other);
      }
    } else {
      var other := ActsOtherwise(setup, st, params);
    }
  }

  /** Each of the tasks meets that condition in its turn. */
  ghost predicate AllActByName(setup: Setup, st: Stored, tasks: seq<Fields>)
    requires forall i | 0 <= i < |tasks| :: Plain(setup.cfg, tasks[i])
  {
    tasks == [] ||
    var n := |tasks| - 1;
    AllActByName(setup, st, tasks[..n]) && ActsByName(setup, AfterAll(setup, st, tasks[..n]), tasks[n])
  }

  /**
   Over any sequence of tasks names stay unique, and what a name ends up holding depends only
   on the tasks on that name, in their order. A name of digits must in its turn be the name of
   the item of that number, or both be free, unless nothing is changed either way; any other
   name meets the condition by itself.
   */
  lemma {:induction false} NamesAreIndependent(setup: Setup, st: Stored, tasks: seq<Fields>, name: string)
    requires Sound(setup, st) && forall i | 0 <= i < |tasks| :: Plain(setup.cfg, tasks[i])
    requires AllActByName(setup, st, tasks)
    ensures Sound(setup, AfterAll(setup, st, tasks))
    ensures Content(setup.cfg, AfterAll(setup, st, tasks).items, name) ==
            Replay(setup, Content(setup.cfg, st.items, name), tasks, name)
  {
    if tasks != [] {
      var n := |tasks| - 1;
      NamesAreIndependent(setup, st, tasks[..n], name);
      TaskActsOnItsName(setup, AfterAll(setup, st, tasks[..n]), tasks[n], name);
    }
  }

  /** After the tasks names are unique and every name holds what the tasks on it alone have made of it. */
  ghost predicate Separate(setup: Setup, st: Stored, tasks: seq<Fields>)
    requires forall i | 0 <= i < |tasks| :: Plain(setup.cfg, tasks[i])
  {
    && Sound(setup, AfterAll(setup, st, tasks))
    && forall name :: Content(setup.cfg, AfterAll(setup, st, tasks).items, name) ==
                      Replay(setup, Content(setup.cfg, st.items, name), tasks, name)
  }

  /** So it is after each of them. */
  ghost predicate SeparateThroughout(setup: Setup, st: Stored, tasks: seq<Fields>)
    requires forall i | 0 <= i < |tasks| :: Plain(setup.cfg, tasks[i])
  {
    Separate(setup, st, tasks) && (tasks != [] ==> SeparateThroughout(setup, st, tasks[..|tasks| - 1]))
  }

  lemma SeparateStep(setup: Setup, st: Stored, tasks: seq<Fields>, before: Stored)
    requires tasks != [] && forall i | 0 <= i < |tasks| :: Plain(setup.cfg, tasks[i])
    requires Separate(setup, st, tasks[..|tasks| - 1]) && before == AfterAll(setup, st, tasks[..|tasks| - 1])
    ensures var params := tasks[|tasks| - 1];
            Separate(setup, st, tasks) <==>
            forall other :: Turns(setup, before, After(setup, before, params), Name(setup.cfg, params),
                                  Step(setup, Content(setup.cfg, before.items, Name(setup.cfg, params)), params), other)
  {
    var params := tasks[|tasks| - 1];
    var after := After(setup, before, params);
    var content := Step(setup, Content(setup.cfg, before.items, Name(setup.cfg, params)), params);
    if Separate(setup, st, tasks) {
      forall other: string ensures Turns(setup, before, after, Name(setup.cfg, params), content, other) {
        SeparateAt(setup, st, tasks, before, other);
      }
    }
    if forall other :: Turns(setup, before, after, Name(setup.cfg, params), content, other) {
      assert Turns(setup, before, after, Name(setup.cfg, params), content, "");
      forall name: string
        ensures Content(setup.cfg, AfterAll(setup, st, tasks).items, name) ==
                Replay(setup, Content(setup.cfg, st.items, name), tasks, name)
      {
        assert Turns(setup, before, after, Name(setup.cfg, params), content, name);
        SeparateAt(setup, st, tasks, before, name);
      }
    }
  }

  lemma SeparateAt(setup: Setup, st: Stored, tasks: seq<Fields>, before: Stored, name: string)
    requires tasks != [] && forall i | 0 <= i < |tasks| :: Plain(setup.cfg, tasks[i])
    requires before == AfterAll(setup, st, tasks[..|tasks| - 1])
    requires Content(setup.cfg, before.items, name) ==
             Replay(setup, Content(setup.cfg, st.items, name), tasks[..|tasks| - 1], name)
    ensures var params := tasks[|tasks| - 1];
            var content := Content(setup.cfg, before.items, name);
            && AfterAll(setup, st, tasks) == After(setup, before, params)
            && Replay(setup, Content(setup.cfg, st.items, name), tasks, name) ==
               if name == Name(setup.cfg, params) then Step(setup, content, params) else content
  {
  }

  /** Over a whole run names stay separate throughout exactly when every task meets the condition in its turn. */
  lemma {:induction false} SeparateThroughoutIff(setup: Setup, st: Stored, tasks: seq<Fields>)
    requires Sound(setup, st) && forall i | 0 <= i < |tasks| :: Plain(setup.cfg, tasks[i])
    ensures SeparateThroughout(setup, st, tasks) <==> AllActByName(setup, st, tasks)
  {
    if tasks != [] {
      var n := |tasks| - 1;
      var before := AfterAll(setup, st, tasks[..n]);
      SeparateThroughoutIff(setup, st, tasks[..n]);
      if SeparateThroughout(setup, st, tasks[..n]) {
        SeparateStep(setup, st, tasks, before);
        ActsOnItsNameIff(setup, before, tasks[n]);
      }
    }
  }

  /** Tasks on different names commute: every name holds the same in either order. */
  lemma TasksCommute(setup: Setup, st: Stored, p: Fields, q: Fields, name: string)
    requires Sound(setup, st) && Plain(setup.cfg, p) && Plain(setup.cfg, q)
    requires Name(setup.cfg, p) != Name(setup.cfg, q)
    requires ActsByName(setup, st, p) && ActsByName(setup, After(setup, st, p), q)
    requires ActsByName(setup, st, q) && ActsByName(setup, After(setup, st, q), p)
    ensures Content(setup.cfg, After(setup, After(setup, st, p), q).items, name) ==
            Content(setup.cfg, After(setup, After(setup, st, q), p).items, name)
  {
    TaskActsOnItsName(setup, st, p, name);
    TaskActsOnItsName(setup, After(setup, st, p), q, name);
    TaskActsOnItsName(setup, st, q, name);
    TaskActsOnItsName(setup, After(setup, st, q), p, name);
  }

  // ---------------------------------------------------------------- the plugin runs these tasks

  ghost function SetupOf(manager: Manager): Setup {
    Setup(manager.cfg, manager.show, manager.resource.required, manager.resource.patchable)
  }

  function StoredBy(manager: Manager): Stored
    reads manager, manager.resource
  {
    manager.resource.Contents()
  }

  /** Running one plain task on a reachable server does what `After` describes. */
  method RunPlain(manager: Manager, params: Fields) returns (result: Result)
    requires manager.Valid() && manager.reachable && Plain(manager.cfg, params)
    modifies manager`calls, manager.resource
    ensures manager.Valid() && WellFormed(SetupOf(manager), StoredBy(manager))
    ensures StoredBy(manager) == After(SetupOf(manager), old(StoredBy(manager)), params)
  {
    result := Run(manager, params, false);
  }

  /** Running the tasks one after another on a reachable server is what `AfterAll` describes. */
  method RunAll(manager: Manager, tasks: seq<Fields>)
    requires manager.Valid() && manager.reachable
    requires forall i | 0 <= i < |tasks| :: Plain(manager.cfg, tasks[i])
    modifies manager`calls, manager.resource
    ensures manager.Valid() && WellFormed(SetupOf(manager), StoredBy(manager))
    ensures StoredBy(manager) == AfterAll(SetupOf(manager), old(StoredBy(manager)), tasks)
  {
    ghost var setup, start := SetupOf(manager), StoredBy(manager);
    for i := 0 to |tasks|
      invariant manager.Valid() && WellFormed(setup, StoredBy(manager))
      invariant StoredBy(manager) == AfterAll(setup, start, tasks[..i])
    {
      var result := RunPlain(manager, tasks[i]);
      assert tasks[..i + 1][..i] == tasks[..i];
    }
    assert tasks[..|tasks|] == tasks;
  }
}
