/** Running the same task again: idempotence, what check mode predicts, and what a failed find costs. */
module ActionRepeats {
  import opened Json
  import opened GatewayStore
  import opened ActionPlugin
  import opened ActionRuns

  // ---------------------------------------------------------------- a present task, twice

  /** The fields a second run compares: those of the model that the task declares. */
  predicate WillCompare(cfg: Config, data: Fields, key: string) {
    && key in data && key in cfg.model && data[key] != Null
    && key !in cfg.auth + DIRECTIVES + READ_ONLY + cfg.writeOnly
  }

  /** Whether a write takes the field over: a create sends it, an update must also be allowed to change it. */
  predicate Takes(setup: Setup, item: Option<Fields>, key: string) {
    key in setup.cfg.api && (item == None || setup.patchable == None || key in setup.patchable.value)
  }

  /** How a declared field will be shown once it was written over the item there was, if any. */
  function ShownNext(setup: Setup, item: Option<Fields>, key: string, value: Value): Value {
    if Takes(setup, item, key) then setup.show(key, value)
    else if item.Some? && key in item.value then setup.show(key, item.value[key])
    else Null
  }

  /** The server will show each declared value in a form that the comparison lets pass. */
  predicate ShowsBack(setup: Setup, data: Fields, item: Option<Fields>) {
    forall key | key in data && WillCompare(setup.cfg, data, key) ::
      Passes(setup.cfg, key, data[key], ShownNext(setup, item, key, data[key]))
  }

  /** An item that holds what was written is shown as foretold, so the comparison comes out as foretold. */
  lemma SentIsShown(setup: Setup, params: Fields, was: Option<Fields>, item: Fields)
    requires Sensible(setup.cfg) && Plain(setup.cfg, params)
    requires var data := ResourceData(setup.cfg, params);
             forall key | key in data && WillCompare(setup.cfg, data, key) ::
               Shown(setup.cfg, setup.show, item)[key] == ShownNext(setup, was, key, data[key])
    ensures Outdated(setup, item, params) <==> !ShowsBack(setup, ResourceData(setup.cfg, params), was)
  {
    var cfg, data := setup.cfg, ResourceData(setup.cfg, params);
    var shown := Shown(cfg, setup.show, item);
    DataKeepsName(cfg, params);
    forall key | key in data ensures IsCompared(cfg, data, shown, key) <==> WillCompare(cfg, data, key) {
    }
  }

  lemma CreatedIsShown(setup: Setup, id: int, params: Fields, key: string)
    requires Sensible(setup.cfg) && Plain(setup.cfg, params)
    requires WillCompare(setup.cfg, ResourceData(setup.cfg, params), key)
    ensures var data := ResourceData(setup.cfg, params);
            Shown(setup.cfg, setup.show, NewItem(id, Body(setup.cfg, data)))[key] ==
            ShownNext(setup, None, key, data[key])
  {
  }

  lemma UpdatedIsShown(setup: Setup, params: Fields, item: Fields, key: string)
    requires Sensible(setup.cfg) && Plain(setup.cfg, params)
    requires WillCompare(setup.cfg, ResourceData(setup.cfg, params), key)
    ensures var data := ResourceData(setup.cfg, params);
            Shown(setup.cfg, setup.show, Updated(setup, item, params))[key] ==
            ShownNext(setup, Some(item), key, data[key])
  {
    DataKeepsName(setup.cfg, params);
  }

  lemma CreatedOutdatedIff(setup: Setup, id: int, params: Fields)
    requires Sensible(setup.cfg) && Plain(setup.cfg, params)
    ensures Outdated(setup, NewItem(id, BodyOf(setup, params)), params) <==>
              !ShowsBack(setup, ResourceData(setup.cfg, params), None)
  {
    var data := ResourceData(setup.cfg, params);
    var item := NewItem(id, BodyOf(setup, params));
    forall key | key in data && WillCompare(setup.cfg, data, key)
      ensures Shown(setup.cfg, setup.show, item)[key] == ShownNext(setup, None, key, data[key])
    {
      CreatedIsShown(setup, id, params, key);
    }
    SentIsShown(setup, params, None, item);
  }

  lemma UpdatedOutdatedIff(setup: Setup, params: Fields, was: Fields)
    requires Sensible(setup.cfg) && Plain(setup.cfg, params)
    ensures Outdated(setup, Updated(setup, was, params), params) <==>
              !ShowsBack(setup, ResourceData(setup.cfg, params), Some(was))
  {
    var data := ResourceData(setup.cfg, params);
    var item := Updated(setup, was, params);
    forall key | key in data && WillCompare(setup.cfg, data, key)
      ensures Shown(setup.cfg, setup.show, item)[key] == ShownNext(setup, Some(was), key, data[key])
    {
      UpdatedIsShown(setup, params, was, key);
    }
    SentIsShown(setup, params, Some(was), item);
  }

  /** The item, if any, that a task comes upon. */
  function ItemOf(setup: Setup, st: Stored, params: Fields): Option<Fields>
    requires Plain(setup.cfg, params)
  {
    var target := Target(setup, st, params);
    if target == None then None else Some(st.items[target.value])
  }

  lemma PlacedKeepsFirst(cfg: Config, st: Stored, id: int, item: Fields, name: string)
    requires InOrder(st) && id in st.items && NameIn(cfg, st.items[id]) == NameIn(cfg, item) == name
    ensures FirstHolder(cfg, Placed(st, id, item), name) == FirstHolder(cfg, st, name)
  {
    SameSelection(st.items, Placed(st, id, item).items, st.order, Query(map[cfg.lookup := name], None, None), cfg);
  }

  lemma {:induction false} SameSelection(a: Table, b: Table, order: seq<int>, query: Query, cfg: Config)
    requires forall i | 0 <= i < |order| :: var id := order[i];
               (id in a && Matches(a[id], query, cfg.str)) <==> (id in b && Matches(b[id], query, cfg.str))
    ensures Select(a, order, query, cfg.str) == Select(b, order, query, cfg.str)
  {
    if order != [] {
      var n := |order| - 1;
      SameSelection(a, b, order[..n], query, cfg);
    }
  }

  /** An update is come upon again by the same task. */
  lemma UpdatedIsMetAgain(setup: Setup, st: Stored, params: Fields, id: int)
    requires WellFormed(setup, st) && Plain(setup.cfg, params) && Target(setup, st, params) == Some(id)
    ensures Target(setup, Placed(st, id, Updated(setup, st.items[id], params)), params) == Some(id)
  {
    var name, item := Name(setup.cfg, params), Updated(setup, st.items[id], params);
    if Numeral(name) == None {
      FirstHolderHolds(setup.cfg, st, name);
      UpdatedName(setup, st.items[id], params);
      PlacedKeepsFirst(setup.cfg, st, id, item, name);
    }
  }

  /** A new item is come upon by the same task, unless its name is a number and its id another one. */
  lemma CreatedIsMetIff(setup: Setup, st: Stored, params: Fields)
    requires WellFormed(setup, st) && Plain(setup.cfg, params) && Target(setup, st, params) == None
    ensures Target(setup, Created(st, BodyOf(setup, params)), params) ==
            if Numeral(Name(setup.cfg, params)) in {None, Some(st.nextId)} then Some(st.nextId) else None
  {
    var name, after := Name(setup.cfg, params), Created(st, BodyOf(setup, params));
    if Numeral(name) == None {
      NewItemIs(setup.cfg, st.nextId, params);
      CreatedWellFormed(setup, st, BodyOf(setup, params));
      FirstHolderHolds(setup.cfg, st, name);
      FirstHolderHolds(setup.cfg, after, name);
      assert forall id: int | id in Holders(setup.cfg, after.items, name) ::
          id == st.nextId || id in Holders(setup.cfg, st.items, name);
      assert st.nextId in Holders(setup.cfg, after.items, name);
    }
  }

  /** A run has something to send. */
  predicate HasToWrite(setup: Setup, st: Stored, params: Fields)
    requires Plain(setup.cfg, params)
  {
    Target(setup, st, params) == None || Outdated(setup, st.items[Target(setup, st, params).value], params)
  }

  /** A create that the server does not take. */
  predicate Refused(setup: Setup, st: Stored, params: Fields)
    requires Plain(setup.cfg, params)
  {
    Target(setup, st, params) == None && !Accepts(setup.required, BodyOf(setup, params))
  }

  /** A created item will be come upon again: its name is no number, or is the number of its id. */
  predicate WillBeMet(setup: Setup, st: Stored, params: Fields)
    requires Plain(setup.cfg, params)
  {
    Target(setup, st, params) != None || Numeral(Name(setup.cfg, params)) in {None, Some(st.nextId)}
  }

  /**
   A present task that was not refused has nothing to do the second time exactly when it had
   nothing to do the first time, or what it wrote will be come upon again and shown back. A field
   that no write takes over, or that comes back changed, is sent again and again; an item whose
   name is a number is created again and again.
   */
  lemma SecondRunIsQuiet(setup: Setup, st: Stored, params: Fields)
    requires WellFormed(setup, st) && Plain(setup.cfg, params) && StateOf(params) == Str("present")
    requires !Refused(setup, st, params)
    ensures DecisionOn(setup, After(setup, st, params), params) == Quiet <==>
              || !HasToWrite(setup, st, params)
              || (WillBeMet(setup, st, params) &&
                  ShowsBack(setup, ResourceData(setup.cfg, params), ItemOf(setup, st, params)))
  {
    var after := After(setup, st, params);
    AfterIs(setup, st, params);
    StaysWellFormed(setup, st, params);
    DecisionIs(setup, after, params);
    match Target(setup, st, params) {
      case None =>
        CreatedIsMetIff(setup, st, params);
        CreatedOutdatedIff(setup, st.nextId, params);
      case Some(id) =>
        UpdatedIsMetAgain(setup, st, params, id);
        UpdatedOutdatedIff(setup, params, st.items[id]);
    }
  }

  lemma NotRefusedAgain(setup: Setup, st: Stored, params: Fields)
    requires WellFormed(setup, st) && Plain(setup.cfg, params) && StateOf(params) == Str("present")
    requires !Refused(setup, st, params)
    ensures !Refused(setup, After(setup, st, params), params)
  {
    AfterIs(setup, st, params);
    if Target(setup, st, params) != None {
      UpdatedIsMetAgain(setup, st, params, Target(setup, st, params).value);
    }
  }

  /** One real run of a present task: a look, and a write if there is something to send. */
  method RunPresent(manager: Manager, params: Fields) returns (result: Result)
    requires manager.Valid() && manager.reachable
    requires Plain(manager.cfg, params) && StateOf(params) == Str("present")
    modifies manager`calls, manager.resource
    ensures manager.Valid() && WellFormed(SetupOf(manager), StoredBy(manager))
    ensures StoredBy(manager) == After(SetupOf(manager), old(StoredBy(manager)), params)
    ensures var decision := DecisionOn(SetupOf(manager), old(StoredBy(manager)), params);
            && manager.calls == old(manager.calls) + [Finds] + (if decision.Do? then [Writes(decision.write)] else [])
            && result.failed == Refused(SetupOf(manager), old(StoredBy(manager)), params)
            && result == Result(if decision.Do? && !result.failed then AsManagerSays else No, result.failed, None)
  {
    ghost var setup, start := SetupOf(manager), StoredBy(manager);
    OperationIs(manager.cfg, params);
    DecisionIs(setup, start, params);
    result := Run(manager, params, false);
  }

  /**
   The same present task, run twice. A task that was not refused looks but does not write the
   second time, if and only if it did not write the first time, or what it wrote will be come
   upon again and is shown back in a form that passes.
   */
  method RunTwice(manager: Manager, params: Fields) returns (first: Result, second: Result)
    requires manager.Valid() && manager.reachable
    requires Plain(manager.cfg, params) && StateOf(params) == Str("present")
    modifies manager`calls, manager.resource
    ensures manager.Valid()
    ensures !first.failed ==>
              var setup, st, data := SetupOf(manager), old(StoredBy(manager)), ResourceData(manager.cfg, params);
              var decision := DecisionOn(setup, st, params);
              var looked: seq<Call> :=
                old(manager.calls) + [Finds] + (if decision.Do? then [Writes(decision.write)] else []) + [Finds];
              && first.changed == (if decision.Do? then AsManagerSays else No)
              && if !decision.Do? || (WillBeMet(setup, st, params) && ShowsBack(setup, data, ItemOf(setup, st, params)))
                 then second == Result(No, false, None) && manager.calls == looked
                 else |manager.calls| == |looked| + 1
  {
    ghost var setup, start := SetupOf(manager), StoredBy(manager);
    DecisionIs(setup, start, params);
    first := RunPresent(manager, params);
    if !first.failed {
      SecondRunIsQuiet(setup, start, params);
      NotRefusedAgain(setup, start, params);
    }
    DecisionIs(setup, StoredBy(manager), params);
    second := RunPresent(manager, params);
  }

  // ---------------------------------------------------------------- check mode

  /**
   A check-mode run followed by a real one, for a task of any state, any store and a server
   reachable or not: check mode writes nothing and reports a change exactly when the real run
   makes its one mutating call; it fails only if the real run fails without one.
   */
  method DryThenReal(manager: Manager, params: Fields)
    returns (dry: Result, real': Result, ghost looks: seq<Call>, ghost writes: seq<Call>)
    requires manager.Valid()
    modifies manager`calls, manager.resource
    ensures manager.Valid()
    ensures looks == (if LooksFirst(manager.cfg, params) then [Finds] else []) && |writes| <= 1
    ensures forall i | 0 <= i < |writes| :: writes[i].Writes?
    ensures manager.calls == old(manager.calls) + looks + looks + writes
    ensures dry.changed == Yes <==> |writes| == 1
    ensures dry.failed ==> real'.failed
    ensures |writes| == 0 ==> real' == dry && StoredBy(manager) == old(StoredBy(manager))
  {
    ghost var decision := Planned(manager, params);
    looks := if LooksFirst(manager.cfg, params) then [Finds] else [];
    writes := if decision.Do? then [Writes(decision.write)] else [];
    dry := Run(manager, params, true);
    real' := Run(manager, params, false);
  }

  // ---------------------------------------------------------------- a find that fails

  /**
   A present task takes a find that raised for an item that is not there. Names stay unique
   after such a run exactly when the name was indeed free, or the create is refused.
   */
  lemma FailedFindDuplicates(setup: Setup, st: Stored, params: Fields)
    requires Sound(setup, st) && Plain(setup.cfg, params) && StateOf(params) == Str("present")
    ensures var data, name := ResourceData(setup.cfg, params), Name(setup.cfg, params);
            var decision := Decide(setup.cfg, params, Unreachable);
            && decision == Do(WriteNew, data)
            && var after := Written(setup.cfg, setup.show, setup.required, setup.patchable, st, WriteNew, data).0;
               Unique(setup.cfg, after.items) <==>
                 Holders(setup.cfg, st.items, name) == {} || !Accepts(setup.required, BodyOf(setup, params))
  {
    DecideIs(setup.cfg, params, Unreachable);
    NewItemIs(setup.cfg, st.nextId, params);
    UniqueIffUnheld(setup.cfg, st.items, st.nextId, NewItem(st.nextId, BodyOf(setup, params)));
    assert st.nextId !in Holders(setup.cfg, st.items, Name(setup.cfg, params));
  }
}
