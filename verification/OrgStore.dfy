/** The mock gateway's organizations: a table by id and an index by name that must agree. */
module OrgStore {
  import opened Json
  import opened Collections

  datatype Org = Org(name: string, description: string)

  /** The state of the organization part of the store. */
  datatype State = State(orgs: map<int, Org>, index: map<string, int>, nextId: int)

  const DEFAULTS: seq<string> := ["Default", "Engineering", "DevOps"]

  /** A field of a patch: left out, given as null, or given. */
  datatype Change = Keep | Clear | Set(text: string)

  function Applied(change: Change, old': string): string {
    match change
    case Keep => old'
    case Clear => ""
    case Set(text) => text
  }

  datatype Answer = Done(id: int) | Many(ids: set<int>) | BadRequest | KeyError

  datatype Request =
    | Create(name: string, description: string)
    | PatchOrg(id: int, rename: Change, redescribe: Change)
    | DeleteOrg(id: int)
    | FindByName(text: string)

  class Store {
    var orgs: map<int, Org>
    var index: map<string, int>
    var nextId: int

    ghost function Abstract(): State
      reads this
    {
      State(orgs, index, nextId)
    }

    constructor ()
      ensures Abstract() == State(map[], map[], 1000)
    {
      orgs, index, nextId := map[], map[], 1000;
    }

    method SeedDefaults()
      modifies this
      ensures Abstract() == Seeded(old(Abstract()))
    {
      if orgs != map[] {
        return;
      }
      ghost var start := Abstract();
      for i := 0 to |DEFAULTS|
        invariant Abstract() == SeededUpTo(start, i)
      {
        orgs := orgs[i + 1 := Org(DEFAULTS[i], "")];
        index := index[DEFAULTS[i] := i + 1];
      }
    }

    method FindOrgsByName(name: string) returns (answer: Answer)
      modifies this
      ensures answer == AnswerTo(old(Abstract()), FindByName(name))
      ensures Abstract() == After(old(Abstract()), FindByName(name))
    {
      SeedDefaults();
      if name !in index {
        return Many({});
      }
      if index[name] !in orgs {
        return KeyError;
      }
      return Many({index[name]});
    }

    method CreateOrg(name: string, description: string) returns (answer: Answer)
      modifies this
      ensures answer == AnswerTo(old(Abstract()), Create(name, description))
      ensures Abstract() == After(old(Abstract()), Create(name, description))
    {
      SeedDefaults();
      if name == "" || name in index {
        return BadRequest;
      }
      var id := nextId;
      nextId := nextId + 1;
      orgs := orgs[id := Org(name, description)];
      index := index[name := id];
      return Done(id);
    }

    method Patch(id: int, name: Change, description: Change) returns (answer: Answer)
      modifies this
      ensures answer == AnswerTo(old(Abstract()), PatchOrg(id, name, description))
      ensures Abstract() == After(old(Abstract()), PatchOrg(id, name, description))
    {
      SeedDefaults();
      if id !in orgs {
        return KeyError;
      }
      var org := orgs[id];
      var oldName := org.name;
      org := Org(Applied(name, org.name), Applied(description, org.description));
      if org.name != oldName {
        if oldName !in index {
          return KeyError;      // nothing is stored yet
        }
        index := index - {oldName};
        index := index[org.name := id];
      }
      orgs := orgs[id := org];
      return Done(id);
    }

    method Delete(id: int) returns (answer: Answer)
      modifies this
      ensures answer == AnswerTo(old(Abstract()), DeleteOrg(id))
      ensures Abstract() == After(old(Abstract()), DeleteOrg(id))
    {
      SeedDefaults();
      if id !in orgs {
        return KeyError;
      }
      var name := orgs[id].name;
      if name != "" {
        index := index - {name};
      }
      orgs := orgs - {id};
      return Done(id);
    }
  }

  // ---------------------------------------------------------------- what the requests do

  const START := State(map[], map[], 1000)

  /** The first n default organizations, numbered from 1. */
  function SeededUpTo(s: State, n: nat): State
    requires n <= |DEFAULTS|
  {
    if n == 0 then s
    else
      var before := SeededUpTo(s, n - 1);
      before.(orgs := before.orgs[n := Org(DEFAULTS[n - 1], "")], index := before.index[DEFAULTS[n - 1] := n])
  }

  /** An empty table is filled before any request is served. */
  function Seeded(s: State): State {
    if s.orgs != map[] then s else SeededUpTo(s, |DEFAULTS|)
  }

  /** A rename of an organization whose old name has lost its entry raises an error half way. */
  predicate RenameFails(s: State, id: int, name: Change) {
    id in s.orgs && Applied(name, s.orgs[id].name) != s.orgs[id].name && s.orgs[id].name !in s.index
  }

  function AnswerTo(s0: State, request: Request): Answer {
    var s := Seeded(s0);
    match request
    case Create(name, _) => if name == "" || name in s.index then BadRequest else Done(s.nextId)
    case PatchOrg(id, name, _) => if id !in s.orgs || RenameFails(s, id, name) then KeyError else Done(id)
    case DeleteOrg(id) => if id !in s.orgs then KeyError else Done(id)
    case FindByName(text) =>
      if text !in s.index then Many({})
      else if s.index[text] !in s.orgs then KeyError
      else Many({s.index[text]})
  }

  function After(s0: State, request: Request): State {
    var s := Seeded(s0);
    if AnswerTo(s0, request) in {BadRequest, KeyError} then s
    else match request
      case Create(name, description) =>
        State(s.orgs[s.nextId := Org(name, description)], s.index[name := s.nextId], s.nextId + 1)
      case PatchOrg(id, name, description) =>
        var was := s.orgs[id];
        var now := Org(Applied(name, was.name), Applied(description, was.description));
        s.(orgs := s.orgs[id := now],
           index := if now.name == was.name then s.index else (s.index - {was.name})[now.name := id])
      case DeleteOrg(id) =>
        s.(orgs := s.orgs - {id}, index := if s.orgs[id].name == "" then s.index else s.index - {s.orgs[id].name})
      case FindByName(_) => s
  }

  function AfterAll(s: State, requests: seq<Request>): State {
    if requests == [] then s
    else After(AfterAll(s, requests[..|requests| - 1]), requests[|requests| - 1])
  }

  // ---------------------------------------------------------------- the index over whole runs

  /** The organizations of a name, by a scan of the table. */
  function Scan(s: State, name: string): set<int> {
    set id | id in s.orgs && s.orgs[id].name == name
  }

  /** The index is the inverse of the table, and ids handed out later are fresh. */
  ghost predicate Exact(s: State) {
    && Sound(s)
    && forall id | id in s.orgs :: s.orgs[id].name in s.index && s.index[s.orgs[id].name] == id
  }

  /** No entry dangles and none points at an organization of another name. */
  ghost predicate NoDangle(s: State) {
    forall name | name in s.index :: s.index[name] in s.orgs && s.orgs[s.index[name]].name == name
  }

  /** Ids handed out later are fresh. */
  ghost predicate Fresh(s: State) {
    s.nextId > 3 && forall id | id in s.orgs :: id < s.nextId
  }

  /** The index is right as far as it goes, and no organization has the empty name. */
  ghost predicate Sound(s: State) {
    NoDangle(s) && Fresh(s) && forall id | id in s.orgs :: s.orgs[id].name != ""
  }

  /** A rename, if the request is one, is to a name that is not empty. */
  predicate NamesNotEmpty(request: Request) {
    request.PatchOrg? ==> request.rename != Clear && request.rename != Set("")
  }

  /** A rename, if the request is one that gets through, is to a name nobody has. */
  predicate RenamesToUnused(s0: State, request: Request) {
    var s := Seeded(s0);
    request.PatchOrg? && request.id in s.orgs ==>
      var name := Applied(request.rename, s.orgs[request.id].name);
      name == s.orgs[request.id].name || Scan(s, name) == {}
  }

  lemma DefaultsInFull(s: State)
    requires s.orgs == map[]
    ensures var t := Seeded(s);
            && t.orgs == map[1 := Org("Default", ""), 2 := Org("Engineering", ""), 3 := Org("DevOps", "")]
            && t.index == s.index["Default" := 1]["Engineering" := 2]["DevOps" := 3]
            && t.nextId == s.nextId
  {
    var one, two := SeededUpTo(s, 1), SeededUpTo(s, 2);
    assert SeededUpTo(s, 0) == s;
    assert one == s.(orgs := s.orgs[1 := Org("Default", "")], index := s.index["Default" := 1]);
    assert two == one.(orgs := one.orgs[2 := Org("Engineering", "")], index := one.index["Engineering" := 2]);
    assert SeededUpTo(s, 3) == two.(orgs := two.orgs[3 := Org("DevOps", "")], index := two.index["DevOps" := 3]);
  }

  lemma SeededKeeps(s: State)
    ensures Sound(s) ==> Sound(Seeded(s))
    ensures Exact(s) ==> Exact(Seeded(s))
  {
    if s.orgs == map[] {
      DefaultsInFull(s);
      assert Sound(s) ==> s.index == map[];
    }
  }

  /** The delete of an organization with the empty name, to which the index points. */
  predicate StrandsEntry(s0: State, request: Request) {
    var s := Seeded(s0);
    request.DeleteOrg? && request.id in s.orgs && s.orgs[request.id].name == "" &&
    "" in s.index && s.index[""] == request.id
  }

  lemma SeededIsRight(s: State)
    requires NoDangle(s) && Fresh(s)
    ensures NoDangle(Seeded(s)) && Fresh(Seeded(s))
  {
    if s.orgs == map[] {
      DefaultsInFull(s);
      assert s.index == map[];
    }
  }

  lemma DeleteStrandsIff(s: State, id: int)
    requires NoDangle(s) && id in s.orgs
    ensures var index := if s.orgs[id].name == "" then s.index else s.index - {s.orgs[id].name};
            NoDangle(State(s.orgs - {id}, index, s.nextId)) <==>
              !(s.orgs[id].name == "" && "" in s.index && s.index[""] == id)
  {
    var index := if s.orgs[id].name == "" then s.index else s.index - {s.orgs[id].name};
    if s.orgs[id].name == "" && "" in s.index && s.index[""] == id {
      assert "" in index && index[""] !in s.orgs - {id};
    }
  }

  lemma RenameStaysRight(s: State, id: int, now: Org)
    requires NoDangle(s) && id in s.orgs
    ensures var was := s.orgs[id];
            NoDangle(s.(orgs := s.orgs[id := now],
                        index := if now.name == was.name then s.index else (s.index - {was.name})[now.name := id]))
  {
  }

  /** A request leaves the index right exactly when it is not such a delete. */
  lemma NoDangleIff(s: State, request: Request)
    requires NoDangle(s) && Fresh(s)
    ensures NoDangle(After(s, request)) <==> !StrandsEntry(s, request)
  {
    var t := Seeded(s);
    SeededIsRight(s);
    match request {
      case Create(_, _) =>
      case PatchOrg(id, rename, redescribe) =>
        if id in t.orgs {
          RenameStaysRight(t, id, Org(Applied(rename, t.orgs[id].name), Applied(redescribe, t.orgs[id].description)));
        }
      case DeleteOrg(id) =>
        if id in t.orgs {
          DeleteStrandsIff(t, id);
        }
      case FindByName(_) =>
    }
  }

  /** After each of the requests the index is right. */
  ghost predicate RightThroughout(requests: seq<Request>) {
    NoDangle(AfterAll(START, requests)) && (requests != [] ==> RightThroughout(requests[..|requests| - 1]))
  }

  /** None of the requests strands an entry in its turn. */
  predicate NoneStrands(requests: seq<Request>) {
    requests == [] ||
    var n := |requests| - 1;
    NoneStrands(requests[..n]) && !StrandsEntry(AfterAll(START, requests[..n]), requests[n])
  }

  /** Over whole runs of any requests, the index stays right exactly when none of them strands an entry. */
  lemma {:induction false} IndexStaysRightIff(requests: seq<Request>)
    ensures RightThroughout(requests) <==> NoneStrands(requests)
    ensures Fresh(AfterAll(START, requests))
  {
    if requests != [] {
      var n := |requests| - 1;
      IndexStaysRightIff(requests[..n]);
      FreshStep(AfterAll(START, requests[..n]), requests[n]);
      if RightThroughout(requests[..n]) {
        NoDangleIff(AfterAll(START, requests[..n]), requests[n]);
      }
    }
  }

  lemma FreshStep(s: State, request: Request)
    requires Fresh(s)
    ensures Fresh(After(s, request))
  {
    if s.orgs == map[] {
      DefaultsInFull(s);
    }
  }

  lemma SoundStep(s: State, request: Request)
    requires Sound(s) && NamesNotEmpty(request)
    ensures Sound(After(s, request))
  {
    SeededKeeps(s);
    FreshStep(s, request);
    NoDangleIff(s, request);
  }

  lemma ExactStep(s: State, request: Request)
    requires Exact(s) && NamesNotEmpty(request) && RenamesToUnused(s, request)
    ensures Exact(After(s, request))
  {
    SeededKeeps(s);
    SoundStep(s, request);
    if request.PatchOrg? && request.id in Seeded(s).orgs {
      var name := Applied(request.rename, Seeded(s).orgs[request.id].name);
      assert forall id | id in Seeded(s).orgs && Seeded(s).orgs[id].name == name :: id in Scan(Seeded(s), name);
    }
  }

  /** Over every run with non-empty names, no index entry dangles or misleads. */
  lemma {:induction false} IndexStaysSound(requests: seq<Request>)
    requires forall i | 0 <= i < |requests| :: NamesNotEmpty(requests[i])
    ensures Sound(AfterAll(START, requests))
  {
    if requests != [] {
      var n := |requests| - 1;
      IndexStaysSound(requests[..n]);
      SoundStep(AfterAll(START, requests[..n]), requests[n]);
    }
  }

  /**
   Over every run whose renames also go to unused names, the index is the exact inverse of
   the table: names are unique, and asking by name answers what a scan of the table would.
   */
  lemma {:induction false} IndexStaysExact(requests: seq<Request>)
    requires forall i | 0 <= i < |requests| ::
               NamesNotEmpty(requests[i]) && RenamesToUnused(AfterAll(START, requests[..i]), requests[i])
    ensures Exact(AfterAll(START, requests))
  {
    if requests != [] {
      var n := |requests| - 1;
      forall i | 0 <= i < n
        ensures NamesNotEmpty(requests[..n][i])
        ensures RenamesToUnused(AfterAll(START, requests[..n][..i]), requests[..n][i])
      {
        assert requests[..n][..i] == requests[..i];
      }
      IndexStaysExact(requests[..n]);
      ExactStep(AfterAll(START, requests[..n]), requests[n]);
    }
  }

  lemma ScanIsLookup(s: State, name: string)
    requires Exact(s)
    ensures Scan(s, name) == if name in s.index then {s.index[name]} else {}
  {
    forall id | id in Scan(s, name) ensures name in s.index && id == s.index[name] {
      assert s.orgs[id].name == name;
    }
  }

  /** In an exact state, asking by name is scanning, and no rename fails half way. */
  lemma ExactMeansScan(s: State, name: string)
    requires Exact(s)
    ensures AnswerTo(s, FindByName(name)) == Many(Scan(Seeded(s), name))
    ensures forall id, change :: !RenameFails(Seeded(s), id, change)
    ensures forall a, b | a in s.orgs && b in s.orgs && s.orgs[a].name == s.orgs[b].name :: a == b
  {
    SeededKeeps(s);
    ScanIsLookup(Seeded(s), name);
  }

  /** A create is taken for every name that is not empty and that nobody has, and is found by its name then. */
  lemma CreateIs(s: State, name: string, description: string)
    requires Exact(s)
    ensures var t, t' := Seeded(s), After(s, Create(name, description));
            if name == "" || exists id | id in t.orgs :: t.orgs[id].name == name then
              AnswerTo(s, Create(name, description)) == BadRequest && t' == t
            else
              && AnswerTo(s, Create(name, description)) == Done(t.nextId) && t.nextId !in t.orgs
              && t'.orgs == t.orgs[t.nextId := Org(name, description)] && t'.nextId == t.nextId + 1
              && AnswerTo(t', FindByName(name)) == Many({t.nextId})
  {
    SeededKeeps(s);
    var t, t' := Seeded(s), After(s, Create(name, description));
    if name in t.index {
      var id := t.index[name];
      assert Exact(t) && Sound(t) && NoDangle(t);
      assert id in t.orgs && t.orgs[id].name == name;
      assert exists n | n in t.orgs :: t.orgs[n].name == name;
    } else if name != "" {
      assert t.nextId in t'.orgs && Seeded(t') == t';
    }
  }

  /** A patch changes the one organization: a field left out stays, null clears it, a text replaces it. */
  lemma PatchIs(s: State, id: int, name: Change, description: Change)
    requires Exact(s) && id in Seeded(s).orgs
    ensures var t, t' := Seeded(s), After(s, PatchOrg(id, name, description));
            && AnswerTo(s, PatchOrg(id, name, description)) == Done(id)
            && t'.orgs.Keys == t.orgs.Keys && (forall n | n in t.orgs && n != id :: t'.orgs[n] == t.orgs[n])
            && (name == Keep ==> t'.orgs[id].name == t.orgs[id].name)
            && (name == Clear ==> t'.orgs[id].name == "")
            && (name.Set? ==> t'.orgs[id].name == name.text)
            && (description == Keep ==> t'.orgs[id].description == t.orgs[id].description)
            && (description == Clear ==> t'.orgs[id].description == "")
            && (description.Set? ==> t'.orgs[id].description == description.text)
            && AnswerTo(t', FindByName(t'.orgs[id].name)) == Many({id})
            && (t'.orgs[id].name != t.orgs[id].name ==> AnswerTo(t', FindByName(t.orgs[id].name)) == Many({}))
  {
    SeededKeeps(s);
  }

  /** A delete takes the one organization and its entry. */
  lemma DeleteIs(s: State, id: int)
    requires Exact(s) && id in Seeded(s).orgs
    ensures var t, t' := Seeded(s), After(s, DeleteOrg(id));
            && AnswerTo(s, DeleteOrg(id)) == Done(id) && t'.orgs == t.orgs - {id} && t'.nextId == t.nextId
            && (t'.orgs != map[] ==> AnswerTo(t', FindByName(t.orgs[id].name)) == Many({}))
  {
    SeededKeeps(s);
  }

  /** Exactly when a rename keeps the index exact: its new name must be unused. */
  lemma RenameKeepsExactIff(s: State, id: int, name: Change, description: Change)
    requires Exact(s) && NamesNotEmpty(PatchOrg(id, name, description))
    ensures Exact(After(s, PatchOrg(id, name, description))) <==>
            RenamesToUnused(s, PatchOrg(id, name, description))
  {
    var request := PatchOrg(id, name, description);
    SeededKeeps(s);
    if RenamesToUnused(s, request) {
      ExactStep(s, request);
    } else {
      var t, t' := Seeded(s), After(s, request);
      var new' := Applied(name, t.orgs[id].name);
      var other := Pick(Scan(t, new'));
      assert other in t'.orgs && t'.orgs[other].name == new' && other != id;
      assert !RenameFails(t, id, name);
      assert t'.index[new'] == id;
    }
  }

  /**
   Taking a name away: an organization renamed to the empty name and deleted leaves its entry
   behind. The lookup that then fails is the store's own; the listing over HTTP skips an empty name.
   */
  lemma EmptyNameDangles()
    ensures var s := AfterAll(START, [PatchOrg(1, Clear, Keep), DeleteOrg(1)]);
            && !NoDangle(s) && "" in s.index && s.index[""] == 1 && 1 !in s.orgs
            && AnswerTo(s, FindByName("")) == KeyError
  {
    var first, both := [PatchOrg(1, Clear, Keep)], [PatchOrg(1, Clear, Keep), DeleteOrg(1)];
    assert both[..1] == first && first[..0] == [];
    var s := After(START, first[0]);
    assert AfterAll(START, first) == s;
    DefaultsInFull(START);
    assert s.orgs == Seeded(START).orgs[1 := Org("", "")];
    assert s.index == (Seeded(START).index - {"Default"})["" := 1];
    assert AfterAll(START, both) == After(s, DeleteOrg(1));
    assert StrandsEntry(s, DeleteOrg(1));
    IndexStaysRightIff(first);
    NoDangleIff(s, DeleteOrg(1));
    assert 2 in After(s, DeleteOrg(1)).orgs;
  }
}
