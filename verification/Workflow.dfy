/** Building a workflow's graph: destroy the old nodes, create the declared ones, then link them. */
module Workflow {
  import opened Json
  import opened Collections
  import opened Associations
  import Pagination
  import Secrets
  import Updates

  datatype Kind = Always | Success | Failure

  /** The order in which the kinds of edges are gone through. */
  function KindAt(j: nat): Kind
    requires j < 3
  {
    if j == 0 then Always else if j == 1 then Success else Failure
  }

  function Rank(kind: Kind): (j: nat)
    ensures j < 3 && KindAt(j) == kind
  {
    match kind case Always => 0 case Success => 1 case Failure => 2
  }

  type EdgeKey = (int, Kind)

  /**
   A declared node. `resolved` is what the lookups of its template, inventory and execution
   environment gave, None when one of them failed; `related` is None when not declared.
   */
  datatype NodeSpec = NodeSpec(
    identifier: string,
    fields: Fields,
    resolved: Option<Fields>,
    related: Option<map<Kind, seq<string>>>
  )

  const NODE_FIELDS: set<string> := {
    "extra_data", "scm_branch", "job_type", "job_tags", "skip_tags", "limit", "diff_mode", "verbosity",
    "forks", "job_slice_count", "timeout", "all_parents_must_converge", "state"
  }

  type Nodes = map<int, Fields>

  /** The fields that identify a node, as far as they are given. */
  function Keys(workflow: int, identifier: string): Fields {
    map["workflow_job_template" := Int(workflow)] +
    if identifier != "" then map["identifier" := Str(identifier)] else map[]
  }

  /** What is sent for a node: declared fields with a true value, resolved ids, and its keys. */
  function Sent(workflow: int, spec: NodeSpec): Fields
    requires spec.resolved.Some?
  {
    spec.resolved.value
    + (map k | k in spec.fields && k in NODE_FIELDS && Truthy(spec.fields[k]) :: spec.fields[k])
    + Keys(workflow, spec.identifier)
  }

  /** A field of the declaration that counts: one of these names, with a value that is not blank. */
  predicate IsDeclared(spec: NodeSpec, field: string) {
    && field in spec.fields && !Blank(spec.fields[field])
    && field in ["extra_data", "scm_branch", "job_type", "job_tags", "skip_tags", "limit", "diff_mode", "verbosity",
                 "forks", "job_slice_count", "timeout", "all_parents_must_converge", "state"]
  }

  /**
   What a node is to hold: its workflow and its identifier, every declared field, and what was
   looked up unless a declared field or a key overlays it; nothing else.
   */
  ghost predicate IsPayload(node: Fields, workflow: int, spec: NodeSpec)
    requires spec.resolved.Some?
  {
    && "workflow_job_template" in node && node["workflow_job_template"] == Int(workflow)
    && (spec.identifier != "" ==> "identifier" in node && node["identifier"] == Str(spec.identifier))
    && forall field | field != "workflow_job_template" && !(field == "identifier" && spec.identifier != "") ::
         IsPayloadField(node, spec, field)
  }

  predicate IsPayloadField(node: Fields, spec: NodeSpec, field: string)
    requires spec.resolved.Some?
  {
    if IsDeclared(spec, field) then field in node && node[field] == spec.fields[field]
    else if field in spec.resolved.value then field in node && node[field] == spec.resolved.value[field]
    else field !in node
  }

  lemma NodeFieldsAre(spec: NodeSpec, field: string)
    ensures IsDeclared(spec, field) <==>
              field in spec.fields && field in NODE_FIELDS && Truthy(spec.fields[field])
  {
    if field in spec.fields {
      TruthyUnlessBlank(spec.fields[field]);
    }
  }

  lemma SentFields(workflow: int, spec: NodeSpec, field: string)
    requires spec.resolved.Some?
    requires field != "workflow_job_template" && !(field == "identifier" && spec.identifier != "")
    ensures IsPayloadField(Sent(workflow, spec), spec, field)
  {
    NodeFieldsAre(spec, field);
  }

  lemma SentKeys(workflow: int, spec: NodeSpec)
    requires spec.resolved.Some?
    ensures var sent := Sent(workflow, spec);
            && "workflow_job_template" in sent && sent["workflow_job_template"] == Int(workflow)
            && (spec.identifier != "" ==> "identifier" in sent && sent["identifier"] == Str(spec.identifier))
  {
  }

  lemma PayloadFieldIsOne(a: Fields, b: Fields, workflow: int, spec: NodeSpec, field: string)
    requires spec.resolved.Some? && IsPayload(a, workflow, spec) && IsPayload(b, workflow, spec)
    ensures (field in a <==> field in b) && (field in a ==> a[field] == b[field])
  {
    if field != "workflow_job_template" && !(field == "identifier" && spec.identifier != "") {
      assert IsPayloadField(a, spec, field) && IsPayloadField(b, spec, field);
    }
  }

  /** That is what is sent, and nothing else is. */
  lemma SentIsPayload(node: Fields, workflow: int, spec: NodeSpec)
    requires spec.resolved.Some?
    ensures node == Sent(workflow, spec) <==> IsPayload(node, workflow, spec)
  {
    var sent := Sent(workflow, spec);
    SentKeys(workflow, spec);
    forall field | field != "workflow_job_template" && !(field == "identifier" && spec.identifier != "")
      ensures IsPayloadField(sent, spec, field)
    {
      SentFields(workflow, spec, field);
    }
    if IsPayload(node, workflow, spec) {
      forall field: string
        ensures (field in node <==> field in sent) && (field in node ==> node[field] == sent[field])
      {
        PayloadFieldIsOne(node, sent, workflow, spec, field);
      }
      assert node.Keys == sent.Keys;
    }
  }

  predicate InWorkflow(node: Fields, workflow: int) {
    Get(node, "workflow_job_template") == Int(workflow)
  }

  function Of(nodes: Nodes, workflow: int): set<int> {
    set id | id in nodes && InWorkflow(nodes[id], workflow)
  }

  /** The nodes a search by identifier finds; without an identifier, all of the workflow. */
  function Matching(nodes: Nodes, workflow: int, identifier: Option<string>): set<int> {
    set id | id in nodes && InWorkflow(nodes[id], workflow) &&
             (identifier == None || Get(nodes[id], "identifier") == Str(identifier.value))
  }

  function SearchFor(identifier: string): Option<string> {
    if identifier == "" then None else Some(identifier)
  }

  /** The nodes a declared node may stand for: those of the workflow, with its identifier if it has one. */
  function Hits(nodes: Nodes, workflow: int, identifier: string): set<int> {
    set id | id in nodes && Get(nodes[id], "workflow_job_template") == Int(workflow) &&
             (identifier == "" || Get(nodes[id], "identifier") == Str(identifier))
  }

  lemma HitsAre(nodes: Nodes, workflow: int, identifier: string)
    ensures Hits(nodes, workflow, identifier) == Matching(nodes, workflow, SearchFor(identifier))
    ensures Hits(nodes, workflow, "") == Of(nodes, workflow)
  {
    var hits, matching := Hits(nodes, workflow, identifier), Matching(nodes, workflow, SearchFor(identifier));
    assert forall id: int :: id in hits <==> id in matching;
    var all, of := Hits(nodes, workflow, ""), Of(nodes, workflow);
    assert forall id: int :: id in all <==> id in of;
  }

  datatype Lookup = One(id: int) | Nobody | Several

  ghost predicate IsLookup(nodes: Nodes, workflow: int, identifier: Option<string>, found: Lookup) {
    var hits := Matching(nodes, workflow, identifier);
    match found
    case Nobody => hits == {}
    case One(id) => hits == {id}
    case Several => |hits| > 1
  }

  // ---------------------------------------------------------------- the server

  class WorkflowServer {
    var nodes: Nodes
    var nextId: int
    const locked: set<int>          // nodes whose deletion the server refuses
    const accepts: Fields -> bool   // payloads of a POST or a PATCH that it takes
    const edges: AssociationServer<EdgeKey>

    constructor (edges: AssociationServer<EdgeKey>, locked: set<int>, accepts: Fields -> bool)
      requires edges.lists == map[] && edges.pageSize >= 1
      ensures Valid() && this.edges == edges && this.locked == locked && this.accepts == accepts && nodes == map[]
    {
      this.edges, this.locked, this.accepts, nodes, nextId := edges, locked, accepts, map[], 1;
    }

    /** Ids are never handed out twice; edges join nodes of one workflow and name no node twice. */
    ghost predicate Valid()
      reads this, edges
    {
      && edges.pageSize >= 1
      && (forall id | id in nodes :: id < nextId)
      && (forall id, kind :: Sane(nodes, id, edges.At((id, kind))))
    }

    method Search(workflow: int, identifier: Option<string>) returns (found: Lookup)
      ensures IsLookup(nodes, workflow, identifier, found)
    {
      var hits := Enumerate(Matching(nodes, workflow, identifier));
      DistinctSize(hits);
      if |hits| == 1 {
        assert Elems(hits) == {hits[0]};
        found := One(hits[0]);
      } else {
        NothingIn(hits);
        found := if |hits| == 0 then Nobody else Several;
      }
    }

    method Create(fields: Fields) returns (id: Option<int>)
      requires Valid()
      modifies this
      ensures Valid() && id == if accepts(fields) then Some(old(nextId)) else None
      ensures nextId == old(nextId) + if accepts(fields) then 1 else 0
      ensures nodes == if accepts(fields) then old(nodes)[old(nextId) := fields] else old(nodes)
    {
      if !accepts(fields) {
        return None;
      }
      id := Some(nextId);
      nodes := nodes[nextId := fields];
      nextId := nextId + 1;
      forall n, kind ensures Sane(nodes, n, edges.At((n, kind))) {
        assert Sane(old(nodes), n, edges.At((n, kind)));
      }
    }

    /** A PATCH is merged; the workflow a node belongs to is part of its keys and stays. */
    method Merge(id: int, fields: Fields) returns (ok: bool)
      requires Valid() && id in nodes && Get(fields, "workflow_job_template") == Get(nodes[id], "workflow_job_template")
      modifies this
      ensures Valid() && nextId == old(nextId) && ok == accepts(fields)
      ensures nodes == if ok then old(nodes)[id := old(nodes)[id] + fields] else old(nodes)
    {
      if !accepts(fields) {
        return false;
      }
      nodes := nodes[id := nodes[id] + fields];
      forall n, kind ensures Sane(nodes, n, edges.At((n, kind))) {
        assert Sane(old(nodes), n, edges.At((n, kind)));
      }
      return true;
    }

    /** Deleting a node takes the edges from it and to it with it. */
    method Delete(id: int)
      requires Valid() && id in nodes
      modifies this, edges
      ensures Valid() && nextId == old(nextId)
      ensures nodes == if id in locked then old(nodes) else old(nodes) - {id}
      ensures edges.log == old(edges.log) && edges.budget == old(edges.budget)
      ensures forall n, kind :: edges.At((n, kind)) ==
                if id in locked then old(edges.At((n, kind)))
                else if n == id then [] else Without(old(edges.At((n, kind))), id)
    {
      if id !in locked {
        nodes := nodes - {id};
        edges.lists := map key | key in edges.lists && key.0 != id :: Without(edges.lists[key], id);
        forall n, kind ensures Sane(nodes, n, edges.At((n, kind))) {
          SaneWithout(old(nodes), n, old(edges.At((n, kind))), id);
        }
      }
    }
  }

  /** The edges of one kind leaving a node. */
  ghost predicate Sane(nodes: Nodes, id: int, ids: Ids) {
    && Distinct(ids)
    && (ids != [] ==> id in nodes)
    && (forall to | to in ids :: to in nodes && Together(nodes[id], nodes[to]))
  }

  predicate Together(a: Fields, b: Fields) {
    Get(a, "workflow_job_template") == Get(b, "workflow_job_template")
  }

  lemma SaneWithout(nodes: Nodes, id: int, ids: Ids, gone: int)
    requires Sane(nodes, id, ids)
    ensures id != gone ==> Sane(nodes - {gone}, id, Without(ids, gone))
  {
    WithoutDistinct(ids, gone);
    WithoutElems(ids, gone);
    NothingIn(ids);
    NothingIn(Without(ids, gone));
    assert forall to | to in Without(ids, gone) :: to in Elems(Without(ids, gone));
  }

  // ---------------------------------------------------------------- destroying the nodes

  /** Deleting a node of a workflow does not touch the edges of nodes outside it. */
  method DestroyNode(server: WorkflowServer, workflow: int, id: int)
    requires server.Valid() && id in Of(server.nodes, workflow)
    modifies server, server.edges
    ensures server.Valid() && server.nextId == old(server.nextId)
    ensures server.edges.log == old(server.edges.log) && server.edges.budget == old(server.edges.budget)
    ensures server.nodes == old(server.nodes) - ({id} - server.locked)
    ensures forall n, kind | n !in Of(old(server.nodes), workflow) ::
              server.edges.At((n, kind)) == old(server.edges.At((n, kind)))
  {
    server.Delete(id);
    forall n, kind | n !in Of(old(server.nodes), workflow)
      ensures server.edges.At((n, kind)) == old(server.edges.At((n, kind)))
    {
      assert Sane(old(server.nodes), n, old(server.edges.At((n, kind))));
      if id !in old(server.edges.At((n, kind))) {
        WithoutAbsent(old(server.edges.At((n, kind))), id);
      }
    }
  }

  /** Deletes what was listed; whether the server agrees to a deletion is not looked at. */
  method DestroyNodes(server: WorkflowServer, workflow: int) returns (ending: Ending)
    requires server.Valid()
    modifies server, server.edges
    ensures server.Valid() && server.nextId == old(server.nextId)
    ensures server.edges.log == old(server.edges.log) && server.edges.budget == old(server.edges.budget)
    ensures var listed := Hits(old(server.nodes), workflow, "");
            if |listed| > 10000 then ending == Unreadable && server.nodes == old(server.nodes)
            else ending == Done && server.nodes == old(server.nodes) - (listed - server.locked)
    ensures forall n, kind | n !in Of(old(server.nodes), workflow) ::
              server.edges.At((n, kind)) == old(server.edges.At((n, kind)))
  {
    ghost var start := server.nodes;
    HitsAre(start, workflow, "");
    var ids := Enumerate(Of(server.nodes, workflow));
    DistinctSize(ids);
    var listing := Pagination.ReadList(ids, server.edges.pageSize);
    if listing.TooMany? {
      return Unreadable;
    }
    for i := 0 to |ids|
      invariant server.Valid() && server.nextId == old(server.nextId)
      invariant server.edges.log == old(server.edges.log) && server.edges.budget == old(server.edges.budget)
      invariant server.nodes == start - (Elems(ids[..i]) - server.locked)
      invariant forall n, kind | n !in Of(start, workflow) ::
                  server.edges.At((n, kind)) == old(server.edges.At((n, kind)))
    {
      assert ids[i] in Elems(ids) && ids[i] !in ids[..i];
      assert Elems(ids[..i + 1]) == Elems(ids[..i]) + {ids[i]};
      DestroyNode(server, workflow, ids[i]);
    }
    assert ids[..|ids|] == ids;
    return Done;
  }

  // ---------------------------------------------------------------- creating the nodes

  function Refreshed(node: Fields, sent: Fields, secrets: bool): Fields {
    if Updates.NeedsPatch(secrets, node, sent) then node + sent else node
  }

  /** The task's handling of secrets, and which payloads the server takes. */
  datatype Rules = Rules(secrets: bool, accepts: Fields -> bool)

  /** One declared node: created when nothing matches, updated when one node does and needs it. */
  ghost function Place(nodes: Nodes, nextId: int, workflow: int, spec: NodeSpec, rules: Rules): Option<(Nodes, int)> {
    var hits := Matching(nodes, workflow, SearchFor(spec.identifier));
    if spec.resolved == None then None
    else
      var sent := Sent(workflow, spec);
      if hits == {} then
        if rules.accepts(sent) then Some((nodes[nextId := sent], nextId + 1)) else None
      else
        var id := Pick(hits);
        if hits != {id} || (Updates.NeedsPatch(rules.secrets, nodes[id], sent) && !rules.accepts(sent)) then None
        else Some((nodes[id := Refreshed(nodes[id], sent, rules.secrets)], nextId))
  }

  /** The first `k` declared nodes, placed in order. */
  ghost function PlaceAll(nodes: Nodes, nextId: int, workflow: int, specs: seq<NodeSpec>, k: nat,
                          rules: Rules): Option<(Nodes, int)>
    requires k <= |specs|
  {
    if k == 0 then Some((nodes, nextId))
    else
      match PlaceAll(nodes, nextId, workflow, specs, k - 1, rules)
      case None => None
      case Some(st) => Place(st.0, st.1, workflow, specs[k - 1], rules)
  }

  /** The first `k` declared nodes were placed, and this is what there is then. */
  ghost predicate PlacedAs(nodes: Nodes, nextId: int, workflow: int, specs: seq<NodeSpec>, k: nat, rules: Rules,
                           after: Nodes, next: int)
    requires k <= |specs|
  {
    var placed := PlaceAll(nodes, nextId, workflow, specs, k, rules);
    placed.Some? && placed.value.0 == after && placed.value.1 == next
  }

  function RulesOf(server: WorkflowServer, secrets: bool): Rules {
    Rules(secrets, server.accepts)
  }

  /** A payload that finds no node is created, one that finds one updates it if need be; else nothing is done. */
  ghost predicate PutIn(nodes: Nodes, nextId: int, workflow: int, identifier: string, sent: Fields, rules: Rules,
                        ok: bool, after: Nodes, next: int)
  {
    var hits := Hits(nodes, workflow, identifier);
    if hits == {} then
      && (ok <==> rules.accepts(sent))
      && if ok then after == nodes[nextId := sent] && next == nextId + 1 else after == nodes && next == nextId
    else if |hits| == 1 then
      var node := nodes[Pick(hits)];
      var needed := Updates.NeedsPatch(rules.secrets, node, sent);
      && (ok <==> !needed || rules.accepts(sent)) && next == nextId
      && after == if ok && needed then nodes[Pick(hits) := node + sent] else nodes
    else
      !ok && after == nodes && next == nextId
  }

  method CreateNode(server: WorkflowServer, workflow: int, spec: NodeSpec, secrets: bool) returns (ok: bool)
    requires server.Valid()
    modifies server
    ensures server.Valid()
    ensures var placed := Place(old(server.nodes), old(server.nextId), workflow, spec, RulesOf(server, secrets));
            && ok == placed.Some?
            && (ok ==> server.nodes == placed.value.0 && server.nextId == placed.value.1)
            && (!ok ==> server.nodes == old(server.nodes) && server.nextId == old(server.nextId))
    ensures ok ==> spec.resolved.Some?
    ensures spec.resolved.Some? ==>
              forall sent | IsPayload(sent, workflow, spec) ::
                PutIn(old(server.nodes), old(server.nextId), workflow, spec.identifier, sent, RulesOf(server, secrets),
                      ok, server.nodes, server.nextId)
  {
    if spec.resolved == None {
      return false;
    }
    var sent := Sent(workflow, spec);
    forall payload | IsPayload(payload, workflow, spec) ensures payload == sent {
      SentIsPayload(payload, workflow, spec);
    }
    HitsAre(server.nodes, workflow, spec.identifier);
    ghost var hits := Matching(server.nodes, workflow, SearchFor(spec.identifier));
    var found := server.Search(workflow, SearchFor(spec.identifier));
    match found {
      case Several =>
        assert hits != {Pick(hits)};
        ok := false;
      case Nobody =>
        var id := server.Create(sent);
        ok := id != None;
      case One(id) =>
        assert id in hits && Pick(hits) == id;
        ok := true;
        if Updates.NeedsPatch(secrets, server.nodes[id], sent) {
          ok := server.Merge(id, sent);
        } else {
          assert server.nodes == server.nodes[id := server.nodes[id]];
        }
    }
  }

  /** Places the declared nodes in order, up to the first whose lookups fail or that the server refuses. */
  method CreateNodes(server: WorkflowServer, workflow: int, specs: seq<NodeSpec>, secrets: bool)
    returns (ending: Ending, ghost placed: nat)
    requires server.Valid()
    modifies server
    ensures server.Valid() && placed <= |specs|
    ensures PlacedAs(old(server.nodes), old(server.nextId), workflow, specs, placed, RulesOf(server, secrets),
                     server.nodes, server.nextId)
    ensures ending == if placed == |specs| then Done else Failed
    ensures ending == Failed ==>
              Place(server.nodes, server.nextId, workflow, specs[placed], RulesOf(server, secrets)) == None
  {
    ghost var rules := RulesOf(server, secrets);
    placed := 0;
    for i := 0 to |specs|
      invariant server.Valid() && placed == i
      invariant PlacedAs(old(server.nodes), old(server.nextId), workflow, specs, i, rules, server.nodes, server.nextId)
    {
      var ok := CreateNode(server, workflow, specs[i], secrets);
      if !ok {
        return Failed, placed;
      }
      placed := i + 1;
    }
    ending := Done;
  }

  ghost predicate Single(hits: set<int>) {
    hits != {} && hits == {Pick(hits)}
  }

  /** The name finds exactly one node. */
  ghost predicate Resolves(nodes: Nodes, workflow: int, name: string) {
    Single(Matching(nodes, workflow, Some(name)))
  }

  ghost function IdOf(nodes: Nodes, workflow: int, name: string): int
    requires Resolves(nodes, workflow, name)
  {
    Pick(Matching(nodes, workflow, Some(name)))
  }

  lemma SentUnderName(workflow: int, spec: NodeSpec)
    requires spec.resolved.Some? && spec.identifier != ""
    ensures InWorkflow(Sent(workflow, spec), workflow)
    ensures Get(Sent(workflow, spec), "identifier") == Str(spec.identifier)
  {
  }

  lemma SentInWorkflow(workflow: int, spec: NodeSpec)
    requires spec.resolved.Some?
    ensures InWorkflow(Sent(workflow, spec), workflow)
  {
  }

  lemma MergedGet(node: Fields, sent: Fields, field: string)
    ensures field in sent ==> Get(node + sent, field) == sent[field]
  {
  }

  lemma RefreshedKeepsKeys(node: Fields, workflow: int, spec: NodeSpec, secrets: bool)
    requires spec.resolved.Some? && InWorkflow(node, workflow)
    requires spec.identifier != "" ==> Get(node, "identifier") == Str(spec.identifier)
    ensures var after := Refreshed(node, Sent(workflow, spec), secrets);
            && InWorkflow(after, workflow)
            && (spec.identifier != "" ==> Get(after, "identifier") == Str(spec.identifier))
  {
    SentInWorkflow(workflow, spec);
    MergedGet(node, Sent(workflow, spec), "workflow_job_template");
    if spec.identifier != "" {
      SentUnderName(workflow, spec);
      MergedGet(node, Sent(workflow, spec), "identifier");
    }
  }

  /** A node stored under its identifier settles that search and touches no other. */
  lemma StoredUnderName(nodes: Nodes, id: int, node: Fields, workflow: int, identifier: string, name: string)
    requires Matching(nodes, workflow, Some(identifier)) <= {id}
    requires id in nodes ==> id in Matching(nodes, workflow, Some(identifier))
    requires InWorkflow(node, workflow) && Get(node, "identifier") == Str(identifier)
    ensures var after := nodes[id := node];
            && Matching(after, workflow, Some(identifier)) == {id}
            && (name != identifier ==> Matching(after, workflow, Some(name)) == Matching(nodes, workflow, Some(name)))
  {
  }

  /** Placing a node settles the search for its own identifier and touches no other node. */
  lemma PlaceOne(nodes: Nodes, nextId: int, workflow: int, spec: NodeSpec, rules: Rules, name: string)
    requires Place(nodes, nextId, workflow, spec, rules).Some? && spec.identifier != ""
    requires forall id | id in nodes :: id < nextId
    ensures var (after, next) := Place(nodes, nextId, workflow, spec, rules).value;
            && (forall id | id in after :: id < next)
            && nodes.Keys <= after.Keys
            && (forall id | id in nodes && id !in Matching(nodes, workflow, Some(spec.identifier)) ::
                  after[id] == nodes[id])
            && Resolves(after, workflow, spec.identifier)
            && (name != spec.identifier ==>
                  Matching(after, workflow, Some(name)) == Matching(nodes, workflow, Some(name)))
  {
    var sent := Sent(workflow, spec);
    var hits := Matching(nodes, workflow, Some(spec.identifier));
    var after := Place(nodes, nextId, workflow, spec, rules).value.0;
    var id := if hits == {} then nextId else Pick(hits);
    if hits != {} {
      RefreshedKeepsKeys(nodes[id], workflow, spec, rules.secrets);
    }
    StoredUnderName(nodes, id, after[id], workflow, spec.identifier, name);
    assert after == nodes[id := after[id]];
    Singleton({id}, Pick({id}));
  }

  /** New ids stay above all others. */
  lemma {:induction false} PlacedBelow(nodes: Nodes, nextId: int, workflow: int, specs: seq<NodeSpec>, k: nat,
                                       rules: Rules)
    requires k <= |specs| && PlaceAll(nodes, nextId, workflow, specs, k, rules).Some?
    requires forall id | id in nodes :: id < nextId
    ensures var (after, next) := PlaceAll(nodes, nextId, workflow, specs, k, rules).value;
            forall id | id in after :: id < next
  {
    if k > 0 {
      PlacedBelow(nodes, nextId, workflow, specs, k - 1, rules);
    }
  }

  lemma ResolvesAfter(nodes: Nodes, nextId: int, workflow: int, spec: NodeSpec, rules: Rules, name: string)
    requires Place(nodes, nextId, workflow, spec, rules).Some? && spec.identifier != ""
    requires forall id | id in nodes :: id < nextId
    requires name == spec.identifier || Resolves(nodes, workflow, name)
    ensures Resolves(Place(nodes, nextId, workflow, spec, rules).value.0, workflow, name)
  {
    PlaceOne(nodes, nextId, workflow, spec, rules, name);
  }

  /** After the create phase every declared identifier finds exactly one node. */
  lemma {:induction false} PlacedResolve(nodes: Nodes, nextId: int, workflow: int, specs: seq<NodeSpec>, k: nat,
                                         rules: Rules, i: nat)
    requires i < k <= |specs| && PlaceAll(nodes, nextId, workflow, specs, k, rules).Some?
    requires forall j | 0 <= j < |specs| :: specs[j].identifier != ""
    requires forall id | id in nodes :: id < nextId
    ensures Resolves(PlaceAll(nodes, nextId, workflow, specs, k, rules).value.0, workflow, specs[i].identifier)
  {
    var (before, mid) := PlaceAll(nodes, nextId, workflow, specs, k - 1, rules).value;
    PlacedBelow(nodes, nextId, workflow, specs, k - 1, rules);
    if i < k - 1 {
      PlacedResolve(nodes, nextId, workflow, specs, k - 1, rules, i);
    }
    ResolvesAfter(before, mid, workflow, specs[k - 1], rules, specs[i].identifier);
  }

  ghost predicate NamedApart(specs: seq<NodeSpec>) {
    && (forall i | 0 <= i < |specs| :: specs[i].identifier != "")
    && (forall i, j | 0 <= i < j < |specs| :: specs[i].identifier != specs[j].identifier)
  }

  /** Nothing that was sent differs from what the node holds, as far as the fields are compared at all. */
  ghost predicate Holds(node: Fields, sent: Fields) {
    forall field | field in sent && field !in Secrets.UNCOMPARED ::
      Secrets.CouldBeSame(Get(node, field), sent[field])
  }

  /** An update leaves the node with what was sent, and keeps every field that was not. */
  lemma RefreshedHolds(node: Fields, sent: Fields, secrets: bool)
    ensures Holds(Refreshed(node, sent, secrets), sent)
    ensures forall field | field in node && field !in sent :: Get(Refreshed(node, sent, secrets), field) == node[field]
    ensures !Updates.NeedsPatch(false, Refreshed(node, sent, secrets), sent)
  {
    var after := Refreshed(node, sent, secrets);
    forall field | field in sent && field !in Secrets.UNCOMPARED
      ensures Secrets.CouldBeSame(Get(after, field), sent[field])
    {
      Secrets.CouldBeSameReflexive(sent[field]);
      assert !Updates.NeedsPatch(secrets, node, sent) ==> !Secrets.FieldDiffers(secrets, node, sent, field);
    }
  }

  lemma NewHolds(sent: Fields)
    ensures Holds(sent, sent)
  {
    forall field | field in sent ensures Secrets.CouldBeSame(sent[field], sent[field]) {
      Secrets.CouldBeSameReflexive(sent[field]);
    }
  }

  lemma PlacedHoldsItself(nodes: Nodes, nextId: int, workflow: int, spec: NodeSpec, rules: Rules)
    requires Place(nodes, nextId, workflow, spec, rules).Some? && spec.identifier != ""
    requires forall id | id in nodes :: id < nextId
    ensures var after := Place(nodes, nextId, workflow, spec, rules).value.0;
            && Resolves(after, workflow, spec.identifier)
            && Holds(after[IdOf(after, workflow, spec.identifier)], Sent(workflow, spec))
  {
    var hits := Matching(nodes, workflow, Some(spec.identifier));
    var after := Place(nodes, nextId, workflow, spec, rules).value.0;
    var id := if hits == {} then nextId else Pick(hits);
    PlaceOne(nodes, nextId, workflow, spec, rules, "");
    if hits == {} {
      NewHolds(Sent(workflow, spec));
    } else {
      RefreshedHolds(nodes[id], Sent(workflow, spec), rules.secrets);
      RefreshedKeepsKeys(nodes[id], workflow, spec, rules.secrets);
    }
    SentUnderName(workflow, spec);
    assert id in Matching(after, workflow, Some(spec.identifier));
  }

  /** Placing another node leaves what an identifier finds as it is. */
  lemma PlaceOneSpares(nodes: Nodes, nextId: int, workflow: int, spec: NodeSpec, rules: Rules, name: string,
                       sent: Fields)
    requires Place(nodes, nextId, workflow, spec, rules).Some? && spec.identifier != "" && spec.identifier != name
    requires forall id | id in nodes :: id < nextId
    requires Resolves(nodes, workflow, name) && Holds(nodes[IdOf(nodes, workflow, name)], sent)
    ensures var after := Place(nodes, nextId, workflow, spec, rules).value.0;
            Resolves(after, workflow, name) && Holds(after[IdOf(after, workflow, name)], sent)
  {
    PlaceOne(nodes, nextId, workflow, spec, rules, name);
    var id := IdOf(nodes, workflow, name);
    assert id in Matching(nodes, workflow, Some(name));
    assert id !in Matching(nodes, workflow, Some(spec.identifier));
  }

  /** After the create phase each declared node is there once and holds what was declared. */
  lemma {:induction false} PlacedHold(nodes: Nodes, nextId: int, workflow: int, specs: seq<NodeSpec>, k: nat,
                                      rules: Rules, i: nat)
    requires i < k <= |specs| && PlaceAll(nodes, nextId, workflow, specs, k, rules).Some? && NamedApart(specs)
    requires forall id | id in nodes :: id < nextId
    ensures specs[i].resolved.Some?
    ensures var after := PlaceAll(nodes, nextId, workflow, specs, k, rules).value.0;
            && Resolves(after, workflow, specs[i].identifier)
            && Holds(after[IdOf(after, workflow, specs[i].identifier)], Sent(workflow, specs[i]))
  {
    var (before, mid) := PlaceAll(nodes, nextId, workflow, specs, k - 1, rules).value;
    PlacedBelow(nodes, nextId, workflow, specs, k - 1, rules);
    if i < k - 1 {
      PlacedHold(nodes, nextId, workflow, specs, k - 1, rules, i);
      PlaceOneSpares(before, mid, workflow, specs[k - 1], rules, specs[i].identifier, Sent(workflow, specs[i]));
    } else {
      PlacedHoldsItself(before, mid, workflow, specs[k - 1], rules);
    }
  }

  ghost predicate Named(specs: seq<NodeSpec>) {
    NamedApart(specs) && forall i | 0 <= i < |specs| :: specs[i].resolved.Some?
  }

  function SentAll(workflow: int, specs: seq<NodeSpec>): (all: seq<Fields>)
    requires forall i | 0 <= i < |specs| :: specs[i].resolved.Some?
    ensures |all| == |specs| && forall i | 0 <= i < |specs| :: all[i] == Sent(workflow, specs[i])
  {
    seq(|specs|, i requires 0 <= i < |specs| => Sent(workflow, specs[i]))
  }

  /** The nodes of before, and the first `k` declared ones under the ids that follow. */
  ghost predicate Joined(after: Nodes, nodes: Nodes, nextId: int, sents: seq<Fields>, k: nat)
    requires k <= |sents|
  {
    && (forall id | id in after :: id in nodes || nextId <= id < nextId + k)
    && (forall id | id in nodes :: id in after && after[id] == nodes[id])
    && (forall id | nextId <= id < nextId + k :: id in after && after[id] == sents[id - nextId])
  }

  lemma JoinedStep(before: Nodes, nodes: Nodes, nextId: int, sents: seq<Fields>, k: nat)
    requires k < |sents| && Joined(before, nodes, nextId, sents, k) && forall id | id in nodes :: id < nextId
    ensures Joined(before[nextId + k := sents[k]], nodes, nextId, sents, k + 1)
  {
  }

  lemma JoinedHasNo(after: Nodes, nodes: Nodes, nextId: int, workflow: int, specs: seq<NodeSpec>, k: nat, name: string)
    requires Named(specs) && k <= |specs| && Joined(after, nodes, nextId, SentAll(workflow, specs), k)
    requires Of(nodes, workflow) == {} && forall i | 0 <= i < k :: specs[i].identifier != name
    ensures Matching(after, workflow, Some(name)) == {}
  {
    forall id | id in after ensures !(InWorkflow(after[id], workflow) && Get(after[id], "identifier") == Str(name)) {
      if id in nodes {
        assert id !in Of(nodes, workflow);
      } else {
        SentUnderName(workflow, specs[id - nextId]);
      }
    }
  }

  /** The server takes what is sent for every declared node. */
  ghost predicate AllTaken(workflow: int, specs: seq<NodeSpec>, rules: Rules)
    requires Named(specs)
  {
    forall i | 0 <= i < |specs| :: rules.accepts(Sent(workflow, specs[i]))
  }

  /** The nodes with the first `k` of a list added under the ids that follow. */
  function Adding(nodes: Nodes, nextId: int, sents: seq<Fields>, k: nat): Nodes
    requires k <= |sents|
  {
    if k == 0 then nodes else Adding(nodes, nextId, sents, k - 1)[nextId + k - 1 := sents[k - 1]]
  }

  lemma {:induction false} AddingJoins(nodes: Nodes, nextId: int, sents: seq<Fields>, k: nat)
    requires k <= |sents| && forall id | id in nodes :: id < nextId
    ensures Joined(Adding(nodes, nextId, sents, k), nodes, nextId, sents, k)
  {
    if k > 0 {
      AddingJoins(nodes, nextId, sents, k - 1);
      JoinedStep(Adding(nodes, nextId, sents, k - 1), nodes, nextId, sents, k - 1);
    }
  }

  lemma AddingHasNo(nodes: Nodes, nextId: int, workflow: int, specs: seq<NodeSpec>, k: nat, name: string)
    requires Named(specs) && k <= |specs| && Of(nodes, workflow) == {}
    requires (forall id | id in nodes :: id < nextId) && forall i | 0 <= i < k :: specs[i].identifier != name
    ensures Matching(Adding(nodes, nextId, SentAll(workflow, specs), k), workflow, Some(name)) == {}
  {
    var after := Adding(nodes, nextId, SentAll(workflow, specs), k);
    AddingJoins(nodes, nextId, SentAll(workflow, specs), k);
    assert Joined(after, nodes, nextId, SentAll(workflow, specs), k);
    JoinedHasNo(after, nodes, nextId, workflow, specs, k, name);
  }

  /** Once the nodes before it have been added, the `i`th declared node is still to be created. */
  ghost predicate NewAt(nodes: Nodes, nextId: int, workflow: int, specs: seq<NodeSpec>, rules: Rules,
                        sents: seq<Fields>, i: nat)
    requires i < |specs| == |sents|
  {
    && specs[i].resolved.Some? && sents[i] == Sent(workflow, specs[i]) && rules.accepts(sents[i])
    && Matching(Adding(nodes, nextId, sents, i), workflow, SearchFor(specs[i].identifier)) == {}
  }

  lemma CreatesNode(nodes: Nodes, next: int, workflow: int, spec: NodeSpec, rules: Rules)
    requires spec.resolved.Some? && rules.accepts(Sent(workflow, spec))
    requires Matching(nodes, workflow, SearchFor(spec.identifier)) == {}
    ensures var placed := Place(nodes, next, workflow, spec, rules);
            placed.Some? && placed.value.0 == nodes[next := Sent(workflow, spec)] && placed.value.1 == next + 1
  {
  }

  lemma PlacesNext(after: Nodes, next: int, nodes: Nodes, nextId: int, workflow: int, specs: seq<NodeSpec>,
                   rules: Rules, k: nat)
    requires k < |specs| && PlacedAs(nodes, nextId, workflow, specs, k, rules, after, next)
    ensures PlaceAll(nodes, nextId, workflow, specs, k + 1, rules) == Place(after, next, workflow, specs[k], rules)
  {
  }

  lemma PlacedNew(nodes: Nodes, nextId: int, workflow: int, specs: seq<NodeSpec>, k: nat, rules: Rules,
                  sents: seq<Fields>)
    requires k < |specs| == |sents| && NewAt(nodes, nextId, workflow, specs, rules, sents, k)
    requires PlacedAs(nodes, nextId, workflow, specs, k, rules, Adding(nodes, nextId, sents, k), nextId + k)
    ensures PlacedAs(nodes, nextId, workflow, specs, k + 1, rules, Adding(nodes, nextId, sents, k + 1), nextId + k + 1)
  {
    var before, next := Adding(nodes, nextId, sents, k), nextId + k;
    PlacesNext(before, next, nodes, nextId, workflow, specs, rules, k);
    CreatesNode(before, next, workflow, specs[k], rules);
  }

  lemma {:induction false} PlacedAllNew(nodes: Nodes, nextId: int, workflow: int, specs: seq<NodeSpec>, k: nat,
                                        rules: Rules, sents: seq<Fields>)
    requires k <= |specs| == |sents|
    requires forall i | 0 <= i < k :: NewAt(nodes, nextId, workflow, specs, rules, sents, i)
    ensures PlacedAs(nodes, nextId, workflow, specs, k, rules, Adding(nodes, nextId, sents, k), nextId + k)
  {
    if k > 0 {
      PlacedAllNew(nodes, nextId, workflow, specs, k - 1, rules, sents);
      PlacedNew(nodes, nextId, workflow, specs, k - 1, rules, sents);
    }
  }

  /** In a workflow without nodes, placing creates the declared nodes and nothing else. */
  lemma PlacedAfresh(nodes: Nodes, nextId: int, workflow: int, specs: seq<NodeSpec>, k: nat, rules: Rules)
    requires Named(specs) && Of(nodes, workflow) == {} && AllTaken(workflow, specs, rules) && k <= |specs|
    requires forall id | id in nodes :: id < nextId
    ensures PlacedAs(nodes, nextId, workflow, specs, k, rules,
                     Adding(nodes, nextId, SentAll(workflow, specs), k), nextId + k)
  {
    var sents := SentAll(workflow, specs);
    forall i | 0 <= i < k ensures NewAt(nodes, nextId, workflow, specs, rules, sents, i) {
      AddingHasNo(nodes, nextId, workflow, specs, i, specs[i].identifier);
    }
    PlacedAllNew(nodes, nextId, workflow, specs, k, rules, sents);
  }
}
