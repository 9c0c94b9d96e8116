/** The whole rebuild of a workflow's graph, and what the graph is afterwards. */
module WorkflowGraph {
  import opened Json
  import opened Collections
  import opened Associations
  import opened Workflow
  import opened WorkflowLinks
  import Pagination
  import Secrets

  function NameOf(node: Fields): string {
    var name := Get(node, "identifier");
    if name.Str? then name.s else ""
  }

  function NamesOf(nodes: Nodes, ids: Ids): set<string> {
    set id | id in ids && id in nodes :: NameOf(nodes[id])
  }

  function DeclaredNames(spec: NodeSpec, kind: Kind): set<string> {
    if spec.related.Some? && kind in spec.related.value then Elems(spec.related.value[kind]) else {}
  }

  /** Every edge names a declared node. */
  ghost predicate EdgesDeclared(specs: seq<NodeSpec>) {
    forall i, kind, j | 0 <= i < |specs| && specs[i].related.Some? && kind in specs[i].related.value &&
                        0 <= j < |specs[i].related.value[kind]| ::
      IsName(specs, specs[i].related.value[kind][j])
  }

  ghost predicate IsName(specs: seq<NodeSpec>, name: string) {
    exists i | 0 <= i < |specs| :: specs[i].identifier == name
  }

  /** One declared node as the server has it: its fields, and its edges by the names they lead to. */
  ghost predicate Drawn(nodes: Nodes, lists: Lists, workflow: int, spec: NodeSpec) {
    && spec.resolved.Some? && Resolves(nodes, workflow, spec.identifier)
    && var id := IdOf(nodes, workflow, spec.identifier);
       && IsPayload(nodes[id], workflow, spec)
       && forall kind: Kind :: NamesOf(nodes, RowIn(lists, id).Of(kind)) == DeclaredNames(spec, kind)
  }

  ghost predicate IsSpec(nodes: Nodes, workflow: int, specs: seq<NodeSpec>, id: int) {
    exists i | 0 <= i < |specs| :: id == SpecId(nodes, workflow, specs[i])
  }

  /** The workflow has the declared nodes, each once, and no others. */
  ghost predicate Draws(nodes: Nodes, lists: Lists, workflow: int, specs: seq<NodeSpec>) {
    && (forall i | 0 <= i < |specs| :: Drawn(nodes, lists, workflow, specs[i]))
    && (forall id | id in Of(nodes, workflow) :: IsSpec(nodes, workflow, specs, id))
  }

  ghost predicate LaidOne(nodes: Nodes, lists: Lists, workflow: int, spec: NodeSpec) {
    var id := SpecId(nodes, workflow, spec);
    && spec.resolved.Some? && Resolves(nodes, workflow, spec.identifier)
    && nodes[id] == Sent(workflow, spec) && RowIn(lists, id) == NO_EDGES
  }

  /** The declared nodes have just been created, without edges. */
  ghost predicate Laid(nodes: Nodes, lists: Lists, workflow: int, specs: seq<NodeSpec>) {
    && NamedApart(specs)
    && (forall i | 0 <= i < |specs| :: LaidOne(nodes, lists, workflow, specs[i]))
    && (forall id | id in Of(nodes, workflow) :: IsSpec(nodes, workflow, specs, id))
  }

  ghost predicate NewAsDeclared(after: Nodes, nextId: int, workflow: int, specs: seq<NodeSpec>, i: nat)
    requires i < |specs|
  {
    specs[i].resolved.Some? && nextId + i in after && after[nextId + i] == Sent(workflow, specs[i])
  }

  /** The workflow has the declared nodes under consecutive ids, and nothing else. */
  ghost predicate AllNew(after: Nodes, nextId: int, workflow: int, specs: seq<NodeSpec>) {
    && (forall i | 0 <= i < |specs| :: NewAsDeclared(after, nextId, workflow, specs, i))
    && (forall id | id in Of(after, workflow) :: nextId <= id < nextId + |specs|)
  }

  lemma JoinedAt(after: Nodes, nodes: Nodes, nextId: int, sents: seq<Fields>, k: nat, i: nat)
    requires i < k <= |sents| && Joined(after, nodes, nextId, sents, k)
    ensures nextId + i in after && after[nextId + i] == sents[i]
  {
    assert after[nextId + i] == sents[(nextId + i) - nextId];
  }

  lemma SentAt(workflow: int, specs: seq<NodeSpec>, i: nat)
    requires Named(specs) && i < |specs|
    ensures specs[i].resolved.Some? && SentAll(workflow, specs)[i] == Sent(workflow, specs[i])
  {
  }

  lemma JoinedAreNew(after: Nodes, nodes: Nodes, nextId: int, workflow: int, specs: seq<NodeSpec>)
    requires Named(specs) && Joined(after, nodes, nextId, SentAll(workflow, specs), |specs|)
    requires Of(nodes, workflow) == {}
    ensures AllNew(after, nextId, workflow, specs)
  {
    forall i | 0 <= i < |specs| ensures NewAsDeclared(after, nextId, workflow, specs, i) {
      JoinedAt(after, nodes, nextId, SentAll(workflow, specs), |specs|, i);
      SentAt(workflow, specs, i);
    }
    forall id | id in Of(after, workflow) ensures nextId <= id < nextId + |specs| {
      assert id !in Of(nodes, workflow);
    }
  }

  lemma NewMatches(after: Nodes, nextId: int, workflow: int, specs: seq<NodeSpec>, i: nat, j: nat)
    requires NamedApart(specs) && i < |specs| && j < |specs| && NewAsDeclared(after, nextId, workflow, specs, j)
    ensures nextId + j in Matching(after, workflow, Some(specs[i].identifier)) <==> i == j
  {
    SentUnderName(workflow, specs[j]);
  }

  lemma AloneIn(hits: set<int>, id: int)
    requires forall n: int :: n in hits <==> n == id
    ensures Single(hits) && Pick(hits) == id
  {
    assert id in hits;
    var picked := Pick(hits);
    assert picked == id;
    assert forall n: int :: n in hits <==> n in {id};
    assert hits == {id};
  }

  lemma NewAreFound(after: Nodes, nextId: int, workflow: int, specs: seq<NodeSpec>, i: nat)
    requires NamedApart(specs) && AllNew(after, nextId, workflow, specs) && i < |specs|
    ensures Resolves(after, workflow, specs[i].identifier) && SpecId(after, workflow, specs[i]) == nextId + i
  {
    var hits := Matching(after, workflow, Some(specs[i].identifier));
    forall id: int ensures id in hits <==> id == nextId + i {
      assert id in hits ==> id in Of(after, workflow);
      if nextId <= id < nextId + |specs| {
        assert NewAsDeclared(after, nextId, workflow, specs, id - nextId);
        NewMatches(after, nextId, workflow, specs, i, id - nextId);
      }
    }
    AloneIn(hits, nextId + i);
  }

  /** After destroying and creating, the declared nodes are laid. */
  lemma LaidAfresh(after: Nodes, lists: Lists, nextId: int, workflow: int, specs: seq<NodeSpec>)
    requires NamedApart(specs) && AllNew(after, nextId, workflow, specs)
    requires forall id | nextId <= id < nextId + |specs| :: RowIn(lists, id) == NO_EDGES
    ensures Laid(after, lists, workflow, specs)
  {
    forall i | 0 <= i < |specs| ensures LaidOne(after, lists, workflow, specs[i]) {
      NewAreFound(after, nextId, workflow, specs, i);
      assert NewAsDeclared(after, nextId, workflow, specs, i);
    }
    forall id | id in Of(after, workflow) ensures IsSpec(after, workflow, specs, id) {
      NewAreFound(after, nextId, workflow, specs, id - nextId);
    }
  }

  /** Once the nodes are laid, every declared target is found. */
  lemma GoalsExist(nodes: Nodes, lists: Lists, workflow: int, specs: seq<NodeSpec>, i: nat)
    requires Laid(nodes, lists, workflow, specs) && EdgesDeclared(specs) && i < |specs|
    ensures GoalExists(nodes, workflow, specs[i])
  {
    if specs[i].related.Some? {
      var related := specs[i].related.value;
      forall kind, j | kind in related && 0 <= j < |related[kind]| ensures Resolves(nodes, workflow, related[kind][j]) {
        assert IsName(specs, related[kind][j]);
        var m :| 0 <= m < |specs| && specs[m].identifier == related[kind][j];
        assert LaidOne(nodes, lists, workflow, specs[m]);
      }
    }
  }

  lemma IdsOfNames(nodes: Nodes, workflow: int, names: seq<string>)
    requires AllResolve(nodes, workflow, names)
    ensures NamesOf(nodes, IdsOf(nodes, workflow, names)) == Elems(names)
  {
    var ids := IdsOf(nodes, workflow, names);
    forall j | 0 <= j < |names| ensures ids[j] in nodes && NameOf(nodes[ids[j]]) == names[j] {
      assert ids[j] in Matching(nodes, workflow, Some(names[j]));
    }
    forall name | name in names ensures name in NamesOf(nodes, ids) {
      var j :| 0 <= j < |names| && names[j] == name;
      assert ids[j] in ids;
    }
  }

  lemma SameNames(nodes: Nodes, a: Ids, b: Ids)
    requires Elems(a) == Elems(b)
    ensures NamesOf(nodes, a) == NamesOf(nodes, b)
  {
    assert forall id :: id in a <==> id in Elems(a);
    assert forall id :: id in b <==> id in Elems(b);
  }

  lemma LinkedIsDrawn(nodes: Nodes, workflow: int, specs: seq<NodeSpec>, i: nat, before: Lists, now: Lists)
    requires Laid(nodes, before, workflow, specs) && i < |specs|
    requires Linked(nodes, workflow, specs[i], before, now)
    ensures Drawn(nodes, now, workflow, specs[i])
  {
    var spec, id := specs[i], SpecId(nodes, workflow, specs[i]);
    var goal := Goal(nodes, workflow, spec);
    assert LaidOne(nodes, before, workflow, spec);
    SentIsPayload(nodes[id], workflow, spec);
    forall kind: Kind ensures NamesOf(nodes, RowIn(now, id).Of(kind)) == DeclaredNames(spec, kind) {
      var ids := RowIn(now, id).Of(kind);
      assert if kind in goal then Elems(ids) == Elems(goal[kind]) else ids == RowIn(before, id).Of(kind);
      if kind in goal {
        SameNames(nodes, ids, goal[kind]);
        IdsOfNames(nodes, workflow, spec.related.value[kind]);
      }
    }
  }

  // ---------------------------------------------------------------- the graph itself

  /** A node without its id: its fields, and the names its edges lead to. */
  datatype Drawing = Drawing(fields: Fields, leadsTo: ByKind<set<string>>)

  /** What can be seen of a workflow's graph when ids are not looked at. */
  function Graph(nodes: Nodes, lists: Lists, workflow: int): set<Drawing> {
    set id | id in Of(nodes, workflow) :: DrawingOf(nodes, lists, id)
  }

  function DrawingOf(nodes: Nodes, lists: Lists, id: int): Drawing
    requires id in nodes
  {
    var row := RowIn(lists, id);
    Drawing(nodes[id], ByKind(NamesOf(nodes, row.always), NamesOf(nodes, row.success), NamesOf(nodes, row.failure)))
  }

  function DeclaredDrawing(workflow: int, spec: NodeSpec): Drawing
    requires spec.resolved.Some?
  {
    Drawing(Sent(workflow, spec),
            ByKind(DeclaredNames(spec, Always), DeclaredNames(spec, Success), DeclaredNames(spec, Failure)))
  }

  function DeclaredGraph(workflow: int, specs: seq<NodeSpec>): set<Drawing> {
    set spec | spec in specs && spec.resolved.Some? :: DeclaredDrawing(workflow, spec)
  }

  lemma DrawnAs(nodes: Nodes, lists: Lists, workflow: int, spec: NodeSpec)
    requires Drawn(nodes, lists, workflow, spec)
    ensures SpecId(nodes, workflow, spec) in Of(nodes, workflow)
    ensures DrawingOf(nodes, lists, SpecId(nodes, workflow, spec)) == DeclaredDrawing(workflow, spec)
  {
    var id := SpecId(nodes, workflow, spec);
    var row := RowIn(lists, id);
    assert id in Matching(nodes, workflow, Some(spec.identifier));
    SentIsPayload(nodes[id], workflow, spec);
    assert row.Of(Always) == row.always && row.Of(Success) == row.success && row.Of(Failure) == row.failure;
  }

  lemma {:induction false} ListedSize(nodes: Nodes, workflow: int, specs: seq<NodeSpec>, k: nat)
    requires Sources(nodes, workflow, specs) && k <= |specs|
    ensures |Listed(nodes, workflow, specs, k)| == k
  {
    if k > 0 {
      ListedSize(nodes, workflow, specs, k - 1);
      var id := SpecId(nodes, workflow, specs[k - 1]);
      forall i | 0 <= i < k - 1 ensures SpecId(nodes, workflow, specs[i]) != id {
        SpecIdsApart(nodes, workflow, specs, i, k - 1);
      }
      assert Listed(nodes, workflow, specs, k) == Listed(nodes, workflow, specs, k - 1) + {id};
    }
  }

  lemma ListedAreAll(nodes: Nodes, lists: Lists, workflow: int, specs: seq<NodeSpec>)
    requires Draws(nodes, lists, workflow, specs)
    ensures Listed(nodes, workflow, specs, |specs|) == Of(nodes, workflow)
  {
    var listed := Listed(nodes, workflow, specs, |specs|);
    forall id | id in listed ensures id in Of(nodes, workflow) {
      var i :| 0 <= i < |specs| && id == SpecId(nodes, workflow, specs[i]);
      DrawnAs(nodes, lists, workflow, specs[i]);
    }
    forall id | id in Of(nodes, workflow) ensures id in listed {
      assert IsSpec(nodes, workflow, specs, id);
    }
  }

  /** Drawing the declared nodes means having the declared graph, with as many nodes as declared. */
  lemma DrawsTheDeclared(nodes: Nodes, lists: Lists, workflow: int, specs: seq<NodeSpec>)
    requires Draws(nodes, lists, workflow, specs) && NamedApart(specs)
    ensures Graph(nodes, lists, workflow) == DeclaredGraph(workflow, specs)
    ensures |Of(nodes, workflow)| == |specs|
  {
    var graph, declared := Graph(nodes, lists, workflow), DeclaredGraph(workflow, specs);
    forall spec | spec in specs
      ensures spec.resolved.Some? && SpecId(nodes, workflow, spec) in Of(nodes, workflow)
      ensures DrawingOf(nodes, lists, SpecId(nodes, workflow, spec)) == DeclaredDrawing(workflow, spec)
    {
      var i :| 0 <= i < |specs| && specs[i] == spec;
      DrawnAs(nodes, lists, workflow, specs[i]);
    }
    forall drawing | drawing in graph ensures drawing in declared {
      var id :| id in Of(nodes, workflow) && drawing == DrawingOf(nodes, lists, id);
      var i :| 0 <= i < |specs| && id == SpecId(nodes, workflow, specs[i]);
      assert specs[i] in specs;
    }
    ListedSize(nodes, workflow, specs, |specs|);
    ListedAreAll(nodes, lists, workflow, specs);
  }

  lemma DeclaredInAnyOrder(workflow: int, specs: seq<NodeSpec>, other: seq<NodeSpec>)
    requires multiset(specs) == multiset(other)
    ensures DeclaredGraph(workflow, specs) == DeclaredGraph(workflow, other) && |specs| == |other|
  {
    assert forall spec :: spec in specs <==> spec in multiset(specs);
    assert forall spec :: spec in other <==> spec in multiset(other);
    assert |specs| == |multiset(specs)| && |other| == |multiset(other)|;
  }

  /** The order in which nodes are declared does not show: two results of it are the same but for ids. */
  lemma OrderDoesNotMatter(nodes: Nodes, lists: Lists, nodes': Nodes, lists': Lists, workflow: int,
                           specs: seq<NodeSpec>, other: seq<NodeSpec>)
    requires multiset(specs) == multiset(other) && NamedApart(specs) && NamedApart(other)
    requires Draws(nodes, lists, workflow, specs) && Draws(nodes', lists', workflow, other)
    ensures Graph(nodes, lists, workflow) == Graph(nodes', lists', workflow)
    ensures |Of(nodes, workflow)| == |Of(nodes', workflow)| == |specs|
  {
    DrawsTheDeclared(nodes, lists, workflow, specs);
    DrawsTheDeclared(nodes', lists', workflow, other);
    DeclaredInAnyOrder(workflow, specs, other);
  }

  // ---------------------------------------------------------------- the three phases

  lemma NoEdgesOutside(nodes: Nodes, lists: Lists)
    requires forall id, kind: Kind :: Sane(nodes, id, ListIn(lists, (id, kind)))
    ensures forall id | id !in nodes :: RowIn(lists, id) == NO_EDGES
  {
    forall id | id !in nodes ensures RowIn(lists, id) == NO_EDGES {
      var row := RowIn(lists, id);
      assert forall kind: Kind :: Sane(nodes, id, row.Of(kind));
      assert row.Of(Always) == row.Of(Success) == row.Of(Failure) == [];
    }
  }

  /** A search by this name finds the node. */
  predicate Answers(node: Fields, workflow: int, name: string) {
    InWorkflow(node, workflow) && Get(node, "identifier") == Str(name)
  }

  lemma OtherStays(nodes: Nodes, nextId: int, workflow: int, spec: NodeSpec, rules: Rules, id: int)
    requires Place(nodes, nextId, workflow, spec, rules).Some? && spec.identifier != ""
    requires forall n | n in nodes :: n < nextId
    requires id in nodes && !Answers(nodes[id], workflow, spec.identifier)
    ensures var after := Place(nodes, nextId, workflow, spec, rules).value.0;
            id in after && after[id] == nodes[id]
  {
    PlaceOne(nodes, nextId, workflow, spec, rules, "");
    assert id !in Matching(nodes, workflow, Some(spec.identifier));
  }

  /** A node that no declared identifier finds is left alone by the create phase. */
  lemma {:induction false} PlacedElsewhere(nodes: Nodes, nextId: int, workflow: int, specs: seq<NodeSpec>, k: nat,
                                           rules: Rules, id: int)
    requires k <= |specs| && PlaceAll(nodes, nextId, workflow, specs, k, rules).Some?
    requires forall i | 0 <= i < |specs| :: specs[i].identifier != ""
    requires forall n | n in nodes :: n < nextId
    requires id in nodes && forall i | 0 <= i < |specs| :: !Answers(nodes[id], workflow, specs[i].identifier)
    ensures var after := PlaceAll(nodes, nextId, workflow, specs, k, rules).value.0;
            id in after && after[id] == nodes[id]
  {
    if k > 0 {
      PlacedElsewhere(nodes, nextId, workflow, specs, k - 1, rules, id);
      PlacedBelow(nodes, nextId, workflow, specs, k - 1, rules);
      var (before, next) := PlaceAll(nodes, nextId, workflow, specs, k - 1, rules).value;
      OtherStays(before, next, workflow, specs[k - 1], rules, id);
    }
  }

  /** Destroys all nodes of a workflow; nothing of it is left, and nothing else is touched. */
  method Clear(server: WorkflowServer, workflow: int) returns (ending: Ending)
    requires server.Valid()
    modifies server, server.edges
    ensures server.Valid() && server.nextId == old(server.nextId)
    ensures server.edges.log == old(server.edges.log)
    ensures var there := Of(old(server.nodes), workflow);
            |there| <= Pagination.LIMIT && there !! server.locked ==>
              ending == Done && server.nodes == old(server.nodes) - there && Of(server.nodes, workflow) == {}
    ensures forall n | n !in Of(old(server.nodes), workflow) ::
              RowIn(server.edges.lists, n) == RowIn(old(server.edges.lists), n)
    ensures OthersKept(workflow, old(server.nodes), old(server.edges.lists), server.nodes, server.edges.lists)
  {
    HitsAre(server.nodes, workflow, "");
    ending := DestroyNodes(server, workflow);
    forall n, kind: Kind | n !in Of(old(server.nodes), workflow)
      ensures ListIn(server.edges.lists, (n, kind)) == ListIn(old(server.edges.lists), (n, kind))
    {
      assert server.edges.At((n, kind)) == old(server.edges.At((n, kind)));
    }
  }

  /** Every declared node is there once and holds what was declared. */
  ghost predicate AllHold(nodes: Nodes, workflow: int, specs: seq<NodeSpec>) {
    forall i | 0 <= i < |specs| ::
      && specs[i].resolved.Some? && Resolves(nodes, workflow, specs[i].identifier)
      && HoldsDeclared(nodes[IdOf(nodes, workflow, specs[i].identifier)], workflow, specs[i])
  }

  /** The fields that are compared at all hold what was declared or looked up, hidden values aside. */
  ghost predicate HoldsDeclared(node: Fields, workflow: int, spec: NodeSpec)
    requires spec.resolved.Some?
  {
    && Get(node, "workflow_job_template") == Int(workflow) && Get(node, "identifier") == Str(spec.identifier)
    && forall field | field !in ["workflow_job_template", "identifier", "modified", "related", "summary_fields"] ::
         && (IsDeclared(spec, field) ==> Secrets.CouldBeSame(Get(node, field), spec.fields[field]))
         && (!IsDeclared(spec, field) && field in spec.resolved.value ==>
               Secrets.CouldBeSame(Get(node, field), spec.resolved.value[field]))
  }

  lemma HoldsWhatWasSent(nodes: Nodes, workflow: int, spec: NodeSpec)
    requires spec.resolved.Some? && spec.identifier != "" && Resolves(nodes, workflow, spec.identifier)
    requires Holds(nodes[IdOf(nodes, workflow, spec.identifier)], Sent(workflow, spec))
    ensures HoldsDeclared(nodes[IdOf(nodes, workflow, spec.identifier)], workflow, spec)
  {
    var sent, id := Sent(workflow, spec), IdOf(nodes, workflow, spec.identifier);
    assert id in Matching(nodes, workflow, Some(spec.identifier));
    forall field | field !in ["workflow_job_template", "identifier", "modified", "related", "summary_fields"]
      ensures IsDeclared(spec, field) ==> Secrets.CouldBeSame(Get(nodes[id], field), spec.fields[field])
      ensures !IsDeclared(spec, field) && field in spec.resolved.value ==>
                Secrets.CouldBeSame(Get(nodes[id], field), spec.resolved.value[field])
    {
      SentFields(workflow, spec, field);
      assert field !in Secrets.UNCOMPARED;
    }
  }

  lemma PlacedSources(nodes: Nodes, nextId: int, workflow: int, specs: seq<NodeSpec>, rules: Rules)
    requires PlaceAll(nodes, nextId, workflow, specs, |specs|, rules).Some? && NamedApart(specs)
    requires forall id | id in nodes :: id < nextId
    ensures var after := PlaceAll(nodes, nextId, workflow, specs, |specs|, rules).value.0;
            && Sources(after, workflow, specs) && AllHold(after, workflow, specs)
            && forall id | id in nodes && id !in Of(nodes, workflow) :: id in after && after[id] == nodes[id]
  {
    var after := PlaceAll(nodes, nextId, workflow, specs, |specs|, rules).value.0;
    forall i | 0 <= i < |specs|
      ensures specs[i].resolved.Some? && Resolves(after, workflow, specs[i].identifier)
      ensures HoldsDeclared(after[IdOf(after, workflow, specs[i].identifier)], workflow, specs[i])
    {
      PlacedHold(nodes, nextId, workflow, specs, |specs|, rules, i);
      HoldsWhatWasSent(after, workflow, specs[i]);
    }
    forall id | id in nodes && id !in Of(nodes, workflow) ensures id in after && after[id] == nodes[id] {
      PlacedElsewhere(nodes, nextId, workflow, specs, |specs|, rules, id);
    }
  }

  lemma NothingStops(after: Nodes, next: int, nodes: Nodes, nextId: int, workflow: int, specs: seq<NodeSpec>,
                     rules: Rules, placed: nat)
    requires Named(specs) && Of(nodes, workflow) == {} && AllTaken(workflow, specs, rules) && placed < |specs|
    requires forall id | id in nodes :: id < nextId
    requires PlacedAs(nodes, nextId, workflow, specs, placed, rules, after, next)
    ensures Place(after, next, workflow, specs[placed], rules) != None
  {
    PlacesNext(after, next, nodes, nextId, workflow, specs, rules, placed);
    PlacedAfresh(nodes, nextId, workflow, specs, placed + 1, rules);
  }

  lemma FreshlyLaid(after: Nodes, next: int, lists: Lists, nodes: Nodes, nextId: int, workflow: int,
                    specs: seq<NodeSpec>, rules: Rules)
    requires Named(specs) && Of(nodes, workflow) == {} && AllTaken(workflow, specs, rules)
    requires PlacedAs(nodes, nextId, workflow, specs, |specs|, rules, after, next)
    requires forall id | id in nodes :: id < nextId
    requires forall id | id !in nodes :: RowIn(lists, id) == NO_EDGES
    ensures Laid(after, lists, workflow, specs)
  {
    PlacedAfresh(nodes, nextId, workflow, specs, |specs|, rules);
    AddingJoins(nodes, nextId, SentAll(workflow, specs), |specs|);
    JoinedAreNew(after, nodes, nextId, workflow, specs);
    LaidAfresh(after, lists, nextId, workflow, specs);
  }

  /** Whatever is declared, nodes of other workflows are left alone by the create phase. */
  lemma {:induction false} PlacedOutside(nodes: Nodes, nextId: int, workflow: int, specs: seq<NodeSpec>, k: nat,
                                         rules: Rules, id: int)
    requires k <= |specs| && PlaceAll(nodes, nextId, workflow, specs, k, rules).Some?
    requires (forall n | n in nodes :: n < nextId) && id in nodes && !InWorkflow(nodes[id], workflow)
    ensures var (after, next) := PlaceAll(nodes, nextId, workflow, specs, k, rules).value;
            id < next && id in after && after[id] == nodes[id]
  {
    if k > 0 {
      PlacedOutside(nodes, nextId, workflow, specs, k - 1, rules, id);
      var (before, next) := PlaceAll(nodes, nextId, workflow, specs, k - 1, rules).value;
      PlaceOutside(before, next, workflow, specs[k - 1], rules, id);
    }
  }

  lemma PlaceOutside(nodes: Nodes, nextId: int, workflow: int, spec: NodeSpec, rules: Rules, id: int)
    requires Place(nodes, nextId, workflow, spec, rules).Some?
    requires id < nextId && id in nodes && !InWorkflow(nodes[id], workflow)
    ensures var (after, next) := Place(nodes, nextId, workflow, spec, rules).value;
            id < next && id in after && after[id] == nodes[id]
  {
  }

  /** What the create phase makes sure of before linking. */
  method Lay(server: WorkflowServer, workflow: int, specs: seq<NodeSpec>, secrets: bool) returns (ending: Ending)
    requires server.Valid()
    modifies server
    ensures server.Valid()
    ensures OthersKept(workflow, old(server.nodes), server.edges.lists, server.nodes, server.edges.lists)
    ensures ending == Done && NamedApart(specs) ==>
              Sources(server.nodes, workflow, specs) && AllHold(server.nodes, workflow, specs)
    ensures Named(specs) && AllTaken(workflow, specs, RulesOf(server, secrets)) &&
            Of(old(server.nodes), workflow) == {} ==>
              ending == Done && Laid(server.nodes, server.edges.lists, workflow, specs)
  {
    ghost var nodes, nextId, lists, rules := server.nodes, server.nextId, server.edges.lists, RulesOf(server, secrets);
    ghost var placed;
    assert forall id, kind: Kind :: Sane(nodes, id, server.edges.At((id, kind)));
    NoEdgesOutside(nodes, lists);
    ending, placed := CreateNodes(server, workflow, specs, secrets);
    forall id | id in nodes && id !in Of(nodes, workflow) ensures id in server.nodes && server.nodes[id] == nodes[id] {
      PlacedOutside(nodes, nextId, workflow, specs, placed, rules, id);
    }
    if ending == Done && NamedApart(specs) {
      PlacedSources(nodes, nextId, workflow, specs, rules);
    }
    if Named(specs) && AllTaken(workflow, specs, rules) && Of(nodes, workflow) == {} {
      if placed < |specs| {
        NothingStops(server.nodes, server.nextId, nodes, nextId, workflow, specs, rules, placed);
      }
      FreshlyLaid(server.nodes, server.nextId, lists, nodes, nextId, workflow, specs, rules);
    }
  }

  /** The declaration names its own nodes only, and the server takes what is sent for it. */
  ghost predicate Declarable(workflow: int, specs: seq<NodeSpec>, rules: Rules) {
    && Named(specs) && EdgesDeclared(specs) && AllTaken(workflow, specs, rules)
    && forall i | 0 <= i < |specs| :: !PatchRefused(workflow, specs[i].identifier, rules)
  }

  ghost predicate Buildable(server: WorkflowServer, workflow: int, specs: seq<NodeSpec>, secrets: bool)
    reads server
  {
    && Declarable(workflow, specs, RulesOf(server, secrets))
    && |Of(server.nodes, workflow)| <= Pagination.LIMIT && Of(server.nodes, workflow) !! server.locked
  }

  ghost predicate DeclaresTooMany(specs: seq<NodeSpec>) {
    exists i | 0 <= i < |specs| :: specs[i].related.Some? && TooMany(specs[i].related.value)
  }

  lemma ListedInside(nodes: Nodes, workflow: int, specs: seq<NodeSpec>)
    requires Sources(nodes, workflow, specs)
    ensures Listed(nodes, workflow, specs, |specs|) <= Of(nodes, workflow)
  {
    forall i | 0 <= i < |specs| ensures SpecId(nodes, workflow, specs[i]) in Of(nodes, workflow) {
      assert SpecId(nodes, workflow, specs[i]) in Matching(nodes, workflow, Some(specs[i].identifier));
    }
  }

  lemma AllDrawn(nodes: Nodes, workflow: int, specs: seq<NodeSpec>, before: Lists, now: Lists)
    requires Laid(nodes, before, workflow, specs)
    requires LinkedSoFar(nodes, workflow, specs, |specs|, before, now)
    ensures Draws(nodes, now, workflow, specs)
  {
    forall i | 0 <= i < |specs| ensures Drawn(nodes, now, workflow, specs[i]) {
      LinkedIsDrawn(nodes, workflow, specs, i, before, now);
    }
  }

  lemma NothingUnmet(nodes: Nodes, workflow: int, specs: seq<NodeSpec>, lists: Lists, rules: Rules)
    requires Laid(nodes, lists, workflow, specs) && Declarable(workflow, specs, rules)
    requires exists i | 0 <= i < |specs| :: Unmet(nodes, workflow, specs[i], lists, rules)
    ensures DeclaresTooMany(specs)
  {
    var i :| 0 <= i < |specs| && Unmet(nodes, workflow, specs[i], lists, rules);
    GoalsExist(nodes, lists, workflow, specs, i);
    NoEdgesAreShort(nodes, lists, workflow, specs[i]);
  }

  lemma NoEdgesAreShort(nodes: Nodes, lists: Lists, workflow: int, spec: NodeSpec)
    requires LaidOne(nodes, lists, workflow, spec)
    ensures !TooLong(RowIn(lists, SpecId(nodes, workflow, spec)))
  {
  }

  /** Creating and then linking, in a workflow that may have nodes already. */
  method CreateAndLink(server: WorkflowServer, workflow: int, specs: seq<NodeSpec>, secrets: bool)
    returns (ending: Ending)
    requires server.Valid()
    modifies server, server.edges
    ensures server.Valid()
    ensures Declarable(workflow, specs, RulesOf(server, secrets)) && Of(old(server.nodes), workflow) == {} ==>
              if ending == Done then Draws(server.nodes, server.edges.lists, workflow, specs)
              else server.edges.budget == 0 || DeclaresTooMany(specs)
    ensures NamedApart(specs) && ending == Done ==>
              && Sources(server.nodes, workflow, specs) && AllHold(server.nodes, workflow, specs)
              && LinkedSoFar(server.nodes, workflow, specs, |specs|, old(server.edges.lists), server.edges.lists)
    ensures OthersKept(workflow, old(server.nodes), old(server.edges.lists), server.nodes, server.edges.lists)
  {
    ghost var lists := server.edges.lists;
    ending := Lay(server, workflow, specs, secrets);
    if ending != Done {
      return;
    }
    ghost var nodes := server.nodes;
    ending := LinkNodes(server, workflow, specs, secrets);
    OthersKeptOn(workflow, old(server.nodes), lists, nodes, lists, server.nodes, server.edges.lists);
    if Sources(nodes, workflow, specs) {
      ListedInside(nodes, workflow, specs);
      if Laid(nodes, lists, workflow, specs) && Declarable(workflow, specs, RulesOf(server, secrets)) {
        if ending == Done {
          AllDrawn(nodes, workflow, specs, lists, server.edges.lists);
        } else if server.edges.budget != 0 {
          NothingUnmet(nodes, workflow, specs, lists, RulesOf(server, secrets));
        }
      }
    }
  }

  /**
   The three phases in order. Destroying first, the workflow ends up with the declared graph
   whatever was there before; without destroying, exactly the declared kinds of edges of the
   declared nodes are replaced. However it ends, other workflows keep their nodes and edges.
   */
  method BuildGraph(server: WorkflowServer, workflow: int, specs: seq<NodeSpec>, destroy: bool, secrets: bool)
    returns (ending: Ending)
    requires server.Valid()
    modifies server, server.edges
    ensures server.Valid()
    ensures destroy && old(Buildable(server, workflow, specs, secrets)) ==>
              if ending == Done then Draws(server.nodes, server.edges.lists, workflow, specs)
              else server.edges.budget == 0 || DeclaresTooMany(specs)
    ensures !destroy && specs != [] && NamedApart(specs) && ending == Done ==>
              && Sources(server.nodes, workflow, specs) && AllHold(server.nodes, workflow, specs)
              && LinkedSoFar(server.nodes, workflow, specs, |specs|, old(server.edges.lists), server.edges.lists)
    ensures OthersKept(workflow, old(server.nodes), old(server.edges.lists), server.nodes, server.edges.lists)
  {
    ending := Done;
    if destroy {
      ending := Clear(server, workflow);
      if ending != Done {
        return;
      }
    }
    if specs != [] {
      ghost var nodes, lists := server.nodes, server.edges.lists;
      ending := CreateAndLink(server, workflow, specs, secrets);
      OthersKeptOn(workflow, old(server.nodes), old(server.edges.lists), nodes, lists,
                   server.nodes, server.edges.lists);
    }
  }

  /** Two builds of the same nodes, declared in different orders, on two servers. */
  method BuildInAnyOrder(one: WorkflowServer, two: WorkflowServer, workflow: int,
                         specs: seq<NodeSpec>, other: seq<NodeSpec>, secrets: bool)
    returns (first: Ending, second: Ending)
    requires one.Valid() && two.Valid() && one != two && one.edges != two.edges
    requires Buildable(one, workflow, specs, secrets) && Buildable(two, workflow, other, secrets)
    requires multiset(specs) == multiset(other)
    modifies one, one.edges, two, two.edges
    ensures first == Done && second == Done ==>
              && Graph(one.nodes, one.edges.lists, workflow) == Graph(two.nodes, two.edges.lists, workflow)
              && |Of(one.nodes, workflow)| == |Of(two.nodes, workflow)| == |specs|
  {
    first := BuildGraph(one, workflow, specs, true, secrets);
    second := BuildGraph(two, workflow, other, true, secrets);
    if first == Done && second == Done {
      OrderDoesNotMatter(one.nodes, one.edges.lists, two.nodes, two.edges.lists, workflow, specs, other);
    }
  }
}
