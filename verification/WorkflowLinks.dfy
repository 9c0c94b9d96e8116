/** Linking the nodes of a workflow, and the whole rebuild of its graph. */
module WorkflowLinks {
  import opened Json
  import opened Collections
  import opened Associations
  import opened Workflow
  import Pagination
  import Secrets
  import Updates

  /** One thing for each kind of edges. */
  datatype ByKind<T> = ByKind(always: T, success: T, failure: T) {
    function Of(kind: Kind): T {
      match kind case Always => always case Success => success case Failure => failure
    }

    function With(kind: Kind, t: T): (after: ByKind<T>)
      ensures forall k: Kind :: after.Of(k) == if k == kind then t else Of(k)
    {
      match kind
      case Always => ByKind(t, success, failure)
      case Success => ByKind(always, t, failure)
      case Failure => ByKind(always, success, t)
    }
  }

  type Row = ByKind<Ids>
  type Plans = ByKind<seq<Post>>
  type Lists = map<EdgeKey, Ids>
  type Targets = map<Kind, Ids>

  const NO_PLANS: Plans := ByKind([], [], [])

  function ListIn(lists: Lists, key: EdgeKey): Ids {
    if key in lists then lists[key] else []
  }

  /** All the edges leaving a node. */
  function RowIn(lists: Lists, id: int): (row: Row)
    ensures forall kind: Kind :: row.Of(kind) == ListIn(lists, (id, kind))
  {
    ByKind(ListIn(lists, (id, Always)), ListIn(lists, (id, Success)), ListIn(lists, (id, Failure)))
  }

  ghost predicate OnlyRow(id: int, before: Lists, now: Lists) {
    forall n | n != id :: RowIn(now, n) == RowIn(before, n)
  }

  /** Nodes and edges of other workflows. */
  ghost predicate OthersKept(workflow: int, before: Nodes, lists: Lists, after: Nodes, now: Lists) {
    forall id | id in before && Get(before[id], "workflow_job_template") != Int(workflow) ::
      id in after && after[id] == before[id] && RowIn(now, id) == RowIn(lists, id)
  }

  lemma OthersKeptOn(workflow: int, before: Nodes, lists: Lists, mid: Nodes, since: Lists, after: Nodes, now: Lists)
    requires OthersKept(workflow, before, lists, mid, since) && OthersKept(workflow, mid, since, after, now)
    ensures OthersKept(workflow, before, lists, after, now)
  {
    forall id | id in before && Get(before[id], "workflow_job_template") != Int(workflow)
      ensures id in after && after[id] == before[id] && RowIn(now, id) == RowIn(lists, id)
    {
      assert id in mid && mid[id] == before[id];
    }
  }

  /** Nothing there was is touched. */
  ghost predicate AllKept(before: Nodes, lists: Lists, after: Nodes, now: Lists) {
    forall id | id in before :: id in after && after[id] == before[id] && RowIn(now, id) == RowIn(lists, id)
  }

  lemma AllKeptOn(before: Nodes, lists: Lists, mid: Nodes, since: Lists, after: Nodes, now: Lists)
    requires AllKept(before, lists, mid, since) && AllKept(mid, since, after, now)
    ensures AllKept(before, lists, after, now)
  {
  }

  // ---------------------------------------------------------------- the edges of one kind

  lemma {:induction false} ApplyDistinct(ids: Ids, posts: seq<Post>)
    requires Distinct(ids)
    ensures Distinct(Apply(ids, posts))
  {
    if posts != [] {
      var n := |posts| - 1;
      ApplyDistinct(ids, posts[..n]);
      if posts[n].Remove? {
        WithoutDistinct(Apply(ids, posts[..n]), posts[n].id);
      }
    }
  }

  ghost predicate MayLink(nodes: Nodes, id: int, ids: Ids) {
    id in nodes && forall to | to in ids :: to in nodes && Together(nodes[id], nodes[to])
  }

  lemma RepairKeepsSane(nodes: Nodes, id: int, existing: Ids, wanted: Ids, plan: seq<Post>, sent: nat)
    requires Sane(nodes, id, existing) && MayLink(nodes, id, wanted)
    requires IsPlan(plan, existing, wanted, false) && sent <= |plan|
    ensures Sane(nodes, id, Apply(existing, plan[..sent]))
  {
    var now := Apply(existing, plan[..sent]);
    ApplyDistinct(existing, plan[..sent]);
    SetRepairProgress(existing, wanted, plan, sent);
    assert forall to | to in now :: to in Elems(now);
  }

  /** Brings one kind of edges of one node to the wanted targets. */
  method Relate(server: WorkflowServer, id: int, kind: Kind, wanted: Ids)
    returns (ending: Ending, ghost plan: seq<Post>)
    requires server.Valid() && MayLink(server.nodes, id, wanted)
    modifies server.edges
    ensures server.Valid()
    ensures var before, now := old(server.edges.lists), server.edges.lists;
            && OnlyRow(id, before, now)
            && RowIn(now, id) == RowIn(before, id).With(kind, ListIn(now, (id, kind)))
            && (ending == Done ==>
                  && IsPlan(plan, ListIn(before, (id, kind)), wanted, false)
                  && Elems(ListIn(now, (id, kind))) == Elems(wanted)
                  && server.edges.log == old(server.edges.log) + Tagged((id, kind), plan))
            && (ending != Done ==> server.edges.budget == 0 || |ListIn(before, (id, kind))| > Pagination.LIMIT)
  {
    ghost var before := server.edges.lists;
    ghost var existing := server.edges.At((id, kind));
    assert Sane(server.nodes, id, existing);
    var changed, sent;
    ending, changed, sent, plan := ModifyAssociations(server.edges, (id, kind), false, Some(wanted), false);
    if |existing| <= Pagination.LIMIT {
      RepairKeepsSane(server.nodes, id, existing, wanted, plan, sent);
      if sent == |plan| {
        assert plan[..sent] == plan;
        SetRepairSettles(existing, wanted, plan);
      }
    } else {
      assert plan[..sent] == [];
    }
    forall n, k ensures Sane(server.nodes, n, server.edges.At((n, k))) {
      assert Sane(server.nodes, n, old(server.edges.At((n, k))));
    }
    forall n, k: Kind | (n, k) != (id, kind) ensures ListIn(server.edges.lists, (n, k)) == ListIn(before, (n, k)) {
      assert server.edges.At((n, k)) == old(server.edges.At((n, k)));
    }
  }

  // ---------------------------------------------------------------- the edges of one node

  ghost predicate Handled(before: Ids, now: Ids, wanted: Targets, kind: Kind, plan: seq<Post>) {
    if kind in wanted then IsPlan(plan, before, wanted[kind], false) && Elems(now) == Elems(wanted[kind])
    else plan == [] && now == before
  }

  /** The wanted kinds were settled by the plans, the others are as before. */
  ghost predicate Progress(before: Row, now: Row, wanted: Targets, plans: Plans) {
    forall kind: Kind :: Handled(before.Of(kind), now.Of(kind), wanted, kind, plans.Of(kind))
  }

  function Posts(id: int, plans: Plans): seq<(EdgeKey, Post)> {
    Tagged((id, Always), plans.always) + Tagged((id, Success), plans.success) + Tagged((id, Failure), plans.failure)
  }

  lemma Empties<T>(log: seq<T>, a: seq<T>, b: seq<T>, c: seq<T>)
    ensures (log + ([] + [] + [])) + (a + [] + []) == log + (a + [] + [])
    ensures (log + (a + [] + [])) + ([] + b + []) == log + (a + b + [])
    ensures (log + (a + b + [])) + ([] + [] + c) == log + (a + b + c)
  {
    assert [] + [] + c == c && a + b + [] == a + b && (log + (a + b)) + c == log + (a + b + c);
  }

  /** Logging one more kind's plan after those of the kinds before it. */
  lemma PostsMerge(log: seq<(EdgeKey, Post)>, id: int, first: Plans, second: Plans, kind: Kind)
    requires forall k: Kind :: Rank(k) >= Rank(kind) ==> first.Of(k) == []
    requires forall k: Kind :: k != kind ==> second.Of(k) == []
    ensures log + Posts(id, first) + Posts(id, second) == log + Posts(id, first.With(kind, second.Of(kind)))
  {
    assert first.Of(Always) == first.always && first.Of(Success) == first.success;
    assert first.Of(Failure) == first.failure;
    assert second.Of(Always) == second.always && second.Of(Success) == second.success;
    assert second.Of(Failure) == second.failure;
    assert forall k: Kind :: Tagged((id, k), []) == [];
    match kind {
      case Always =>
        Empties(log, Tagged((id, Always), second.always), [], []);
      case Success =>
        Empties(log, Tagged((id, Always), first.always), Tagged((id, Success), second.success), []);
      case Failure =>
        Empties(log, Tagged((id, Always), first.always), Tagged((id, Success), first.success),
                Tagged((id, Failure), second.failure));
    }
  }

  ghost predicate TooLong(row: Row) {
    exists kind: Kind :: |row.Of(kind)| > Pagination.LIMIT
  }

  function UpTo(wanted: Targets, k: nat): Targets {
    map kind | kind in wanted && Rank(kind) < k :: wanted[kind]
  }

  lemma ProgressStep(before: Row, now: Row, next: Row, wanted: Targets, first: Plans, k: nat, plan: seq<Post>)
    requires k < 3 && Progress(before, now, UpTo(wanted, k), first)
    requires next == now.With(KindAt(k), next.Of(KindAt(k)))
    requires Handled(now.Of(KindAt(k)), next.Of(KindAt(k)), wanted, KindAt(k), plan)
    ensures Progress(before, next, UpTo(wanted, k + 1), first.With(KindAt(k), plan))
  {
    forall kind: Kind
      ensures Handled(before.Of(kind), next.Of(kind), UpTo(wanted, k + 1), kind, first.With(KindAt(k), plan).Of(kind))
    {
      assert Handled(before.Of(kind), now.Of(kind), UpTo(wanted, k), kind, first.Of(kind));
      assert kind != KindAt(k) ==> Rank(kind) != k;
    }
  }

  type Log = seq<(EdgeKey, Post)>

  /** The wanted kinds are settled, and nothing but their plans has been logged since `start`. */
  ghost predicate Standing(id: int, before: Row, start: Log, wanted: Targets, now: Lists, log: Log, plans: Plans) {
    Progress(before, RowIn(now, id), wanted, plans) && log == start + Posts(id, plans)
  }

  lemma StandingStep(id: int, before: Row, start: Log, wanted: Targets, k: nat, now: Lists, next: Lists, log: Log,
                     first: Plans, plan: seq<Post>)
    requires k < 3 && Standing(id, before, start, UpTo(wanted, k), now, log, first)
    requires var kind := KindAt(k);
             && RowIn(next, id) == RowIn(now, id).With(kind, ListIn(next, (id, kind)))
             && Handled(ListIn(now, (id, kind)), ListIn(next, (id, kind)), wanted, kind, plan)
    ensures Standing(id, before, start, UpTo(wanted, k + 1), next, log + Tagged((id, KindAt(k)), plan),
                     first.With(KindAt(k), plan))
  {
    var kind := KindAt(k);
    ProgressStep(before, RowIn(now, id), RowIn(next, id), wanted, first, k, plan);
    forall other: Kind | Rank(other) >= k ensures first.Of(other) == [] {
      assert Handled(before.Of(other), RowIn(now, id).Of(other), UpTo(wanted, k), other, first.Of(other));
    }
    PostsMerge(start, id, first, NO_PLANS.With(kind, plan), kind);
    assert Posts(id, NO_PLANS.With(kind, plan)) == Tagged((id, kind), plan);
  }

  method AssociateKind(server: WorkflowServer, id: int, wanted: Targets, j: nat,
                       ghost before: Row, ghost start: Log, ghost first: Plans)
    returns (ending: Ending, ghost plans: Plans)
    requires server.Valid() && j < 3 && forall kind | kind in wanted :: MayLink(server.nodes, id, wanted[kind])
    requires Standing(id, before, start, UpTo(wanted, j), server.edges.lists, server.edges.log, first)
    modifies server.edges
    ensures server.Valid() && OnlyRow(id, old(server.edges.lists), server.edges.lists)
    ensures ending == Done ==>
              Standing(id, before, start, UpTo(wanted, j + 1), server.edges.lists, server.edges.log, plans)
    ensures ending != Done ==> server.edges.budget == 0 || TooLong(before)
  {
    ghost var plan: seq<Post>, now, log := [], server.edges.lists, server.edges.log;
    var kind := KindAt(j);
    plans := first;
    assert Handled(before.Of(kind), RowIn(now, id).Of(kind), UpTo(wanted, j), kind, first.Of(kind));
    if kind in wanted {
      ending, plan := Relate(server, id, kind, wanted[kind]);
      if ending != Done {
        return;
      }
    } else {
      assert log + Tagged((id, kind), plan) == log;
    }
    StandingStep(id, before, start, wanted, j, now, server.edges.lists, log, first, plan);
    plans := first.With(kind, plan);
    ending := Done;
  }

  /** Brings every kind of edges in `wanted` to its targets, in the order of the kinds. */
  method Associate(server: WorkflowServer, id: int, wanted: Targets) returns (ending: Ending, ghost plans: Plans)
    requires server.Valid() && forall kind | kind in wanted :: MayLink(server.nodes, id, wanted[kind])
    modifies server.edges
    ensures server.Valid() && OnlyRow(id, old(server.edges.lists), server.edges.lists)
    ensures ending == Done ==>
              && Progress(RowIn(old(server.edges.lists), id), RowIn(server.edges.lists, id), wanted, plans)
              && server.edges.log == old(server.edges.log) + Posts(id, plans)
    ensures ending != Done ==> server.edges.budget == 0 || TooLong(RowIn(old(server.edges.lists), id))
  {
    ghost var before, start := RowIn(server.edges.lists, id), server.edges.log;
    plans := NO_PLANS;
    assert Posts(id, plans) == [];
    for j := 0 to 3
      invariant server.Valid() && OnlyRow(id, old(server.edges.lists), server.edges.lists)
      invariant Standing(id, before, start, UpTo(wanted, j), server.edges.lists, server.edges.log, plans)
    {
      ending, plans := AssociateKind(server, id, wanted, j, before, start, plans);
      if ending != Done {
        return;
      }
    }
    assert UpTo(wanted, 3) == wanted;
    ending := Done;
  }

  // ---------------------------------------------------------------- looking targets up

  type Related = map<Kind, seq<string>>

  ghost predicate AllResolve(nodes: Nodes, workflow: int, names: seq<string>) {
    forall j | 0 <= j < |names| :: Resolves(nodes, workflow, names[j])
  }

  ghost function IdsOf(nodes: Nodes, workflow: int, names: seq<string>): (ids: Ids)
    requires AllResolve(nodes, workflow, names)
    ensures |ids| == |names| && forall j | 0 <= j < |names| :: ids[j] == IdOf(nodes, workflow, names[j])
    ensures forall id | id in ids :: id in Of(nodes, workflow)
  {
    seq(|names|, j requires 0 <= j < |names| => IdOf(nodes, workflow, names[j]))
  }

  /** Looks up every target; None when one is missing or ambiguous. */
  method LookUpTargets(server: WorkflowServer, workflow: int, names: seq<string>) returns (ids: Option<Ids>)
    ensures ids.Some? <==> AllResolve(server.nodes, workflow, names)
    ensures ids.Some? ==> ids.value == IdsOf(server.nodes, workflow, names)
  {
    var list: Ids := [];
    for j := 0 to |names|
      invariant |list| == j
      invariant forall i | 0 <= i < j ::
                  Resolves(server.nodes, workflow, names[i]) && list[i] == IdOf(server.nodes, workflow, names[i])
    {
      var found := server.Search(workflow, Some(names[j]));
      ghost var hits := Matching(server.nodes, workflow, Some(names[j]));
      if !found.One? {
        assert found == Several ==> hits != {Pick(hits)};
        return None;
      }
      assert found.id in hits;
      list := list + [found.id];
    }
    ids := Some(list);
    assert list == IdsOf(server.nodes, workflow, names);
  }

  ghost predicate TargetsResolve(nodes: Nodes, workflow: int, related: Related, k: nat) {
    forall kind | kind in related && Rank(kind) < k :: AllResolve(nodes, workflow, related[kind])
  }

  /** The declared targets of the first `k` kinds; an empty list asks for nothing. */
  ghost function Wanted(nodes: Nodes, workflow: int, related: Related, k: nat): Targets
    requires TargetsResolve(nodes, workflow, related, k)
  {
    map kind | kind in related && related[kind] != [] && Rank(kind) < k :: IdsOf(nodes, workflow, related[kind])
  }

  function With(had: Targets, kind: Kind, ids: Ids): Targets {
    if ids == [] then had else had[kind := ids]
  }

  lemma ResolveStep(nodes: Nodes, workflow: int, related: Related, k: nat)
    requires k < 3 && TargetsResolve(nodes, workflow, related, k)
    ensures TargetsResolve(nodes, workflow, related, k + 1) <==>
              KindAt(k) !in related || AllResolve(nodes, workflow, related[KindAt(k)])
  {
    assert Rank(KindAt(k)) == k;
    assert forall kind: Kind :: Rank(kind) == k ==> kind == KindAt(k);
  }

  lemma WantedStep(nodes: Nodes, workflow: int, related: Related, k: nat)
    requires k < 3 && TargetsResolve(nodes, workflow, related, k) && TargetsResolve(nodes, workflow, related, k + 1)
    ensures KindAt(k) in related ==> AllResolve(nodes, workflow, related[KindAt(k)])
    ensures Wanted(nodes, workflow, related, k + 1) ==
            if KindAt(k) in related
            then With(Wanted(nodes, workflow, related, k), KindAt(k), IdsOf(nodes, workflow, related[KindAt(k)]))
            else Wanted(nodes, workflow, related, k)
  {
    ResolveStep(nodes, workflow, related, k);
    var had, has := Wanted(nodes, workflow, related, k), Wanted(nodes, workflow, related, k + 1);
    forall kind: Kind
      ensures kind != KindAt(k) ==> (kind in has <==> kind in had) && (kind in had ==> has[kind] == had[kind])
      ensures kind == KindAt(k) ==> kind !in had && (kind in has <==> kind in related && related[kind] != [])
    {
      assert KindAt(Rank(kind)) == kind && Rank(KindAt(k)) == k;
    }
  }

  // ---------------------------------------------------------------- linking one node

  /**
   Settling one more kind while the ones before are asked for again: what was settled needs no
   POST, so the second round adds the plan of the new kind alone.
   */
  lemma AnotherRound(id: int, before: Row, start: Log, had: Targets, wanted: Targets, kind: Kind, now: Lists,
                     next: Lists, log: Log, first: Plans, second: Plans)
    requires Standing(id, before, start, had, now, log, first)
    requires Progress(RowIn(now, id), RowIn(next, id), wanted, second)
    requires forall k | k in had :: Rank(k) < Rank(kind)
    requires wanted == had || (kind in wanted && wanted == had[kind := wanted[kind]])
    ensures Standing(id, before, start, wanted, next, log + Posts(id, second), first.With(kind, second.Of(kind)))
  {
    var mid, end, plans := RowIn(now, id), RowIn(next, id), first.With(kind, second.Of(kind));
    forall k: Kind
      ensures k != kind ==> second.Of(k) == []
      ensures Rank(k) >= Rank(kind) ==> first.Of(k) == []
      ensures Handled(before.Of(k), end.Of(k), wanted, k, plans.Of(k))
    {
      assert Handled(before.Of(k), mid.Of(k), had, k, first.Of(k));
      assert Handled(mid.Of(k), end.Of(k), wanted, k, second.Of(k));
      if k in had {
        NeverEmpty(mid.Of(k), wanted[k], false, second.Of(k));
      }
    }
    PostsMerge(start, id, first, second, kind);
  }

  ghost predicate TargetsIn(nodes: Nodes, workflow: int, wanted: Targets) {
    forall kind | kind in wanted :: forall to | to in wanted[kind] :: to in Of(nodes, workflow)
  }

  lemma KeysAreThere(nodes: Nodes, workflow: int, identifier: string, id: int)
    requires id in Matching(nodes, workflow, SearchFor(identifier))
    ensures nodes[id] + Keys(workflow, identifier) == nodes[id]
  {
  }

  /** A found node holds its keys already, so a PATCH of them is sent only under this name; the server refuses it. */
  predicate PatchRefused(workflow: int, identifier: string, rules: Rules) {
    rules.secrets && Str(identifier) == ENCRYPTED && !rules.accepts(Keys(workflow, identifier))
  }

  lemma KeysNeedNoPatch(node: Fields, workflow: int, identifier: string, secrets: bool)
    requires node + Keys(workflow, identifier) == node
    ensures Updates.NeedsPatch(secrets, node, Keys(workflow, identifier)) ==> secrets && Str(identifier) == ENCRYPTED
  {
    var keys := Keys(workflow, identifier);
    forall field | field in keys ensures Get(node, field) == keys[field] {
      assert (node + keys)[field] == keys[field];
    }
    forall field | field in Updates.Compared(keys) && Secrets.FieldDiffers(secrets, node, keys, field)
      ensures secrets && Str(identifier) == ENCRYPTED
    {
      Secrets.CouldBeSameReflexive(keys[field]);
    }
  }

  /** What keeps the keys from being stored. */
  predicate KeysRefused(workflow: int, identifier: string, found: Lookup, rules: Rules) {
    if found.One? then PatchRefused(workflow, identifier, rules) else !rules.accepts(Keys(workflow, identifier))
  }

  /** Where a search that found at most one node leads: to that node, or to the one created then. */
  function Goes(found: Lookup, nextId: int): int {
    if found.One? then found.id else nextId
  }

  /** The nodes once the keys have been sent: a missing node is created, unless that is refused. */
  function Keyed(nodes: Nodes, nextId: int, workflow: int, identifier: string, found: Lookup, accepts: Fields -> bool):
    (Nodes, int)
  {
    var keys := Keys(workflow, identifier);
    if found.One? || !accepts(keys) then (nodes, nextId) else (nodes[nextId := keys], nextId + 1)
  }

  /** The node itself is updated with its keys, or created anew when it was not found; then its edges. */
  method CreateOrUpdate(server: WorkflowServer, workflow: int, identifier: string, found: Lookup,
                        wanted: Targets, secrets: bool)
    returns (ending: Ending, ghost plans: Plans)
    requires server.Valid() && TargetsIn(server.nodes, workflow, wanted) && found != Several
    requires found.One? ==> found.id in Matching(server.nodes, workflow, SearchFor(identifier))
    modifies server, server.edges
    ensures server.Valid()
    ensures var keyed := Keyed(old(server.nodes), old(server.nextId), workflow, identifier, found, server.accepts);
            server.nodes == keyed.0 && server.nextId == keyed.1
    ensures var id, before, now := Goes(found, old(server.nextId)), old(server.edges.lists), server.edges.lists;
            && OnlyRow(id, before, now)
            && (ending == Done ==>
                  && (found == Nobody ==> server.accepts(Keys(workflow, identifier)))
                  && Progress(RowIn(before, id), RowIn(now, id), wanted, plans)
                  && server.edges.log == old(server.edges.log) + Posts(id, plans))
            && (ending != Done ==>
                  || server.edges.budget == 0 || TooLong(RowIn(before, id))
                  || KeysRefused(workflow, identifier, found, RulesOf(server, secrets)))
  {
    var keys := Keys(workflow, identifier);
    var id;
    plans := NO_PLANS;
    if found.One? {
      id := found.id;
      KeysAreThere(server.nodes, workflow, identifier, id);
      KeysNeedNoPatch(server.nodes[id], workflow, identifier, secrets);
      if Updates.NeedsPatch(secrets, server.nodes[id], keys) {
        var ok := server.Merge(id, keys);
        assert server.nodes == old(server.nodes);
        if !ok {
          return Failed, plans;
        }
      }
    } else {
      var created := server.Create(keys);
      if created == None {
        return Failed, plans;
      }
      id := created.value;
    }
    ending, plans := Associate(server, id, wanted);
  }

  ghost predicate TooMany(related: Related) {
    exists kind | kind in related :: |related[kind]| > Pagination.LIMIT
  }

  lemma {:induction false} ElemsSize<T(!new)>(xs: seq<T>)
    ensures |Elems(xs)| <= |xs|
  {
    if xs != [] {
      var n := |xs| - 1;
      ElemsSize(xs[..n]);
      assert Elems(xs) == Elems(xs[..n]) + {xs[n]};
    }
  }

  ghost predicate SaneRow(nodes: Nodes, id: int, row: Row) {
    forall kind: Kind :: Sane(nodes, id, row.Of(kind))
  }

  /** A list is too long for the next round only if it was before, or was declared too long. */
  lemma LongMeansMany(nodes: Nodes, workflow: int, id: int, related: Related, k: nat, before: Row, now: Row,
                      plans: Plans)
    requires TargetsResolve(nodes, workflow, related, k)
    requires Progress(before, now, Wanted(nodes, workflow, related, k), plans)
    requires SaneRow(nodes, id, now) && TooLong(now)
    ensures TooLong(before) || TooMany(related)
  {
    var kind: Kind :| |now.Of(kind)| > Pagination.LIMIT;
    var wanted := Wanted(nodes, workflow, related, k);
    assert Handled(before.Of(kind), now.Of(kind), wanted, kind, plans.Of(kind)) && Sane(nodes, id, now.Of(kind));
    if kind in wanted {
      DistinctSize(now.Of(kind));
      ElemsSize(wanted[kind]);
      assert |related[kind]| > Pagination.LIMIT;
    }
  }

  /** One declared kind: its targets join those so far, and all of them are applied. */
  method LinkKind(server: WorkflowServer, workflow: int, identifier: string, found: Lookup, kind: Kind,
                  names: seq<string>, had: Targets, secrets: bool)
    returns (ending: Ending, wanted: Targets, ghost plans: Plans)
    requires server.Valid() && TargetsIn(server.nodes, workflow, had) && found != Several
    requires found.One? ==> found.id in Matching(server.nodes, workflow, SearchFor(identifier))
    modifies server, server.edges
    ensures server.Valid() && (ending == Done ==> TargetsIn(server.nodes, workflow, wanted))
    ensures !AllResolve(old(server.nodes), workflow, names) ==> ending == Failed
    ensures if AllResolve(old(server.nodes), workflow, names) then
              var keyed := Keyed(old(server.nodes), old(server.nextId), workflow, identifier, found, server.accepts);
              server.nodes == keyed.0 && server.nextId == keyed.1
            else server.nodes == old(server.nodes) && server.nextId == old(server.nextId)
    ensures var id, before, now := Goes(found, old(server.nextId)), old(server.edges.lists), server.edges.lists;
            && OnlyRow(id, before, now)
            && (ending == Done ==>
                  && (found == Nobody ==> server.accepts(Keys(workflow, identifier)))
                  && wanted == With(had, kind, IdsOf(old(server.nodes), workflow, names))
                  && Progress(RowIn(before, id), RowIn(now, id), wanted, plans)
                  && server.edges.log == old(server.edges.log) + Posts(id, plans))
            && (ending != Done && AllResolve(old(server.nodes), workflow, names) ==>
                  || server.edges.budget == 0 || TooLong(RowIn(before, id))
                  || KeysRefused(workflow, identifier, found, RulesOf(server, secrets)))
  {
    wanted, plans := had, NO_PLANS;
    var ids := LookUpTargets(server, workflow, names);
    if ids == None {
      return Failed, wanted, plans;
    }
    wanted := With(had, kind, ids.value);
    ending, plans := CreateOrUpdate(server, workflow, identifier, found, wanted, secrets);
  }

  /** Between two kinds of a node that was found. */
  ghost predicate Halfway(server: WorkflowServer, workflow: int, id: int, related: Related, k: nat,
                          before: Row, start: Log, wanted: Targets, plans: Plans)
    reads server, server.edges
  {
    && TargetsResolve(server.nodes, workflow, related, k)
    && wanted == Wanted(server.nodes, workflow, related, k)
    && Standing(id, before, start, wanted, server.edges.lists, server.edges.log, plans)
  }

  lemma RoundDone(nodes: Nodes, workflow: int, id: int, related: Related, k: nat, before: Row, start: Log,
                  had: Targets, wanted: Targets, now: Lists, next: Lists, log: Log, first: Plans, second: Plans)
    requires k < 3 && TargetsResolve(nodes, workflow, related, k) && had == Wanted(nodes, workflow, related, k)
    requires KindAt(k) in related && AllResolve(nodes, workflow, related[KindAt(k)])
    requires wanted == With(had, KindAt(k), IdsOf(nodes, workflow, related[KindAt(k)]))
    requires Standing(id, before, start, had, now, log, first)
    requires Progress(RowIn(now, id), RowIn(next, id), wanted, second)
    ensures TargetsResolve(nodes, workflow, related, k + 1) && wanted == Wanted(nodes, workflow, related, k + 1)
    ensures Standing(id, before, start, wanted, next, log + Posts(id, second),
                     first.With(KindAt(k), second.Of(KindAt(k))))
  {
    ResolveStep(nodes, workflow, related, k);
    WantedStep(nodes, workflow, related, k);
    AnotherRound(id, before, start, had, wanted, KindAt(k), now, next, log, first, second);
  }

  lemma RoundSkipped(nodes: Nodes, workflow: int, related: Related, k: nat)
    requires k < 3 && TargetsResolve(nodes, workflow, related, k) && KindAt(k) !in related
    ensures TargetsResolve(nodes, workflow, related, k + 1)
    ensures Wanted(nodes, workflow, related, k + 1) == Wanted(nodes, workflow, related, k)
  {
    ResolveStep(nodes, workflow, related, k);
    WantedStep(nodes, workflow, related, k);
  }

  lemma RowsAreSane(nodes: Nodes, lists: Lists, id: int)
    requires forall kind: Kind :: Sane(nodes, id, ListIn(lists, (id, kind)))
    ensures SaneRow(nodes, id, RowIn(lists, id))
  {
  }

  lemma RoundTooLong(nodes: Nodes, workflow: int, id: int, related: Related, k: nat, before: Row, now: Lists,
                     first: Plans)
    requires TargetsResolve(nodes, workflow, related, k) && TooLong(RowIn(now, id))
    requires Progress(before, RowIn(now, id), Wanted(nodes, workflow, related, k), first)
    requires forall kind: Kind :: Sane(nodes, id, ListIn(now, (id, kind)))
    ensures TooLong(before) || TooMany(related)
  {
    RowsAreSane(nodes, now, id);
    LongMeansMany(nodes, workflow, id, related, k, before, RowIn(now, id), first);
  }

  /** One round of the loop over the kinds of edges, for a node that was found. */
  method LinkRound(server: WorkflowServer, workflow: int, identifier: string, id: int, related: Related, k: nat,
                   had: Targets, secrets: bool, ghost before: Row, ghost start: Log, ghost first: Plans)
    returns (ending: Ending, wanted: Targets, ghost plans: Plans)
    requires server.Valid() && id in Matching(server.nodes, workflow, SearchFor(identifier)) && k < 3
    requires Halfway(server, workflow, id, related, k, before, start, had, first)
    modifies server, server.edges
    ensures server.Valid() && server.nodes == old(server.nodes) && server.nextId == old(server.nextId)
    ensures OnlyRow(id, old(server.edges.lists), server.edges.lists)
    ensures ending == Done ==> Halfway(server, workflow, id, related, k + 1, before, start, wanted, plans)
    ensures ending != Done ==>
              || server.edges.budget == 0 || TooLong(before) || TooMany(related)
              || !TargetsResolve(server.nodes, workflow, related, 3)
              || PatchRefused(workflow, identifier, RulesOf(server, secrets))
  {
    wanted, plans := had, first;
    ghost var nodes, now, log, second := server.nodes, server.edges.lists, server.edges.log, NO_PLANS;
    if KindAt(k) !in related {
      RoundSkipped(nodes, workflow, related, k);
      return Done, wanted, plans;
    }
    assert forall kind: Kind :: Sane(nodes, id, server.edges.At((id, kind)));
    ending, wanted, second :=
      LinkKind(server, workflow, identifier, One(id), KindAt(k), related[KindAt(k)], had, secrets);
    if ending == Done {
      RoundDone(nodes, workflow, id, related, k, before, start, had, wanted, now, server.edges.lists, log,
                first, second);
      plans := first.With(KindAt(k), second.Of(KindAt(k)));
    } else if TooLong(RowIn(now, id)) {
      RoundTooLong(nodes, workflow, id, related, k, before, now, first);
    }
  }

  /**
   Goes through the kinds of edges of one node that was found. A kind is applied again whenever
   a later one is, yet each is paid for once: the POSTs are one plan for each kind, made from
   the state before.
   */
  method LinkNode(server: WorkflowServer, workflow: int, identifier: string, id: int, related: Related, secrets: bool)
    returns (ending: Ending, ghost plans: Plans)
    requires server.Valid() && id in Matching(server.nodes, workflow, SearchFor(identifier))
    modifies server, server.edges
    ensures server.Valid() && server.nodes == old(server.nodes) && server.nextId == old(server.nextId)
    ensures var before, now := old(server.edges.lists), server.edges.lists;
            && OnlyRow(id, before, now)
            && (ending == Done ==>
                  && TargetsResolve(server.nodes, workflow, related, 3)
                  && Progress(RowIn(before, id), RowIn(now, id), Wanted(server.nodes, workflow, related, 3), plans)
                  && server.edges.log == old(server.edges.log) + Posts(id, plans))
            && (ending != Done ==>
                  || server.edges.budget == 0 || TooLong(RowIn(before, id)) || TooMany(related)
                  || !TargetsResolve(server.nodes, workflow, related, 3)
                  || PatchRefused(workflow, identifier, RulesOf(server, secrets)))
  {
    var wanted: Targets := map[];
    plans := NO_PLANS;
    ghost var before, start := RowIn(server.edges.lists, id), server.edges.log;
    assert Posts(id, plans) == [];
    for k := 0 to 3
      invariant server.Valid() && server.nodes == old(server.nodes) && server.nextId == old(server.nextId)
      invariant OnlyRow(id, old(server.edges.lists), server.edges.lists)
      invariant Halfway(server, workflow, id, related, k, before, start, wanted, plans)
    {
      ending, wanted, plans :=
        LinkRound(server, workflow, identifier, id, related, k, wanted, secrets, before, start, plans);
      if ending != Done {
        return;
      }
    }
    ending := Done;
  }

  // ---------------------------------------------------------------- linking a node that is not there

  /** Declared kinds lead exactly to the declared targets, other kinds are as they were. */
  ghost predicate Reached(before: Row, now: Row, goal: Targets) {
    forall kind: Kind ::
      if kind in goal then Elems(now.Of(kind)) == Elems(goal[kind]) else now.Of(kind) == before.Of(kind)
  }

  lemma ProgressReaches(before: Row, now: Row, wanted: Targets, plans: Plans)
    requires Progress(before, now, wanted, plans)
    ensures Reached(before, now, wanted)
  {
    forall kind: Kind
      ensures if kind in wanted then Elems(now.Of(kind)) == Elems(wanted[kind]) else now.Of(kind) == before.Of(kind)
    {
      assert Handled(before.Of(kind), now.Of(kind), wanted, kind, plans.Of(kind));
    }
  }

  const NO_EDGES: Row := ByKind([], [], [])

  function EarlierKinds(related: Related, k: nat): set<Kind> {
    set kind | kind in related && Rank(kind) < k
  }

  /** The nodes with so many of the same content added under the ids that follow. */
  function Copies(nodes: Nodes, nextId: int, node: Fields, count: nat): Nodes {
    if count == 0 then nodes else Copies(nodes, nextId, node, count - 1)[nextId + (count - 1) := node]
  }

  /** A declared node that nothing matches, and the server before it is linked. */
  datatype Missing = Missing(nodes: Nodes, nextId: int, workflow: int, identifier: string, related: Related) {
    /** How many nodes the first `k` kinds have added. */
    function Count(k: nat): nat {
      |EarlierKinds(related, k)|
    }

    /** Every declared kind adds a node that has the keys and nothing else. */
    function NodesAt(k: nat): Nodes {
      Copies(nodes, nextId, Keys(workflow, identifier), Count(k))
    }

    /** The node that a declared kind adds. */
    function NodeOf(kind: Kind): int {
      nextId + Count(Rank(kind))
    }

    /** The targets of the first `k` kinds are found, each when its turn comes. */
    ghost predicate Findable(k: nat) {
      forall kind | kind in related && Rank(kind) < k :: AllResolve(NodesAt(Rank(kind)), workflow, related[kind])
    }

    /** What the node added by the last of the first `k` kinds is linked to. */
    ghost function Links(k: nat): Targets
      requires Findable(k)
    {
      map kind | kind in related && related[kind] != [] && Rank(kind) < k ::
        IdsOf(NodesAt(Rank(kind)), workflow, related[kind])
    }

    ghost predicate RowAt(kind: Kind, now: Lists)
      requires Findable(Rank(kind) + 1)
    {
      Reached(NO_EDGES, RowIn(now, NodeOf(kind)), Links(Rank(kind) + 1))
    }

    /** Each added node has the edges of its own kind and of the kinds before; all other edges stay. */
    ghost predicate Repeated(k: nat, before: Lists, now: Lists)
      requires Findable(k)
    {
      && (forall n | !(nextId <= n < nextId + Count(k)) :: RowIn(now, n) == RowIn(before, n))
      && (forall kind | kind in related && Rank(kind) < k :: RowAt(kind, now))
    }

    lemma CountStep(k: nat)
      requires k < 3
      ensures Count(k + 1) == Count(k) + if KindAt(k) in related then 1 else 0
      ensures NodesAt(k + 1) ==
              if KindAt(k) in related then NodesAt(k)[nextId + Count(k) := Keys(workflow, identifier)] else NodesAt(k)
    {
      assert forall kind: Kind :: Rank(kind) == k ==> kind == KindAt(k);
      var more := if KindAt(k) in related then {KindAt(k)} else {};
      assert EarlierKinds(related, k + 1) == EarlierKinds(related, k) + more;
    }

    lemma CountMore(k: nat, id: int)
      requires k < 3 && KindAt(k) in related && id == nextId + Count(k)
      ensures Count(k + 1) == Count(k) + 1
      ensures NodesAt(k + 1) == NodesAt(k)[id := Keys(workflow, identifier)]
    {
      CountStep(k);
    }

    lemma FindableStep(k: nat)
      requires k < 3 && Findable(k)
      ensures Findable(k + 1) <==>
                KindAt(k) !in related || AllResolve(NodesAt(k), workflow, related[KindAt(k)])
    {
      assert Rank(KindAt(k)) == k;
      assert forall kind: Kind :: Rank(kind) == k ==> kind == KindAt(k);
    }

    lemma LinksStep(k: nat)
      requires k < 3 && Findable(k) && Findable(k + 1)
      ensures KindAt(k) in related ==> AllResolve(NodesAt(k), workflow, related[KindAt(k)])
      ensures Links(k + 1) ==
              if KindAt(k) in related
              then With(Links(k), KindAt(k), IdsOf(NodesAt(k), workflow, related[KindAt(k)])) else Links(k)
    {
      FindableStep(k);
      var had, has := Links(k), Links(k + 1);
      forall kind: Kind
        ensures kind != KindAt(k) ==> (kind in has <==> kind in had) && (kind in had ==> has[kind] == had[kind])
        ensures kind == KindAt(k) ==> kind !in had && (kind in has <==> kind in related && related[kind] != [])
      {
        assert KindAt(Rank(kind)) == kind && Rank(KindAt(k)) == k;
      }
    }

    lemma FewerBefore(i: nat, k: nat)
      requires i <= k
      ensures Count(i) <= Count(k)
    {
      SubsetSize(EarlierKinds(related, i), EarlierKinds(related, k));
    }

    lemma EarlierRow(kind: Kind, k: nat, now: Lists, next: Lists)
      requires kind in related && Rank(kind) < k && OnlyRow(nextId + Count(k), now, next)
      requires Findable(k) && RowAt(kind, now)
      ensures RowAt(kind, next)
    {
      assert KindAt(Rank(kind)) == kind;
      CountStep(Rank(kind));
      FewerBefore(Rank(kind) + 1, k);
    }

    lemma OwnRow(k: nat, now: Lists, plans: Plans)
      requires k < 3 && Findable(k + 1) && Progress(NO_EDGES, RowIn(now, nextId + Count(k)), Links(k + 1), plans)
      ensures Findable(Rank(KindAt(k)) + 1) && RowAt(KindAt(k), now)
    {
      assert Rank(KindAt(k)) == k;
      ProgressReaches(NO_EDGES, RowIn(now, nextId + Count(k)), Links(k + 1), plans);
    }

    lemma RepeatedStep(k: nat, before: Lists, now: Lists, next: Lists, plans: Plans)
      requires k < 3 && Findable(k) && Findable(k + 1) && KindAt(k) in related
      requires Repeated(k, before, now) && OnlyRow(nextId + Count(k), now, next)
      requires Progress(NO_EDGES, RowIn(next, nextId + Count(k)), Links(k + 1), plans)
      ensures Repeated(k + 1, before, next)
    {
      CountStep(k);
      OwnRow(k, next, plans);
      forall kind | kind in related && Rank(kind) < k + 1 ensures RowAt(kind, next) {
        if Rank(kind) < k {
          EarlierRow(kind, k, now, next);
        } else {
          assert kind == KindAt(Rank(kind)) == KindAt(k);
        }
      }
    }

    lemma AgainStep(k: nat, id: int, had: Targets, wanted: Targets, before: Lists, now: Lists, next: Lists,
                    plans: Plans)
      requires k < 3 && KindAt(k) in related && AllResolve(NodesAt(k), workflow, related[KindAt(k)])
      requires Findable(k) && had == Links(k) && id == nextId + Count(k)
      requires wanted == With(had, KindAt(k), IdsOf(NodesAt(k), workflow, related[KindAt(k)]))
      requires Repeated(k, before, now) && OnlyRow(id, now, next)
      requires RowIn(now, id) == NO_EDGES && Progress(RowIn(now, id), RowIn(next, id), wanted, plans)
      ensures Findable(k + 1) && wanted == Links(k + 1) && Repeated(k + 1, before, next)
    {
      FindableStep(k);
      LinksStep(k);
      RepeatedStep(k, before, now, next, plans);
    }

    lemma NeverFindable(k: nat)
      requires k < 3 && KindAt(k) in related && !AllResolve(NodesAt(k), workflow, related[KindAt(k)])
      ensures !Findable(3)
    {
      assert Rank(KindAt(k)) == k;
    }

    lemma RepeatedSkip(k: nat, before: Lists, now: Lists)
      requires k < 3 && Findable(k) && KindAt(k) !in related && Repeated(k, before, now)
      ensures Findable(k + 1) && Links(k + 1) == Links(k) && Repeated(k + 1, before, now)
    {
      CountStep(k);
      FindableStep(k);
      LinksStep(k);
      forall kind | kind in related && Rank(kind) < k + 1 ensures Rank(kind) < k {
        assert KindAt(Rank(kind)) == kind;
      }
    }
  }

  /** One round of the loop over the kinds of edges, for a node that was not found. */
  method LinkAgain(server: WorkflowServer, ghost gone: Missing, workflow: int, identifier: string, related: Related,
                   k: nat, had: Targets, secrets: bool, ghost before: Lists)
    returns (ending: Ending, wanted: Targets)
    requires gone.workflow == workflow && gone.identifier == identifier && gone.related == related
    requires server.Valid() && TargetsIn(server.nodes, workflow, had) && k < 3
    requires gone.Findable(k) && had == gone.Links(k) && gone.Repeated(k, before, server.edges.lists)
    requires server.nextId == gone.nextId + gone.Count(k) && server.nodes == gone.NodesAt(k)
    requires AllKept(gone.nodes, before, server.nodes, server.edges.lists)
    modifies server, server.edges
    ensures server.Valid() && AllKept(gone.nodes, before, server.nodes, server.edges.lists)
    ensures ending == Done ==>
              && TargetsIn(server.nodes, workflow, wanted)
              && gone.Findable(k + 1) && wanted == gone.Links(k + 1)
              && gone.Repeated(k + 1, before, server.edges.lists)
              && server.nextId == gone.nextId + gone.Count(k + 1) && server.nodes == gone.NodesAt(k + 1)
    ensures ending != Done ==>
              server.edges.budget == 0 || !gone.Findable(3) || !server.accepts(Keys(workflow, identifier))
  {
    wanted := had;
    ghost var id, now, plans := server.nextId, server.edges.lists, NO_PLANS;
    if KindAt(k) !in related {
      gone.CountStep(k);
      gone.RepeatedSkip(k, before, now);
      return Done, wanted;
    }
    assert forall kind: Kind :: Sane(server.nodes, id, server.edges.At((id, kind)));
    NoEdgesYet(server.nodes, now, id);
    ending, wanted, plans :=
      LinkKind(server, workflow, identifier, Nobody, KindAt(k), related[KindAt(k)], had, secrets);
    KeyedKeepsAll(gone.NodesAt(k), id, (server.nodes, server.nextId), Keys(workflow, identifier), now,
                  server.edges.lists);
    AllKeptOn(gone.nodes, before, gone.NodesAt(k), now, server.nodes, server.edges.lists);
    if ending == Done {
      gone.CountMore(k, id);
      gone.AgainStep(k, id, had, wanted, before, now, server.edges.lists, plans);
    } else if !AllResolve(gone.NodesAt(k), workflow, related[KindAt(k)]) {
      gone.NeverFindable(k);
    }
  }

  lemma KeyedKeepsAll(nodes: Nodes, nextId: int, keyed: (Nodes, int), keys: Fields, lists: Lists, now: Lists)
    requires (forall id | id in nodes :: id < nextId) && OnlyRow(nextId, lists, now)
    requires keyed.0 == nodes || keyed.0 == nodes[nextId := keys]
    ensures AllKept(nodes, lists, keyed.0, now)
  {
  }

  lemma NoEdgesYet(nodes: Nodes, lists: Lists, id: int)
    requires id !in nodes && forall kind: Kind :: Sane(nodes, id, ListIn(lists, (id, kind)))
    ensures RowIn(lists, id) == NO_EDGES && !TooLong(RowIn(lists, id))
  {
    var row := RowIn(lists, id);
    assert forall kind: Kind :: Sane(nodes, id, row.Of(kind));
    assert row.Of(Always) == row.Of(Success) == row.Of(Failure) == [];
  }

  /**
   A node that is not found is created again for every kind of edges declared for it: the first
   of the new nodes has the edges of one kind, the last those of all.
   */
  method LinkMissing(server: WorkflowServer, workflow: int, identifier: string, related: Related, secrets: bool)
    returns (ending: Ending)
    requires server.Valid() && Matching(server.nodes, workflow, SearchFor(identifier)) == {}
    modifies server, server.edges
    ensures server.Valid()
    ensures AllKept(old(server.nodes), old(server.edges.lists), server.nodes, server.edges.lists)
    ensures var gone := Missing(old(server.nodes), old(server.nextId), workflow, identifier, related);
            && (ending == Done ==>
                  && gone.Findable(3) && server.nextId == gone.nextId + |related.Keys|
                  && server.nodes == gone.NodesAt(3)
                  && gone.Repeated(3, old(server.edges.lists), server.edges.lists))
            && (ending != Done ==>
                  server.edges.budget == 0 || !gone.Findable(3) || !server.accepts(Keys(workflow, identifier)))
  {
    ghost var gone, before := Missing(server.nodes, server.nextId, workflow, identifier, related), server.edges.lists;
    var wanted: Targets := map[];
    for k := 0 to 3
      invariant server.Valid() && TargetsIn(server.nodes, workflow, wanted)
      invariant gone.Findable(k) && wanted == gone.Links(k) && gone.Repeated(k, before, server.edges.lists)
      invariant server.nextId == gone.nextId + gone.Count(k) && server.nodes == gone.NodesAt(k)
      invariant AllKept(gone.nodes, before, server.nodes, server.edges.lists)
    {
      ending, wanted := LinkAgain(server, gone, workflow, identifier, related, k, wanted, secrets, before);
      if ending != Done {
        return;
      }
    }
    assert EarlierKinds(related, 3) == related.Keys;
    ending := Done;
  }

  // ---------------------------------------------------------------- linking the declared nodes

  ghost predicate GoalExists(nodes: Nodes, workflow: int, spec: NodeSpec) {
    spec.related.Some? ==> TargetsResolve(nodes, workflow, spec.related.value, 3)
  }

  /** What is declared of a node's edges. */
  ghost function Goal(nodes: Nodes, workflow: int, spec: NodeSpec): Targets
    requires GoalExists(nodes, workflow, spec)
  {
    if spec.related == None then map[] else Wanted(nodes, workflow, spec.related.value, 3)
  }

  ghost function SpecId(nodes: Nodes, workflow: int, spec: NodeSpec): int {
    if Resolves(nodes, workflow, spec.identifier) then IdOf(nodes, workflow, spec.identifier) else -1
  }

  /** The edges of one declared node, as they are now against how they were. */
  ghost predicate Linked(nodes: Nodes, workflow: int, spec: NodeSpec, before: Lists, now: Lists) {
    var id := SpecId(nodes, workflow, spec);
    GoalExists(nodes, workflow, spec) && Reached(RowIn(before, id), RowIn(now, id), Goal(nodes, workflow, spec))
  }

  /** What keeps a node from being linked: a target not found, a list too long to read, a PATCH refused. */
  ghost predicate Unmet(nodes: Nodes, workflow: int, spec: NodeSpec, before: Lists, rules: Rules) {
    || !GoalExists(nodes, workflow, spec)
    || TooLong(RowIn(before, SpecId(nodes, workflow, spec)))
    || (spec.related.Some? && (TooMany(spec.related.value) || PatchRefused(workflow, spec.identifier, rules)))
  }

  lemma SettledSendsNothing(id: int, before: Row, now: Row, wanted: Targets, plans: Plans)
    requires Progress(before, now, wanted, plans) && Reached(before, before, wanted)
    ensures Posts(id, plans) == []
  {
    forall kind: Kind ensures plans.Of(kind) == [] {
      assert Handled(before.Of(kind), now.Of(kind), wanted, kind, plans.Of(kind));
      if kind in wanted {
        NeverEmpty(before.Of(kind), wanted[kind], false, plans.Of(kind));
      }
    }
    assert plans.Of(Always) == plans.Of(Success) == plans.Of(Failure) == [];
  }

  method LinkOne(server: WorkflowServer, workflow: int, spec: NodeSpec, secrets: bool) returns (ending: Ending)
    requires server.Valid()
    modifies server, server.edges
    ensures server.Valid()
    ensures OthersKept(workflow, old(server.nodes), old(server.edges.lists), server.nodes, server.edges.lists)
    ensures spec.identifier != "" && Resolves(old(server.nodes), workflow, spec.identifier) ==>
              var nodes, before, now := server.nodes, old(server.edges.lists), server.edges.lists;
              && nodes == old(server.nodes) && server.nextId == old(server.nextId)
              && OnlyRow(SpecId(nodes, workflow, spec), before, now)
              && (ending == Done ==> Linked(nodes, workflow, spec, before, now))
              && (ending == Done && Linked(nodes, workflow, spec, before, before) ==>
                    server.edges.log == old(server.edges.log))
              && (ending != Done ==>
                    server.edges.budget == 0 || Unmet(nodes, workflow, spec, before, RulesOf(server, secrets)))
  {
    var found := server.Search(workflow, SearchFor(spec.identifier));
    ghost var hits := Matching(server.nodes, workflow, SearchFor(spec.identifier));
    assert found == Several ==> hits != {Pick(hits)};
    if found == Several {
      return Failed;
    }
    if spec.related == None {
      return Done;
    }
    if found == Nobody {
      ending := LinkMissing(server, workflow, spec.identifier, spec.related.value, secrets);
    } else {
      assert found.id in hits;
      ghost var before, plans := RowIn(server.edges.lists, found.id), NO_PLANS;
      ending, plans := LinkNode(server, workflow, spec.identifier, found.id, spec.related.value, secrets);
      if ending == Done {
        ghost var now, wanted := RowIn(server.edges.lists, found.id), Wanted(server.nodes, workflow,
            spec.related.value, 3);
        ProgressReaches(before, now, wanted, plans);
        if Reached(before, before, wanted) {
          SettledSendsNothing(found.id, before, now, wanted, plans);
        }
      }
    }
  }

  /** Every declared node is there, once. */
  ghost predicate Sources(nodes: Nodes, workflow: int, specs: seq<NodeSpec>) {
    NamedApart(specs) && forall i | 0 <= i < |specs| :: Resolves(nodes, workflow, specs[i].identifier)
  }

  ghost function Listed(nodes: Nodes, workflow: int, specs: seq<NodeSpec>, k: nat): set<int>
    requires k <= |specs|
  {
    set i | 0 <= i < k :: SpecId(nodes, workflow, specs[i])
  }

  lemma SpecIdsApart(nodes: Nodes, workflow: int, specs: seq<NodeSpec>, i: nat, j: nat)
    requires Sources(nodes, workflow, specs) && i < |specs| && j < |specs| && i != j
    ensures SpecId(nodes, workflow, specs[i]) != SpecId(nodes, workflow, specs[j])
  {
    var a, b := SpecId(nodes, workflow, specs[i]), SpecId(nodes, workflow, specs[j]);
    assert a in Matching(nodes, workflow, Some(specs[i].identifier));
    assert b in Matching(nodes, workflow, Some(specs[j].identifier));
    assert specs[i].identifier != specs[j].identifier;
  }

  /** The first `k` declared nodes are linked; every other node has the edges it had. */
  ghost predicate LinkedSoFar(nodes: Nodes, workflow: int, specs: seq<NodeSpec>, k: nat, before: Lists, now: Lists)
    requires k <= |specs|
  {
    && (forall n | n !in Listed(nodes, workflow, specs, k) :: RowIn(now, n) == RowIn(before, n))
    && (forall i | 0 <= i < k :: Linked(nodes, workflow, specs[i], before, now))
  }

  lemma UntouchedYet(nodes: Nodes, workflow: int, specs: seq<NodeSpec>, k: nat, before: Lists, now: Lists)
    requires Sources(nodes, workflow, specs) && k < |specs|
    requires LinkedSoFar(nodes, workflow, specs, k, before, now)
    ensures RowIn(now, SpecId(nodes, workflow, specs[k])) == RowIn(before, SpecId(nodes, workflow, specs[k]))
  {
    forall i | 0 <= i < k ensures SpecId(nodes, workflow, specs[i]) != SpecId(nodes, workflow, specs[k]) {
      SpecIdsApart(nodes, workflow, specs, i, k);
    }
  }

  lemma LinkedStays(nodes: Nodes, workflow: int, spec: NodeSpec, id: int, before: Lists, now: Lists, next: Lists)
    requires SpecId(nodes, workflow, spec) != id && OnlyRow(id, now, next)
    requires Linked(nodes, workflow, spec, before, now)
    ensures Linked(nodes, workflow, spec, before, next)
  {
  }

  lemma LinkedSince(nodes: Nodes, workflow: int, spec: NodeSpec, before: Lists, now: Lists, next: Lists)
    requires Linked(nodes, workflow, spec, now, next)
    requires RowIn(now, SpecId(nodes, workflow, spec)) == RowIn(before, SpecId(nodes, workflow, spec))
    ensures Linked(nodes, workflow, spec, before, next)
  {
  }

  lemma LinkedStep(nodes: Nodes, workflow: int, specs: seq<NodeSpec>, k: nat, before: Lists, now: Lists, next: Lists)
    requires Sources(nodes, workflow, specs) && k < |specs|
    requires LinkedSoFar(nodes, workflow, specs, k, before, now)
    requires OnlyRow(SpecId(nodes, workflow, specs[k]), now, next)
    requires Linked(nodes, workflow, specs[k], now, next)
    ensures LinkedSoFar(nodes, workflow, specs, k + 1, before, next)
  {
    var id := SpecId(nodes, workflow, specs[k]);
    UntouchedYet(nodes, workflow, specs, k, before, now);
    LinkedSince(nodes, workflow, specs[k], before, now, next);
    assert Listed(nodes, workflow, specs, k + 1) == Listed(nodes, workflow, specs, k) + {id};
    forall i | 0 <= i < k ensures Linked(nodes, workflow, specs[i], before, next) {
      SpecIdsApart(nodes, workflow, specs, i, k);
      LinkedStays(nodes, workflow, specs[i], id, before, now, next);
    }
  }

  /**
   Links the declared nodes in order. When each of them is there once, no node is touched, the
   declared kinds of edges become exactly what is declared, all other edges stay, and what is
   settled already costs no POST.
   */
  method LinkNodes(server: WorkflowServer, workflow: int, specs: seq<NodeSpec>, secrets: bool) returns (ending: Ending)
    requires server.Valid()
    modifies server, server.edges
    ensures server.Valid()
    ensures OthersKept(workflow, old(server.nodes), old(server.edges.lists), server.nodes, server.edges.lists)
    ensures Sources(old(server.nodes), workflow, specs) ==>
              var nodes, before, now := server.nodes, old(server.edges.lists), server.edges.lists;
              && nodes == old(server.nodes) && server.nextId == old(server.nextId)
              && (forall n | n !in Listed(nodes, workflow, specs, |specs|) :: RowIn(now, n) == RowIn(before, n))
              && (ending == Done ==> LinkedSoFar(nodes, workflow, specs, |specs|, before, now))
              && (ending == Done && LinkedSoFar(nodes, workflow, specs, |specs|, before, before) ==>
                    server.edges.log == old(server.edges.log))
              && (ending != Done ==>
                    server.edges.budget == 0 || exists i | 0 <= i < |specs| ::
                      Unmet(nodes, workflow, specs[i], before, RulesOf(server, secrets)))
  {
    ghost var nodes, before := server.nodes, server.edges.lists;
    ghost var sources := Sources(nodes, workflow, specs);
    for i := 0 to |specs|
      invariant server.Valid() && OthersKept(workflow, nodes, before, server.nodes, server.edges.lists)
      invariant sources ==> server.nodes == nodes && server.nextId == old(server.nextId)
      invariant sources ==> LinkedSoFar(nodes, workflow, specs, i, before, server.edges.lists)
      invariant sources && LinkedSoFar(nodes, workflow, specs, |specs|, before, before) ==>
                  server.edges.log == old(server.edges.log)
    {
      ghost var mid, now := server.nodes, server.edges.lists;
      ending := LinkOne(server, workflow, specs[i], secrets);
      OthersKeptOn(workflow, nodes, before, mid, now, server.nodes, server.edges.lists);
      if sources {
        UntouchedYet(nodes, workflow, specs, i, before, now);
        if ending == Done {
          LinkedStep(nodes, workflow, specs, i, before, now, server.edges.lists);
        }
        assert Linked(nodes, workflow, specs[i], before, before) <==> Linked(nodes, workflow, specs[i], now, now);
        assert Unmet(nodes, workflow, specs[i], before, RulesOf(server, secrets)) <==>
                 Unmet(nodes, workflow, specs[i], now, RulesOf(server, secrets));
      }
      if ending != Done {
        assert forall n | n !in Listed(nodes, workflow, specs, |specs|) :: n !in Listed(nodes, workflow, specs, i);
        assert SpecId(nodes, workflow, specs[i]) in Listed(nodes, workflow, specs, |specs|);
        return;
      }
    }
    ending := Done;
  }
}
