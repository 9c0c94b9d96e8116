/** Repairing the list of ids associated with an item, one POST at a time. */
module Associations {
  import opened Json
  import opened Collections
  import Pagination

  type Ids = seq<int>

  datatype Post = Add(id: int) | Remove(id: int)

  /** What the server does with one POST. Associating an id twice changes nothing. */
  function Apply1(ids: Ids, post: Post): Ids {
    match post
    case Add(id) => if id in ids then ids else ids + [id]
    case Remove(id) => Without(ids, id)
  }

  function Apply(ids: Ids, posts: seq<Post>): Ids {
    if posts == [] then ids
    else Apply1(Apply(ids, posts[..|posts| - 1]), posts[|posts| - 1])
  }

  function Removes(ids: Ids): (posts: seq<Post>)
    ensures |posts| == |ids| && forall i | 0 <= i < |ids| :: posts[i] == Remove(ids[i])
  {
    seq(|ids|, i requires 0 <= i < |ids| => Remove(ids[i]))
  }

  function Adds(ids: Ids): (posts: seq<Post>)
    ensures |posts| == |ids| && forall i | 0 <= i < |ids| :: posts[i] == Add(ids[i])
  {
    seq(|ids|, i requires 0 <= i < |ids| => Add(ids[i]))
  }

  /** The POSTs to send; a set is gone through in any order. */
  ghost predicate IsPlan(plan: seq<Post>, existing: Ids, desired: Ids, ordered: bool) {
    if ordered then
      plan == if existing == desired then [] else Removes(existing) + Adds(desired)
    else
      exists r, a :: IsSetPlan(plan, existing, desired, r, a)
  }

  ghost predicate IsSetPlan(plan: seq<Post>, existing: Ids, desired: Ids, r: Ids, a: Ids) {
    && plan == Removes(r) + Adds(a)
    && Enumerates(r, Elems(existing) - Elems(desired))
    && Enumerates(a, Elems(desired) - Elems(existing))
  }

  ghost predicate Settled(ids: Ids, desired: Ids, ordered: bool) {
    if ordered then ids == desired else Elems(ids) == Elems(desired)
  }

  // ---------------------------------------------------------------- the server and the repair

  /** The association lists of all items; it stops accepting when its budget is used up. */
  class AssociationServer<K(==,!new)> {
    var lists: map<K, Ids>
    var log: seq<(K, Post)>
    var budget: nat
    const pageSize: nat

    constructor (lists: map<K, Ids>, budget: nat, pageSize: nat)
      requires pageSize >= 1
      ensures this.lists == lists && log == [] && this.budget == budget && this.pageSize == pageSize
    {
      this.lists, log, this.budget, this.pageSize := lists, [], budget, pageSize;
    }

    function At(key: K): Ids
      reads this
    {
      if key in lists then lists[key] else []
    }

    method Send(key: K, post: Post) returns (ok: bool)
      modifies this
      ensures ok <==> old(budget) > 0
      ensures ok ==> lists == old(lists)[key := Apply1(old(At(key)), post)] &&
                     log == old(log) + [(key, post)] && budget == old(budget) - 1
      ensures !ok ==> unchanged(this)
    {
      ok := budget > 0;
      if ok {
        lists := lists[key := Apply1(At(key), post)];
        log := log + [(key, post)];
        budget := budget - 1;
      }
    }
  }

  function Tagged<K>(key: K, posts: seq<Post>): (log: seq<(K, Post)>)
    ensures |log| == |posts| && forall i | 0 <= i < |posts| :: log[i] == (key, posts[i])
  {
    seq(|posts|, i requires 0 <= i < |posts| => (key, posts[i]))
  }

  /** Posts the list in order until one POST is refused. */
  method SendAll<K(==,!new)>(server: AssociationServer<K>, key: K, posts: seq<Post>) returns (sent: nat)
    modifies server
    ensures sent == if |posts| <= old(server.budget) then |posts| else old(server.budget)
    ensures forall other | other != key :: server.At(other) == old(server.At(other))
    ensures server.At(key) == Apply(old(server.At(key)), posts[..sent])
    ensures server.log == old(server.log) + Tagged(key, posts[..sent])
    ensures server.budget == old(server.budget) - sent
  {
    sent := 0;
    while sent < |posts|
      invariant sent <= |posts|
      invariant server.budget == old(server.budget) - sent
      invariant server.At(key) == Apply(old(server.At(key)), posts[..sent])
      invariant forall other | other != key :: server.At(other) == old(server.At(other))
      invariant server.log == old(server.log) + Tagged(key, posts[..sent])
    {
      var ok := server.Send(key, posts[sent]);
      if !ok {
        return;
      }
      assert posts[..sent + 1][..sent] == posts[..sent];
      sent := sent + 1;
    }
  }

  /** What to take off the list and what to put on it, both empty when nothing is to be done. */
  method PlanRepair(existing: Ids, wanted: Ids, ordered: bool) returns (removal: Ids, addition: Ids)
    ensures IsPlan(Removes(removal) + Adds(addition), existing, wanted, ordered)
  {
    if ordered {
      if existing == wanted {
        return [], [];
      }
      removal, addition := existing, wanted;
    } else {
      if Elems(existing) == Elems(wanted) {
        assert IsSetPlan(Removes([]) + Adds([]), existing, wanted, [], []);
        return [], [];
      }
      removal := Enumerate(Elems(existing) - Elems(wanted));
      addition := Enumerate(Elems(wanted) - Elems(existing));
      assert IsSetPlan(Removes(removal) + Adds(addition), existing, wanted, removal, addition);
    }
  }

  /** The removals first, then the additions; the first refusal ends it. */
  method SendBoth<K(==,!new)>(server: AssociationServer<K>, key: K, removes: seq<Post>, adds: seq<Post>)
    returns (ending: Ending, sent: nat)
    modifies server
    ensures var plan := removes + adds;
            && sent == (if |plan| <= old(server.budget) then |plan| else old(server.budget))
            && ending == (if sent == |plan| then Done else Failed)
            && server.At(key) == Apply(old(server.At(key)), plan[..sent])
            && server.log == old(server.log) + Tagged(key, plan[..sent])
            && server.budget == old(server.budget) - sent
    ensures forall other | other != key :: server.At(other) == old(server.At(other))
  {
    ghost var start, log := server.At(key), server.log;
    var removed := SendAll(server, key, removes);
    PrefixOfFirst(removes, adds, removed);
    if removed < |removes| {
      return Failed, removed;
    }
    assert removes[..removed] == removes;
    var added := SendAll(server, key, adds);
    sent := removed + added;
    PrefixOfBoth(removes, adds, added);
    ApplyAppend(start, removes, adds[..added]);
    TaggedAppend(log, key, removes, adds[..added]);
    ending := if added < |adds| then Failed else Done;
  }

  lemma PrefixOfFirst<T>(first: seq<T>, second: seq<T>, k: nat)
    requires k <= |first|
    ensures (first + second)[..k] == first[..k]
  {
  }

  lemma PrefixOfBoth<T>(first: seq<T>, second: seq<T>, k: nat)
    requires k <= |second|
    ensures (first + second)[..|first| + k] == first + second[..k]
  {
  }

  lemma TaggedAppend<K>(log: seq<(K, Post)>, key: K, first: seq<Post>, second: seq<Post>)
    ensures log + Tagged(key, first) + Tagged(key, second) == log + Tagged(key, first + second)
  {
    assert Tagged(key, first + second) == Tagged(key, first) + Tagged(key, second);
  }

  datatype Ending = Done | Failed | WouldChange | Unreadable

  /**
   Brings the association list to the desired one. The POSTs sent are a prefix of a plan:
   the whole plan unless the server refuses one, none at all in check mode.
   */
  method ModifyAssociations<K(==,!new)>(server: AssociationServer<K>, key: K, ordered: bool,
                              desired: Option<Ids>, checkMode: bool)
    returns (ending: Ending, changed: bool, sent: nat, ghost plan: seq<Post>)
    requires server.pageSize >= 1
    modifies server
    ensures (desired == None || |old(server.At(key))| > Pagination.LIMIT) ==>
              plan == [] && ending == if desired == None then Done else Unreadable
    ensures desired != None && |old(server.At(key))| <= Pagination.LIMIT ==>
              && IsPlan(plan, old(server.At(key)), desired.value, ordered)
              && ending == if checkMode && plan != [] then WouldChange
                           else if sent == |plan| then Done else Failed
    ensures sent == if checkMode then 0
                    else if |plan| <= old(server.budget) then |plan| else old(server.budget)
    ensures server.At(key) == Apply(old(server.At(key)), plan[..sent])
    ensures forall other | other != key :: server.At(other) == old(server.At(other))
    ensures server.log == old(server.log) + Tagged(key, plan[..sent])
    ensures server.budget == old(server.budget) - sent
    ensures changed == (sent > 0 || ending == WouldChange)
  {
    plan, sent, changed := [], 0, false;
    if desired == None {
      return Done, changed, sent, plan;
    }
    var listing := Pagination.ReadList(server.At(key), server.pageSize);
    if listing.TooMany? {
      return Unreadable, changed, sent, plan;
    }
    var removal, addition := PlanRepair(listing.results, desired.value, ordered);
    var removes, adds := Removes(removal), Adds(addition);
    plan := removes + adds;
    if removes == [] && adds == [] {
      return Done, changed, sent, plan;
    }
    if checkMode {
      return WouldChange, true, sent, plan;
    }
    ending, sent := SendBoth(server, key, removes, adds);
    changed := sent > 0;
  }

  // ---------------------------------------------------------------- what a repair achieves

  lemma {:induction false} ApplyAppend(ids: Ids, first: seq<Post>, second: seq<Post>)
    ensures Apply(ids, first + second) == Apply(Apply(ids, first), second)
    decreases |second|
  {
    if second == [] {
      assert first + second == first;
    } else {
      var n := |second| - 1;
      assert (first + second)[..|first| + n] == first + second[..n];
      ApplyAppend(ids, first, second[..n]);
    }
  }

  lemma Apply1Elems(ids: Ids, post: Post)
    ensures Elems(Apply1(ids, post)) ==
            if post.Add? then Elems(ids) + {post.id} else Elems(ids) - {post.id}
  {
    if post.Remove? {
      WithoutElems(ids, post.id);
    } else {
      assert Elems(ids + [post.id]) == Elems(ids) + {post.id};
    }
  }

  lemma NeverEmpty(existing: Ids, desired: Ids, ordered: bool, plan: seq<Post>)
    requires IsPlan(plan, existing, desired, ordered)
    ensures plan == [] <==> Settled(existing, desired, ordered)
  {
    if !ordered {
      var r, a :| IsSetPlan(plan, existing, desired, r, a);
      NothingIn(r);
      NothingIn(a);
    }
  }

  /** How far a list is from the desired set. */
  function Distance(ids: Ids, desired: Ids): nat {
    |Elems(ids) - Elems(desired)| + |Elems(desired) - Elems(ids)|
  }

  lemma {:induction false} RemovedPrefix(ids: Ids, gone: Ids, n: nat)
    requires n <= |gone|
    ensures Elems(Apply(ids, Removes(gone)[..n])) == Elems(ids) - Elems(gone[..n])
    decreases n
  {
    if n > 0 {
      RemovedPrefix(ids, gone, n - 1);
      assert Removes(gone)[..n][..n - 1] == Removes(gone)[..n - 1];
      Apply1Elems(Apply(ids, Removes(gone)[..n - 1]), Remove(gone[n - 1]));
      assert gone[..n] == gone[..n - 1] + [gone[n - 1]];
    }
  }

  lemma {:induction false} AddedPrefix(ids: Ids, added: Ids, n: nat)
    requires n <= |added|
    ensures Elems(Apply(ids, Adds(added)[..n])) == Elems(ids) + Elems(added[..n])
    decreases n
  {
    if n > 0 {
      AddedPrefix(ids, added, n - 1);
      assert Adds(added)[..n][..n - 1] == Adds(added)[..n - 1];
      Apply1Elems(Apply(ids, Adds(added)[..n - 1]), Add(added[n - 1]));
      assert added[..n] == added[..n - 1] + [added[n - 1]];
    }
  }

  /** After `k` POSTs of a set plan: the first removals are made, then the first additions. */
  lemma SetPlanStep(existing: Ids, desired: Ids, r: Ids, a: Ids, plan: seq<Post>, k: nat)
    requires IsSetPlan(plan, existing, desired, r, a) && k <= |plan|
    ensures Elems(Apply(existing, plan[..k])) == Elems(existing) - Elems(r[..if k <= |r| then k else |r|])
                                                 + Elems(a[..if k <= |r| then 0 else k - |r|])
  {
    if k <= |r| {
      PrefixOfFirst(Removes(r), Adds(a), k);
      RemovedPrefix(existing, r, k);
    } else {
      PrefixOfBoth(Removes(r), Adds(a), k - |r|);
      ApplyAppend(existing, Removes(r), Adds(a)[..k - |r|]);
      RemovedPrefix(existing, r, |r|);
      assert Removes(r)[..|r|] == Removes(r);
      AddedPrefix(Apply(existing, Removes(r)), a, k - |r|);
    }
  }

  /** What is left of a list without repeats after its first `i` entries. */
  lemma PrefixSizes(xs: Ids, i: nat)
    requires Distinct(xs) && i <= |xs|
    ensures Elems(xs[..i]) <= Elems(xs)
    ensures |Elems(xs)| == |xs| && |Elems(xs) - Elems(xs[..i])| == |xs| - i
  {
    DistinctSize(xs);
    DistinctTail(xs, i);
  }

  lemma PartlyMoved(start: set<int>, goal: set<int>, gone: set<int>, come: set<int>)
    requires gone <= start - goal && come <= goal - start
    ensures var now := start - gone + come;
            && now - goal == start - goal - gone
            && goal - now == goal - start - come
            && start * goal <= now <= start + goal
  {
  }

  /**
   Every POST of a set repair counts: after k of them the distance has shrunk by k, the list
   never loses a wanted id it had and never gains an unwanted one.
   */
  lemma SetRepairProgress(existing: Ids, desired: Ids, plan: seq<Post>, k: nat)
    requires IsPlan(plan, existing, desired, false) && k <= |plan|
    ensures Distance(Apply(existing, plan[..k]), desired) == Distance(existing, desired) - k
    ensures |plan| == Distance(existing, desired)
    ensures Elems(existing) * Elems(desired) <= Elems(Apply(existing, plan[..k]))
    ensures Elems(Apply(existing, plan[..k])) <= Elems(existing) + Elems(desired)
  {
    var r, a :| IsSetPlan(plan, existing, desired, r, a);
    var i := if k <= |r| then k else |r|;
    SetPlanStep(existing, desired, r, a, plan, k);
    PrefixSizes(r, i);
    PrefixSizes(a, k - i);
    PartlyMoved(Elems(existing), Elems(desired), Elems(r[..i]), Elems(a[..k - i]));
  }

  lemma {:induction false} RemovedAll(ids: Ids, gone: Ids)
    requires Elems(ids) <= Elems(gone)
    ensures Apply(ids, Removes(gone)) == []
  {
    RemovedPrefix(ids, gone, |gone|);
    assert Removes(gone)[..|gone|] == Removes(gone) && gone[..|gone|] == gone;
    NothingIn(Apply(ids, Removes(gone)));
  }

  /** The list without the repeats of an id after its first occurrence. */
  function Firsts(ids: Ids): Ids {
    if ids == [] then []
    else
      var rest := Firsts(ids[..|ids| - 1]);
      if ids[|ids| - 1] in rest then rest else rest + [ids[|ids| - 1]]
  }

  lemma {:induction false} AddedAll(ids: Ids)
    ensures Apply([], Adds(ids)) == Firsts(ids)
  {
    if ids != [] {
      var n := |ids| - 1;
      assert Adds(ids)[..n] == Adds(ids[..n]);
      AddedAll(ids[..n]);
    }
  }

  lemma {:induction false} FirstsKeepsDistinct(ids: Ids)
    ensures Elems(Firsts(ids)) == Elems(ids) && |Firsts(ids)| <= |ids|
    ensures Firsts(ids) == ids <==> Distinct(ids)
  {
    if ids != [] {
      var n := |ids| - 1;
      FirstsKeepsDistinct(ids[..n]);
      assert ids == ids[..n] + [ids[n]];
      assert Elems(ids) == Elems(ids[..n]) + {ids[n]};
      assert ids[n] in ids[..n] <==> ids[n] in Elems(ids[..n]);
      if Distinct(ids) {
        assert ids[n] !in ids[..n];
      } else if Distinct(ids[..n]) {
        assert ids[n] in ids[..n];
      }
    }
  }

  /** An ordered repair ends at the desired list exactly when that list names no id twice. */
  lemma OrderedRepairSettles(existing: Ids, desired: Ids, plan: seq<Post>)
    requires IsPlan(plan, existing, desired, true)
    ensures Apply(existing, plan) == if existing == desired then desired else Firsts(desired)
    ensures Settled(Apply(existing, plan), desired, true) <==> existing == desired || Distinct(desired)
  {
    if existing != desired {
      ApplyAppend(existing, Removes(existing), Adds(desired));
      RemovedAll(existing, existing);
      AddedAll(desired);
      FirstsKeepsDistinct(desired);
    }
  }

  lemma SetRepairSettles(existing: Ids, desired: Ids, plan: seq<Post>)
    requires IsPlan(plan, existing, desired, false)
    ensures Settled(Apply(existing, plan), desired, false)
  {
    SetRepairProgress(existing, desired, plan, |plan|);
    assert plan[..|plan|] == plan;
    var now := Elems(Apply(existing, plan));
    assert now - Elems(desired) == {} && Elems(desired) - now == {};
  }

  /**
   Stop a repair after any number of POSTs and run it again: the second run settles the list,
   a third has nothing to send, and for a set the two runs together send no more than one
   undisturbed run would have.
   */
  lemma RepairConverges(existing: Ids, desired: Ids, ordered: bool, first: seq<Post>, k: nat, second: seq<Post>)
    requires ordered ==> Distinct(desired)
    requires IsPlan(first, existing, desired, ordered) && k <= |first|
    requires IsPlan(second, Apply(existing, first[..k]), desired, ordered)
    ensures var final := Apply(Apply(existing, first[..k]), second);
            && Settled(final, desired, ordered)
            && (forall third :: IsPlan(third, final, desired, ordered) ==> third == [])
    ensures !ordered ==> k + |second| == |first|
  {
    var stopped := Apply(existing, first[..k]);
    var final := Apply(stopped, second);
    if ordered {
      OrderedRepairSettles(stopped, desired, second);
    } else {
      SetRepairSettles(stopped, desired, second);
      SetRepairProgress(existing, desired, first, k);
      SetRepairProgress(stopped, desired, second, 0);
    }
    forall third | IsPlan(third, final, desired, ordered) ensures third == [] {
      NeverEmpty(final, desired, ordered, third);
    }
  }
}
