/** Sequences without repeats, and the sets they enumerate. */
module Collections {

  function Elems<T>(xs: seq<T>): set<T> {
    set x | x in xs
  }

  ghost predicate Distinct<T(!new)>(xs: seq<T>) {
    forall i, j | 0 <= i < j < |xs| :: xs[i] != xs[j]
  }

  ghost predicate Enumerates<T(!new)>(xs: seq<T>, s: set<T>) {
    Distinct(xs) && Elems(xs) == s
  }

  /** Sets and dictionaries are gone through in an order nobody promises. */
  method Enumerate<T(==,!new)>(s: set<T>) returns (xs: seq<T>)
    ensures Enumerates(xs, s)
  {
    xs := [];
    var rest := s;
    while rest != {}
      invariant rest <= s && Enumerates(xs, s - rest)
    {
      var x :| x in rest;
      rest := rest - {x};
      assert Elems(xs + [x]) == Elems(xs) + {x};
      assert s - rest == Elems(xs) + {x};
      xs := xs + [x];
    }
  }

  lemma EnumerateMore<T(!new)>(xs: seq<T>, s: set<T>, x: T)
    requires Enumerates(xs, s) && x !in s
    ensures Enumerates(xs + [x], s + {x})
  {
    assert forall i | 0 <= i < |xs| :: xs[i] in Elems(xs);
    assert Elems(xs + [x]) == Elems(xs) + {x};
  }

  /** Some element of a set, the same one each time. */
  ghost function Pick<T(!new)>(s: set<T>): (x: T)
    requires s != {}
    ensures x in s
  {
    var x :| x in s; x
  }

  lemma Singleton<T>(s: set<T>, x: T)
    requires x in s && forall y | y in s :: y == x
    ensures s == {x}
  {
  }

  lemma {:induction false} DistinctSize<T(!new)>(xs: seq<T>)
    requires Distinct(xs)
    ensures |Elems(xs)| == |xs|
  {
    if xs != [] {
      var n := |xs| - 1;
      DistinctSize(xs[..n]);
      assert Elems(xs) == Elems(xs[..n]) + {xs[n]};
    }
  }

  lemma DistinctTail<T(!new)>(xs: seq<T>, n: nat)
    requires Distinct(xs) && n <= |xs|
    ensures Elems(xs[n..]) == Elems(xs) - Elems(xs[..n]) && |Elems(xs[n..])| == |xs| - n
  {
    DistinctSize(xs[n..]);
    assert xs == xs[..n] + xs[n..];
    assert forall x | x in xs[n..] :: x !in xs[..n];
  }

  lemma NothingIn<T>(xs: seq<T>)
    ensures xs == [] <==> Elems(xs) == {}
  {
    if xs != [] {
      assert xs[0] in Elems(xs);
    }
  }

  lemma {:induction false} SubsetSize<T>(a: set<T>, b: set<T>)
    requires a <= b
    ensures |a| <= |b|
  {
    if a != {} {
      var x :| x in a;
      SubsetSize(a - {x}, b - {x});
    }
  }

  // ---------------------------------------------------------------- lists of ids

  /** The list without any occurrence of an id. */
  function Without(ids: seq<int>, id: int): seq<int> {
    if ids == [] then []
    else if ids[0] == id then Without(ids[1..], id)
    else [ids[0]] + Without(ids[1..], id)
  }

  lemma {:induction false} WithoutElems(ids: seq<int>, id: int)
    ensures Elems(Without(ids, id)) == Elems(ids) - {id}
  {
    if ids != [] {
      WithoutElems(ids[1..], id);
      assert Elems(ids) == {ids[0]} + Elems(ids[1..]);
      assert ids[0] != id ==> Elems(Without(ids, id)) == {ids[0]} + Elems(Without(ids[1..], id));
    }
  }

  lemma {:induction false} WithoutDistinct(ids: seq<int>, id: int)
    requires Distinct(ids)
    ensures Distinct(Without(ids, id))
  {
    if ids != [] {
      assert Distinct(ids[1..]);
      WithoutDistinct(ids[1..], id);
      WithoutElems(ids[1..], id);
      assert ids[0] !in Elems(ids[1..]);
      assert ids[0] !in Elems(Without(ids[1..], id));
    }
  }

  lemma {:induction false} WithoutAbsent(ids: seq<int>, id: int)
    requires id !in ids
    ensures Without(ids, id) == ids
  {
    if ids != [] {
      WithoutAbsent(ids[1..], id);
    }
  }
}
