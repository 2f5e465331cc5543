/**
 Totals over enumerations: what is gathered from all elements of a set does not depend on the
 order in which they come.
 */
module Bags {
  import opened Types

  predicate Distinct<K(==)>(xs: seq<K>) {
    forall i, j :: 0 <= i < j < |xs| ==> xs[i] != xs[j]
  }

  /** The elements of `all`, each once. */
  ghost predicate Enumerates<K(!new)>(xs: seq<K>, all: set<K>) {
    Distinct(xs) && forall x :: x in xs <==> x in all
  }

  ghost function Gathered<K, T>(xs: seq<K>, f: K -> multiset<T>): multiset<T> {
    if xs == [] then multiset{} else Gathered(xs[..|xs| - 1], f) + f(xs[|xs| - 1])
  }

  lemma GatheredSnoc<K, T>(xs: seq<K>, x: K, f: K -> multiset<T>)
    ensures Gathered(xs + [x], f) == Gathered(xs, f) + f(x)
  {
    assert (xs + [x])[..|xs|] == xs;
  }

  function WithoutAt<K>(xs: seq<K>, i: nat): seq<K>
    requires i < |xs|
  {
    xs[..i] + xs[i + 1..]
  }

  lemma {:induction false} GatheredWithout<K, T>(xs: seq<K>, i: nat, f: K -> multiset<T>)
    requires i < |xs|
    ensures Gathered(xs, f) == Gathered(WithoutAt(xs, i), f) + f(xs[i])
    decreases |xs|
  {
    var last := |xs| - 1;
    if i == last {
      assert WithoutAt(xs, i) == xs[..last];
    } else {
      GatheredWithout(xs[..last], i, f);
      assert WithoutAt(xs, i)[..last - 1] == WithoutAt(xs[..last], i);
    }
  }

  lemma EnumeratesWithout<K(!new)>(xs: seq<K>, all: set<K>, i: nat)
    requires Enumerates(xs, all) && i < |xs|
    ensures Enumerates(WithoutAt(xs, i), all - {xs[i]})
  {
    var r := WithoutAt(xs, i);
    assert forall k :: 0 <= k < |r| ==> r[k] == xs[if k < i then k else k + 1];
    forall x | x in all - {xs[i]}
      ensures x in r
    {
      var j :| 0 <= j < |xs| && xs[j] == x;
      assert r[if j < i then j else j - 1] == x;
    }
  }

  lemma HasMember<K>(xs: seq<K>)
    ensures xs == [] || exists x :: x in xs
  {
    if xs != [] {
      assert xs[0] in xs;
    }
  }

  lemma {:induction false} AnyOrderGathersTheSame<K(!new), T>(xs: seq<K>, ys: seq<K>, all: set<K>, f: K -> multiset<T>)
    requires Enumerates(xs, all) && Enumerates(ys, all)
    ensures Gathered(xs, f) == Gathered(ys, f)
    decreases |xs|
  {
    HasMember(ys);
    if xs != [] {
      var last := |xs| - 1;
      assert xs[last] in all;
      var j :| 0 <= j < |ys| && ys[j] == xs[last];
      EnumeratesWithout(xs, all, last);
      EnumeratesWithout(ys, all, j);
      AnyOrderGathersTheSame(WithoutAt(xs, last), WithoutAt(ys, j), all - {xs[last]}, f);
      GatheredWithout(xs, last, f);
      GatheredWithout(ys, j, f);
    }
  }

  /** A set can be enumerated with any of its elements at the end. */
  lemma {:induction false} EndingWith<K(!new)>(all: set<K>, x: K) returns (xs: seq<K>)
    requires x in all
    ensures Enumerates(xs, all) && xs != [] && xs[|xs| - 1] == x
    decreases |all|
  {
    var rest := all - {x};
    if rest == {} {
      xs := [x];
      assert all == {x};
    } else {
      var y :| y in rest;
      var before := EndingWith(rest, y);
      xs := before + [x];
    }
  }

  /** The position of the last element with a property. */
  function LastSuch<T>(xs: seq<T>, f: T -> bool): (r: Option<nat>)
    ensures r.Some? ==> r.value < |xs|
  {
    if xs == [] then None
    else if f(xs[|xs| - 1]) then Some(|xs| - 1)
    else LastSuch(xs[..|xs| - 1], f)
  }

  lemma {:induction false} LastSuchIsLast<T>(xs: seq<T>, f: T -> bool)
    ensures var r := LastSuch(xs, f);
            && (r.Some? ==> f(xs[r.value]))
            && forall i :: 0 <= i < |xs| && (r.Some? ==> r.value < i) ==> !f(xs[i])
    decreases |xs|
  {
    if xs != [] && !f(xs[|xs| - 1]) {
      var before := xs[..|xs| - 1];
      LastSuchIsLast(before, f);
      assert forall i :: 0 <= i < |before| ==> xs[i] == before[i];
    }
  }
}
