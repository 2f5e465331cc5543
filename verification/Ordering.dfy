/**
 Byte-wise string order and sorting by a string key, with the fact that a set of
 names has only one sorted listing.
 */
module Ordering {
  predicate Less(a: string, b: string) {
    if b == [] then false
    else if a == [] then true
    else if a[0] != b[0] then a[0] < b[0]
    else Less(a[1..], b[1..])
  }

  lemma LessIrreflexive(a: string)
    ensures !Less(a, a)
  {
  }

  lemma LessTotal(a: string, b: string)
    ensures a != b ==> Less(a, b) || Less(b, a)
  {
    if a != [] && b != [] && a[0] == b[0] {
      LessTotal(a[1..], b[1..]);
      assert a == [a[0]] + a[1..] && b == [b[0]] + b[1..];
    }
  }

  lemma LessTransitive(a: string, b: string, c: string)
    requires Less(a, b) && Less(b, c)
    ensures Less(a, c)
  {
  }

  ghost predicate StrictlySorted<T>(xs: seq<T>, key: T -> string) {
    forall i, j :: 0 <= i < j < |xs| ==> Less(key(xs[i]), key(xs[j]))
  }

  ghost predicate DistinctKeys<T>(xs: seq<T>, key: T -> string) {
    forall i, j :: 0 <= i < j < |xs| ==> key(xs[i]) != key(xs[j])
  }

  function InsertBy<T>(x: T, xs: seq<T>, key: T -> string): seq<T> {
    if xs == [] then [x]
    else if Less(key(xs[0]), key(x)) then [xs[0]] + InsertBy(x, xs[1..], key)
    else [x] + xs
  }

  /** Stands for the library sort; used on distinct keys only. */
  function SortBy<T>(xs: seq<T>, key: T -> string): seq<T> {
    if xs == [] then [] else InsertBy(xs[0], SortBy(xs[1..], key), key)
  }

  lemma {:induction false} InsertByMembers<T(!new)>(x: T, xs: seq<T>, key: T -> string)
    ensures forall y :: y in InsertBy(x, xs, key) <==> y == x || y in xs
    ensures |InsertBy(x, xs, key)| == |xs| + 1
  {
    if xs != [] {
      assert xs == [xs[0]] + xs[1..];
      InsertByMembers(x, xs[1..], key);
    }
  }

  lemma {:induction false} InsertBySorted<T(!new)>(x: T, xs: seq<T>, key: T -> string)
    requires StrictlySorted(xs, key)
    requires forall y :: y in xs ==> key(y) != key(x)
    ensures StrictlySorted(InsertBy(x, xs, key), key)
  {
    if xs != [] {
      var r := InsertBy(x, xs, key);
      LessTotal(key(xs[0]), key(x));
      if Less(key(xs[0]), key(x)) {
        var t := InsertBy(x, xs[1..], key);
        InsertBySorted(x, xs[1..], key);
        InsertByMembers(x, xs[1..], key);
        forall j | 0 < j < |r|
          ensures Less(key(r[0]), key(r[j]))
        {
          assert r[j] == t[j - 1] && t[j - 1] in t;
          if t[j - 1] != x {
            var tail := xs[1..];
            assert t[j - 1] in tail;
            var k :| 0 <= k < |tail| && tail[k] == t[j - 1];
            assert xs[k + 1] == t[j - 1];
          }
        }
      } else {
        forall j | 0 < j < |r|
          ensures Less(key(r[0]), key(r[j]))
        {
          if j > 1 {
            LessTransitive(key(x), key(xs[0]), key(xs[j - 1]));
          }
        }
      }
    }
  }

  lemma {:induction false} SortByCorrect<T(!new)>(xs: seq<T>, key: T -> string)
    requires DistinctKeys(xs, key)
    ensures StrictlySorted(SortBy(xs, key), key)
    ensures forall y :: y in SortBy(xs, key) <==> y in xs
  {
    if xs != [] {
      assert xs == [xs[0]] + xs[1..];
      SortByCorrect(xs[1..], key);
      forall y | y in SortBy(xs[1..], key)
        ensures key(y) != key(xs[0])
      {
        var tail := xs[1..];
        assert y in tail;
        var k :| 0 <= k < |tail| && tail[k] == y;
        assert xs[k + 1] == y;
      }
      InsertBySorted(xs[0], SortBy(xs[1..], key), key);
      InsertByMembers(xs[0], SortBy(xs[1..], key), key);
    }
  }

  /** Two strictly sorted sequences with the same members are equal. */
  lemma {:induction false} SortedUnique<T(!new)>(xs: seq<T>, ys: seq<T>, key: T -> string)
    requires StrictlySorted(xs, key) && StrictlySorted(ys, key)
    requires forall y :: y in xs <==> y in ys
    ensures xs == ys
  {
    assert |xs| > 0 ==> xs[0] in ys;
    assert |ys| > 0 ==> ys[0] in xs;
    if xs != [] && ys != [] {
      HeadIsLeast(xs, ys[0], key);
      HeadIsLeast(ys, xs[0], key);
      if xs[0] != ys[0] {
        LessTransitive(key(xs[0]), key(ys[0]), key(xs[0]));
        LessIrreflexive(key(xs[0]));
      }
      forall y ensures y in xs[1..] <==> y in ys[1..] {
        TailMembers(xs, y, key);
        TailMembers(ys, y, key);
      }
      SortedUnique(xs[1..], ys[1..], key);
      assert xs == [xs[0]] + xs[1..] && ys == [ys[0]] + ys[1..];
    }
  }

  lemma HeadIsLeast<T(!new)>(xs: seq<T>, y: T, key: T -> string)
    requires xs != [] && StrictlySorted(xs, key) && y in xs
    ensures y == xs[0] || Less(key(xs[0]), key(y))
  {
  }

  lemma TailMembers<T(!new)>(xs: seq<T>, y: T, key: T -> string)
    requires xs != [] && StrictlySorted(xs, key)
    ensures y in xs[1..] <==> y in xs && y != xs[0]
  {
    LessIrreflexive(key(xs[0]));
    assert xs == [xs[0]] + xs[1..];
    forall j | 0 <= j < |xs[1..]|
      ensures xs[1..][j] != xs[0]
    {
      assert Less(key(xs[0]), key(xs[j + 1]));
    }
  }

  const Id: string -> string := s => s

  /** The names of a set in byte order. */
  ghost function SortedNames(s: set<string>): (names: seq<string>)
    ensures StrictlySorted(names, Id)
    ensures forall n :: n in names <==> n in s
  {
    if s == {} then []
    else
      var x :| x in s;
      var rest := SortedNames(s - {x});
      InsertBySorted(x, rest, Id);
      InsertByMembers(x, rest, Id);
      InsertBy(x, rest, Id)
  }

  /** The values of a map in the byte order of their names. */
  ghost function Listing<T>(m: map<string, T>): (r: seq<T>)
    ensures |r| == |SortedNames(m.Keys)|
  {
    var ns := SortedNames(m.Keys);
    seq(|ns|, i requires 0 <= i < |ns| => m[ns[i]])
  }

  lemma ListingMembers<T(!new)>(m: map<string, T>, x: T)
    ensures x in Listing(m) <==> exists n :: n in m && m[n] == x
  {
    var ns := SortedNames(m.Keys);
    if x in Listing(m) {
      var i :| 0 <= i < |ns| && Listing(m)[i] == x;
      assert ns[i] in m;
    }
    if n :| n in m && m[n] == x {
      assert n in ns;
      var i :| 0 <= i < |ns| && ns[i] == n;
      assert Listing(m)[i] == x;
    }
  }

  ghost predicate KeyedBy<T>(m: map<string, T>, key: T -> string) {
    forall n :: n in m ==> key(m[n]) == n
  }

  lemma ListingSorted<T(!new)>(m: map<string, T>, key: T -> string)
    requires KeyedBy(m, key)
    ensures StrictlySorted(Listing(m), key)
  {
    var ns := SortedNames(m.Keys);
    forall i, j | 0 <= i < j < |ns|
      ensures Less(key(Listing(m)[i]), key(Listing(m)[j]))
    {
      assert ns[i] in m && ns[j] in m && Less(Id(ns[i]), Id(ns[j]));
    }
  }

  /** Sorting any enumeration of a keyed map gives its listing. */
  lemma SortedEnumeration<T(!new)>(m: map<string, T>, xs: seq<T>, key: T -> string)
    requires KeyedBy(m, key) && DistinctKeys(xs, key)
    requires forall x :: x in xs <==> key(x) in m && m[key(x)] == x
    ensures SortBy(xs, key) == Listing(m)
  {
    SortByCorrect(xs, key);
    ListingSorted(m, key);
    forall x ensures x in SortBy(xs, key) <==> x in Listing(m) {
      ListingMembers(m, x);
    }
    SortedUnique(SortBy(xs, key), Listing(m), key);
  }
}
