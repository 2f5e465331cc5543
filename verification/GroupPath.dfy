/**
 Parsing the group path of a push request. Base64 decoding is a parameter, so what is said
 here holds for every decoder.
 */
module GroupPath {
  import opened Types
  import opened GroupKey

  type Decoder = string -> Option<string>

  datatype PathError = BadPath | OddParts | BadEncoding | EmptyName | EmptyJob | DuplicateLabel

  datatype ParsedGroupKey = ParsedGroupKey(canonical: string, labels: Labels)

  const BASE64_SUFFIX := "@base64"

  predicate HasSuffix(s: string, suffix: string) {
    |suffix| <= |s| && s[|s| - |suffix|..] == suffix
  }

  function BaseLabelName(name: string): string {
    if HasSuffix(name, BASE64_SUFFIX) then name[..|name| - |BASE64_SUFFIX|] else name
  }

  function TrimLeft(s: string): string {
    if s != "" && s[0] == '/' then TrimLeft(s[1..]) else s
  }

  function TrimRight(s: string): string {
    if s != "" && s[|s| - 1] == '/' then TrimRight(s[..|s| - 1]) else s
  }

  function SplitSlashes(s: string): (parts: seq<string>)
    ensures |parts| >= 1
  {
    if s == "" then [""]
    else
      var rest := SplitSlashes(s[1..]);
      if s[0] == '/' then [""] + rest else [[s[0]] + rest[0]] + rest[1..]
  }

  function Parts(rest: string): seq<string> {
    SplitSlashes(TrimRight(TrimLeft(rest)))
  }

  /** The value a pair of path parts denotes, if it decodes. */
  function PairValue(p: (string, string), decode: Decoder): Option<string> {
    if HasSuffix(p.0, BASE64_SUFFIX) then decode(p.1) else Some(p.1)
  }

  function Pairs(parts: seq<string>): (ps: seq<(string, string)>)
    requires |parts| % 2 == 0
    ensures |ps| == |parts| / 2
    ensures forall i :: 0 <= i < |ps| ==> ps[i] == (parts[2 * i], parts[2 * i + 1])
  {
    seq(|parts| / 2, i requires 0 <= i < |parts| / 2 => (parts[2 * i], parts[2 * i + 1]))
  }

  predicate GoodPair(p: (string, string), decode: Decoder) {
    BaseLabelName(p.0) != "" && PairValue(p, decode).Some?
  }

  predicate DistinctNames(ps: seq<(string, string)>) {
    forall i, j :: 0 <= i < j < |ps| ==> BaseLabelName(ps[i].0) != BaseLabelName(ps[j].0)
  }

  /** The paths the endpoint accepts: job first and non-empty, values that decode, no empty
      or repeated name. */
  predicate Accepted(ps: seq<(string, string)>, decode: Decoder) {
    && ps != []
    && BaseLabelName(ps[0].0) == "job"
    && (forall i :: 0 <= i < |ps| ==> GoodPair(ps[i], decode))
    && PairValue(ps[0], decode) != Some("")
    && DistinctNames(ps)
  }

  predicate AcceptedParts(parts: seq<string>, decode: Decoder) {
    |parts| % 2 == 0 && Accepted(Pairs(parts), decode)
  }

  predicate Named(ps: seq<(string, string)>, n: string) {
    exists i :: 0 <= i < |ps| && BaseLabelName(ps[i].0) == n
  }

  /** `labels` holds exactly the names and values of the pairs. */
  ghost predicate IsLabelMap(labels: Labels, ps: seq<(string, string)>, decode: Decoder) {
    && (forall n :: n in labels <==> Named(ps, n))
    && forall i :: 0 <= i < |ps| ==>
         BaseLabelName(ps[i].0) in labels && PairValue(ps[i], decode) == Some(labels[BaseLabelName(ps[i].0)])
  }

  method ParseGroupKey(rest: string, decode: Decoder) returns (r: Result<ParsedGroupKey, PathError>)
    ensures r.Ok? <==> AcceptedParts(Parts(rest), decode)
    ensures r.Ok? ==> IsLabelMap(r.value.labels, Pairs(Parts(rest)), decode)
    ensures r.Ok? ==> r.value.canonical == Canonical(r.value.labels)
  {
    var parts := Parts(rest);
    if |parts| < 2 || BaseLabelName(parts[0]) != "job" {
      return Err(BadPath);
    }
    if |parts| % 2 != 0 {
      return Err(OddParts);
    }
    var labels := ParseLabels(parts, decode);
    if labels.Err? {
      return Err(labels.error);
    }
    var canonical := CanonicalGroupKey(labels.value);
    return Ok(ParsedGroupKey(canonical, labels.value));
  }

  /** The loop over the label/value pairs. */
  method ParseLabels(parts: seq<string>, decode: Decoder) returns (r: Result<Labels, PathError>)
    requires |parts| >= 2 && |parts| % 2 == 0 && BaseLabelName(parts[0]) == "job"
    ensures r.Ok? <==> Accepted(Pairs(parts), decode)
    ensures r.Ok? ==> IsLabelMap(r.value, Pairs(parts), decode)
  {
    ghost var ps := Pairs(parts);
    ghost var k := 0;
    var labels: Labels := map[];
    var i := 0;
    assert |parts| == 2 * |ps|;
    while i < |parts|
      invariant i == 2 * k && k <= |ps| && |parts| == 2 * |ps|
      invariant Prefix(labels, ps, k, decode)
    {
      assert ps[k] == (parts[i], parts[i + 1]);
      r := ReadPair(ps, k, labels, i == 0, (parts[i], parts[i + 1]), decode);
      if r.Err? {
        return;
      }
      labels := r.value;
      i := i + 2;
      k := k + 1;
    }
    WholePrefix(labels, ps, decode);
    return Ok(labels);
  }

  /** One round of the loop: reads pair `k` into the labels. */
  method ReadPair(ghost ps: seq<(string, string)>, ghost k: nat, labels: Labels, first: bool, p: (string, string),
                  decode: Decoder) returns (r: Result<Labels, PathError>)
    requires k < |ps| && ps[k] == p && Prefix(labels, ps, k, decode) && (first <==> k == 0)
    requires BaseLabelName(ps[0].0) == "job"
    ensures if r.Ok? then Prefix(r.value, ps, k + 1, decode) else !Accepted(ps, decode)
  {
    var name := BaseLabelName(p.0);
    var value := PairValue(p, decode);
    if value.None? {
      BadPairRejected(ps, k, decode);
      return Err(BadEncoding);
    }
    if first && name != "job" {
      return Err(BadPath);
    }
    if name == "" {
      BadPairRejected(ps, k, decode);
      return Err(EmptyName);
    }
    if first && value.value == "" {
      return Err(EmptyJob);
    }
    if name in labels {
      RepeatedRejected(labels, ps, k, decode);
      return Err(DuplicateLabel);
    }
    ExtendLabels(labels, ps, k, p, value.value, decode);
    return Ok(labels[name := value.value]);
  }

  /** The first `k` pairs are acceptable and their labels read. */
  ghost predicate Prefix(labels: Labels, ps: seq<(string, string)>, k: nat, decode: Decoder)
    requires k <= |ps|
  {
    && (k > 0 ==> Accepted(ps[..k], decode))
    && IsLabelMap(labels, ps[..k], decode)
  }

  lemma WholePrefix(labels: Labels, ps: seq<(string, string)>, decode: Decoder)
    requires ps != [] && Prefix(labels, ps, |ps|, decode)
    ensures Accepted(ps, decode) && IsLabelMap(labels, ps, decode)
  {
    assert ps[..|ps|] == ps;
  }

  lemma BadPairRejected(ps: seq<(string, string)>, k: nat, decode: Decoder)
    requires k < |ps| && !GoodPair(ps[k], decode)
    ensures !Accepted(ps, decode)
  {
  }

  lemma RepeatedRejected(labels: Labels, ps: seq<(string, string)>, k: nat, decode: Decoder)
    requires k < |ps| && Prefix(labels, ps, k, decode) && BaseLabelName(ps[k].0) in labels
    ensures !Accepted(ps, decode)
  {
    assert Named(ps[..k], BaseLabelName(ps[k].0));
    var i :| 0 <= i < k && BaseLabelName(ps[..k][i].0) == BaseLabelName(ps[k].0);
    assert ps[..k][i] == ps[i];
  }

  lemma NamedSnoc(ps: seq<(string, string)>, p: (string, string), n: string)
    ensures Named(ps + [p], n) <==> Named(ps, n) || BaseLabelName(p.0) == n
  {
    var qs := ps + [p];
    if Named(ps, n) {
      var i :| 0 <= i < |ps| && BaseLabelName(ps[i].0) == n;
      assert BaseLabelName(qs[i].0) == n;
    }
    assert qs[|ps|] == p;
  }

  lemma LabelMapSnoc(labels: Labels, ps: seq<(string, string)>, p: (string, string), value: string, decode: Decoder)
    requires IsLabelMap(labels, ps, decode) && BaseLabelName(p.0) !in labels
    requires PairValue(p, decode) == Some(value)
    ensures IsLabelMap(labels[BaseLabelName(p.0) := value], ps + [p], decode)
  {
    forall n
      ensures n in labels[BaseLabelName(p.0) := value] <==> Named(ps + [p], n)
    {
      NamedSnoc(ps, p, n);
    }
  }

  lemma AcceptedSnoc(labels: Labels, ps: seq<(string, string)>, p: (string, string), decode: Decoder)
    requires IsLabelMap(labels, ps, decode) && BaseLabelName(p.0) !in labels
    requires ps != [] && Accepted(ps, decode) && GoodPair(p, decode)
    ensures Accepted(ps + [p], decode)
  {
    var qs := ps + [p];
    forall i, j | 0 <= i < j < |qs|
      ensures BaseLabelName(qs[i].0) != BaseLabelName(qs[j].0)
    {
      assert qs[i] == ps[i];
      if j < |ps| {
        assert qs[j] == ps[j];
      } else {
        assert Named(ps, BaseLabelName(ps[i].0));
      }
    }
  }

  lemma ExtendLabels(labels: Labels, ps: seq<(string, string)>, k: nat, p: (string, string), value: string,
                     decode: Decoder)
    requires k < |ps| && ps[k] == p && Prefix(labels, ps, k, decode)
    requires PairValue(p, decode) == Some(value) && BaseLabelName(p.0) !in labels && BaseLabelName(p.0) != ""
    requires k == 0 ==> BaseLabelName(p.0) == "job" && value != ""
    ensures Prefix(labels[BaseLabelName(p.0) := value], ps, k + 1, decode)
  {
    assert ps[..k + 1] == ps[..k] + [p];
    LabelMapSnoc(labels, ps[..k], p, value, decode);
    if k > 0 {
      AcceptedSnoc(labels, ps[..k], p, decode);
    }
  }

  // Which paths meet in one group

  /** The path gives label `n` the value `v`. */
  predicate Denotes(ps: seq<(string, string)>, n: string, v: string, decode: Decoder) {
    exists i :: 0 <= i < |ps| && BaseLabelName(ps[i].0) == n && PairValue(ps[i], decode) == Some(v)
  }

  lemma LabelMapDenotes(labels: Labels, ps: seq<(string, string)>, decode: Decoder, n: string, v: string)
    requires IsLabelMap(labels, ps, decode)
    ensures n in labels && labels[n] == v <==> Denotes(ps, n, v, decode)
  {
    if n in labels {
      assert Named(ps, n);
      var i :| 0 <= i < |ps| && BaseLabelName(ps[i].0) == n;
      assert PairValue(ps[i], decode) == Some(labels[n]);
    }
  }

  /** Two accepted paths, parsed to `a` and `b`, address the same group exactly when they give
      the same labels the same values. */
  lemma SameGroupIff(a: ParsedGroupKey, b: ParsedGroupKey, ps: seq<(string, string)>, qs: seq<(string, string)>,
                     decode: Decoder)
    requires a.canonical == Canonical(a.labels) && IsLabelMap(a.labels, ps, decode)
    requires b.canonical == Canonical(b.labels) && IsLabelMap(b.labels, qs, decode)
    ensures a.canonical == b.canonical <==> forall n, v :: Denotes(ps, n, v, decode) <==> Denotes(qs, n, v, decode)
  {
    CanonicalInjective(a.labels, b.labels);
    forall n, v
      ensures n in a.labels && a.labels[n] == v <==> Denotes(ps, n, v, decode)
      ensures n in b.labels && b.labels[n] == v <==> Denotes(qs, n, v, decode)
    {
      LabelMapDenotes(a.labels, ps, decode, n, v);
      LabelMapDenotes(b.labels, qs, decode, n, v);
    }
    if forall n, v :: Denotes(ps, n, v, decode) <==> Denotes(qs, n, v, decode) {
      forall n
        ensures n in a.labels <==> n in b.labels
        ensures n in a.labels ==> n in b.labels && a.labels[n] == b.labels[n]
      {
        if n in a.labels { assert Denotes(qs, n, a.labels[n], decode); }
        if n in b.labels { assert Denotes(ps, n, b.labels[n], decode); }
      }
      assert a.labels == b.labels;
    }
  }

  lemma TwiceCounted<T>(xs: seq<T>, i: nat, j: nat)
    requires i < j < |xs| && xs[i] == xs[j]
    ensures multiset(xs)[xs[i]] >= 2
  {
    assert xs == xs[..j] + xs[j..];
    assert xs[..j][i] in multiset(xs[..j]) && xs[j..][0] in multiset(xs[j..]);
  }

  lemma TwoIndices<T>(xs: seq<T>, x: T)
    requires multiset(xs)[x] >= 2
    ensures exists i, j :: 0 <= i < j < |xs| && xs[i] == x && xs[j] == x
  {
    assert x in multiset(xs);
    var i :| 0 <= i < |xs| && xs[i] == x;
    var ys := xs[..i] + xs[i + 1..];
    assert xs == xs[..i] + [xs[i]] + xs[i + 1..];
    assert multiset(xs) == multiset(ys) + multiset{x};
    assert x in multiset(ys);
    var k :| 0 <= k < |ys| && ys[k] == x;
    var j := if k < i then k else k + 1;
    assert xs[j] == x;
    if j < i {
      assert xs[j] == x && xs[i] == x;
    } else {
      assert xs[i] == x && xs[j] == x;
    }
  }

  lemma SameMembers<T>(xs: seq<T>, ys: seq<T>)
    requires multiset(xs) == multiset(ys)
    ensures forall x :: x in xs <==> x in ys
  {
    forall x
      ensures x in xs <==> x in ys
    {
      assert x in xs <==> x in multiset(xs);
    }
  }

  lemma DistinctUnderReordering(ps: seq<(string, string)>, qs: seq<(string, string)>)
    requires multiset(ps) == multiset(qs) && DistinctNames(ps)
    ensures DistinctNames(qs)
  {
    SameMembers(ps, qs);
    forall i, j | 0 <= i < j < |qs|
      ensures BaseLabelName(qs[i].0) != BaseLabelName(qs[j].0)
    {
      if qs[i] == qs[j] {
        TwiceCounted(qs, i, j);
        TwoIndices(ps, qs[i]);
      } else {
        assert qs[i] in ps && qs[j] in ps;
        var k :| 0 <= k < |ps| && ps[k] == qs[i];
        var l :| 0 <= l < |ps| && ps[l] == qs[j];
        if k < l {
        } else {
          assert l < k;
        }
      }
    }
  }

  /** Reordering the pairs after the first changes neither acceptance nor the label map. */
  lemma OrderDoesNotMatter(ps: seq<(string, string)>, qs: seq<(string, string)>, decode: Decoder)
    requires multiset(ps) == multiset(qs) && (ps != [] ==> qs != [] && ps[0] == qs[0])
    ensures Accepted(ps, decode) <==> Accepted(qs, decode)
    ensures forall labels :: IsLabelMap(labels, ps, decode) <==> IsLabelMap(labels, qs, decode)
  {
    assert |ps| == |multiset(ps)| == |multiset(qs)| == |qs|;
    HalfOrder(ps, qs, decode);
    HalfOrder(qs, ps, decode);
  }

  lemma HalfOrder(ps: seq<(string, string)>, qs: seq<(string, string)>, decode: Decoder)
    requires multiset(ps) == multiset(qs) && (ps != [] ==> qs != [] && ps[0] == qs[0])
    ensures Accepted(ps, decode) ==> Accepted(qs, decode)
    ensures forall labels :: IsLabelMap(labels, ps, decode) ==> IsLabelMap(labels, qs, decode)
  {
    SameMembers(ps, qs);
    if DistinctNames(ps) {
      DistinctUnderReordering(ps, qs);
    }
    forall i | 0 <= i < |qs|
      ensures exists k :: 0 <= k < |ps| && ps[k] == qs[i]
    {
      assert qs[i] in ps;
    }
    forall n
      ensures Named(ps, n) <==> Named(qs, n)
    {
      if Named(ps, n) {
        var i :| 0 <= i < |ps| && BaseLabelName(ps[i].0) == n;
        assert ps[i] in qs;
      }
      if Named(qs, n) {
        var i :| 0 <= i < |qs| && BaseLabelName(qs[i].0) == n;
        assert qs[i] in ps;
      }
    }
  }

  // Reading a path back

  function JoinSlashes(parts: seq<string>): string {
    if parts == [] then ""
    else if |parts| == 1 then parts[0]
    else parts[0] + ("/" + JoinSlashes(parts[1..]))
  }

  /** Splitting cuts at every slash and loses nothing. */
  lemma {:induction false} SplitJoins(s: string)
    ensures JoinSlashes(SplitSlashes(s)) == s
    ensures forall i :: 0 <= i < |SplitSlashes(s)| ==> '/' !in SplitSlashes(s)[i]
    decreases |s|
  {
    if s != "" {
      var rest := SplitSlashes(s[1..]);
      SplitJoins(s[1..]);
      assert s == [s[0]] + s[1..];
      if s[0] == '/' {
        assert SplitSlashes(s)[1..] == rest;
        assert JoinSlashes(SplitSlashes(s)) == "" + ("/" + s[1..]);
      } else {
        assert SplitSlashes(s) == [[s[0]] + rest[0]] + rest[1..];
        if |rest| > 1 {
          assert SplitSlashes(s)[1..] == rest[1..];
          assert JoinSlashes(SplitSlashes(s)) == [s[0]] + rest[0] + ("/" + JoinSlashes(rest[1..]));
        }
      }
    }
  }

  lemma {:induction false} SplitOfJoin(part: string, tail: string)
    requires '/' !in part
    ensures SplitSlashes(part) == [part]
    ensures SplitSlashes(part + ("/" + tail)) == [part] + SplitSlashes(tail)
    decreases |part|
  {
    var s := part + ("/" + tail);
    if part == "" {
      assert s == "/" + tail && s[1..] == tail;
    } else {
      SplitOfJoin(part[1..], tail);
      assert s[1..] == part[1..] + ("/" + tail);
      assert part == [part[0]] + part[1..];
      assert ([part[1..]] + SplitSlashes(tail))[1..] == SplitSlashes(tail);
    }
  }

  lemma {:induction false} JoinSplits(parts: seq<string>)
    requires parts != [] && forall i :: 0 <= i < |parts| ==> '/' !in parts[i]
    ensures SplitSlashes(JoinSlashes(parts)) == parts
    decreases |parts|
  {
    if |parts| == 1 {
      SplitOfJoin(parts[0], "");
    } else {
      JoinSplits(parts[1..]);
      SplitOfJoin(parts[0], JoinSlashes(parts[1..]));
      assert parts == [parts[0]] + parts[1..];
    }
  }

  lemma {:induction false} JoinEnds(parts: seq<string>)
    requires parts != [] && parts[|parts| - 1] != "" && parts[0] != ""
    ensures
      var s, last := JoinSlashes(parts), parts[|parts| - 1];
      s != "" && s[0] == parts[0][0] && s[|s| - 1] == last[|last| - 1]
    decreases |parts|
  {
    if |parts| > 1 {
      var rest := parts[1..];
      JoinLast(rest);
    }
  }

  lemma {:induction false} JoinLast(parts: seq<string>)
    requires parts != [] && parts[|parts| - 1] != ""
    ensures
      var s, last := JoinSlashes(parts), parts[|parts| - 1];
      s != "" && s[|s| - 1] == last[|last| - 1]
    decreases |parts|
  {
    if |parts| > 1 {
      JoinLast(parts[1..]);
    }
  }

  /** A path is read as the parts it was joined from, if none holds a slash and neither the first
      nor the last is empty. */
  lemma PartsOfPath(parts: seq<string>)
    requires parts != [] && parts[0] != "" && parts[|parts| - 1] != ""
    requires forall i :: 0 <= i < |parts| ==> '/' !in parts[i]
    ensures Parts(JoinSlashes(parts)) == parts
    ensures Parts("/" + JoinSlashes(parts)) == parts && Parts(JoinSlashes(parts) + "/") == parts
  {
    var s := JoinSlashes(parts);
    JoinEnds(parts);
    JoinSplits(parts);
    var first, last := parts[0], parts[|parts| - 1];
    assert first[0] in first && last[|last| - 1] in last;
    assert TrimLeft(s) == s && TrimRight(s) == s;
    assert ("/" + s)[1..] == s && (s + "/")[..|s|] == s;
    assert TrimLeft("/" + s) == s && TrimLeft(s + "/") == s + "/" && TrimRight(s + "/") == s;
  }

  /** A pair of path parts that gives label `n` the value `v`: as it is, or encoded. */
  predicate Writes(p: (string, string), n: string, v: string, decode: Decoder) {
    || (p == (n, v) && !HasSuffix(n, "@base64"))
    || (p.0 == n + "@base64" && decode(p.1) == Some(v))
  }

  lemma WrittenIsRead(p: (string, string), n: string, v: string, decode: Decoder)
    requires Writes(p, n, v, decode)
    ensures BaseLabelName(p.0) == n && PairValue(p, decode) == Some(v)
  {
    if p.0 == n + BASE64_SUFFIX {
      assert p.0[|n|..] == BASE64_SUFFIX && p.0[..|n|] == n;
    }
  }

  /** Labels written out in a path, job first and no name twice, each value as it is or encoded, are
      read back, whatever they are; and the path is accepted if job is not empty. */
  lemma WrittenPathIsRead(names: seq<string>, labels: Labels, ps: seq<(string, string)>, decode: Decoder)
    requires |names| == |ps| > 0 && names[0] == "job"
    requires forall i, j :: 0 <= i < j < |names| ==> names[i] != names[j]
    requires forall n :: n in labels <==> n in names
    requires forall i :: 0 <= i < |names| ==> names[i] != "" && Writes(ps[i], names[i], labels[names[i]], decode)
    ensures IsLabelMap(labels, ps, decode)
    ensures Accepted(ps, decode) <==> labels["job"] != ""
  {
    forall i | 0 <= i < |ps|
      ensures BaseLabelName(ps[i].0) == names[i] && PairValue(ps[i], decode) == Some(labels[names[i]])
    {
      WrittenIsRead(ps[i], names[i], labels[names[i]], decode);
    }
    forall n
      ensures n in labels <==> Named(ps, n)
    {
      if n in names {
        var i :| 0 <= i < |names| && names[i] == n;
        assert BaseLabelName(ps[i].0) == n;
      }
    }
  }

  /** And nothing else is accepted: the labels of an accepted path have a job and no empty name, and
      the path names each of them once. */
  lemma AcceptedLabels(labels: Labels, ps: seq<(string, string)>, decode: Decoder)
    requires Accepted(ps, decode) && IsLabelMap(labels, ps, decode)
    ensures "job" in labels && labels["job"] != "" && "" !in labels && BaseLabelName(ps[0].0) == "job"
    ensures |labels| == |ps|
  {
    var names := NamesOf(ps);
    assert names[0] == BaseLabelName(ps[0].0) && names[0] in labels;
    forall n
      ensures n in names <==> n in labels.Keys
    {
      assert n in labels <==> Named(ps, n);
    }
    DistinctCount(names, labels.Keys);
    assert |labels| == |labels.Keys|;
  }

  function NamesOf(ps: seq<(string, string)>): (names: seq<string>)
    ensures |names| == |ps| && forall i :: 0 <= i < |ps| ==> names[i] == BaseLabelName(ps[i].0)
  {
    seq(|ps|, i requires 0 <= i < |ps| => BaseLabelName(ps[i].0))
  }

  lemma {:induction false} DistinctCount(names: seq<string>, all: set<string>)
    requires forall i, j :: 0 <= i < j < |names| ==> names[i] != names[j]
    requires forall n :: n in names <==> n in all
    ensures |all| == |names|
    decreases |names|
  {
    if names == [] {
      assert all == {};
    } else {
      var before, last := names[..|names| - 1], names[|names| - 1];
      assert names == before + [last] && last in all;
      DistinctCount(before, all - {last});
    }
  }
}
