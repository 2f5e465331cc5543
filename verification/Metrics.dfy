/**
 Metrics as values: labels with first-match lookup, injection of grouping labels, families
 accumulated from a pushed body, and the metrics a scrape must show.
 */
module Metrics {
  import opened Types
  import opened GroupKey

  datatype LabelPair = LabelPair(name: string, value: string)

  /** `sample` stands for everything of a metric that is not a label. */
  datatype Metric = Metric(labels: seq<LabelPair>, sample: int)

  datatype Family = Family(name: string, help: string, kind: string, metrics: seq<Metric>)

  type Families = map<string, Family>

  // Labels

  /** The value under which a reader of the label list finds `n`. */
  function Lookup(ls: seq<LabelPair>, n: string): Option<string> {
    if ls == [] then None
    else if ls[0].name == n then Some(ls[0].value)
    else Lookup(ls[1..], n)
  }

  predicate DistinctLabels(ls: seq<LabelPair>) {
    forall i, j :: 0 <= i < j < |ls| ==> ls[i].name != ls[j].name
  }

  predicate HasLabel(ls: seq<LabelPair>, n: string) {
    exists i :: 0 <= i < |ls| && ls[i].name == n
  }

  /** `setLabel` on a label list: the first pair of that name is replaced, else one is appended. */
  function WithLabel(ls: seq<LabelPair>, n: string, v: string): seq<LabelPair> {
    if ls == [] then [LabelPair(n, v)]
    else if ls[0].name == n then [LabelPair(n, v)] + ls[1..]
    else [ls[0]] + WithLabel(ls[1..], n, v)
  }

  lemma {:induction false} WithLabelLookup(ls: seq<LabelPair>, n: string, v: string, x: string)
    ensures Lookup(WithLabel(ls, n, v), x) == if x == n then Some(v) else Lookup(ls, x)
    decreases |ls|
  {
    if ls != [] && ls[0].name != n {
      WithLabelLookup(ls[1..], n, v, x);
      assert WithLabel(ls, n, v)[1..] == WithLabel(ls[1..], n, v);
    }
  }

  lemma {:induction false} WithLabelNames(ls: seq<LabelPair>, n: string, v: string)
    ensures forall x :: HasLabel(WithLabel(ls, n, v), x) <==> x == n || HasLabel(ls, x)
    ensures DistinctLabels(ls) ==> DistinctLabels(WithLabel(ls, n, v))
    decreases |ls|
  {
    if ls == [] {
      assert WithLabel(ls, n, v)[0].name == n;
    } else {
      var tail, r := ls[1..], WithLabel(ls, n, v);
      var rest := if ls[0].name == n then tail else WithLabel(tail, n, v);
      WithLabelNames(tail, n, v);
      var head := if ls[0].name == n then LabelPair(n, v) else ls[0];
      assert r == [head] + rest && ls == [ls[0]] + tail;
      forall x
        ensures HasLabel(r, x) <==> x == head.name || HasLabel(rest, x)
        ensures HasLabel(ls, x) <==> x == ls[0].name || HasLabel(tail, x)
      {
        ConsHasLabel(head, rest, x);
        ConsHasLabel(ls[0], tail, x);
      }
      if DistinctLabels(ls) {
        forall i, j | 0 <= i < j < |tail|
          ensures tail[i].name != tail[j].name
        {
          assert tail[i] == ls[i + 1] && tail[j] == ls[j + 1];
        }
        forall k | 0 <= k < |tail|
          ensures tail[k].name != ls[0].name
        {
          assert tail[k] == ls[k + 1];
        }
        forall i, j | 0 <= i < j < |r|
          ensures r[i].name != r[j].name
        {
          assert r[j] == rest[j - 1];
          if i == 0 {
            assert HasLabel(rest, r[j].name);
          } else {
            assert r[i] == rest[i - 1];
          }
        }
      }
    }
  }

  lemma ConsHasLabel(p: LabelPair, ls: seq<LabelPair>, x: string)
    ensures HasLabel([p] + ls, x) <==> x == p.name || HasLabel(ls, x)
  {
    var r := [p] + ls;
    assert r[0] == p;
    if i :| 0 <= i < |ls| && ls[i].name == x {
      assert r[i + 1].name == x;
    }
    if j :| 0 <= j < |r| && r[j].name == x && x != p.name {
      assert ls[j - 1].name == x;
    }
  }

  /** The grouping labels win and every other label is found as before. */
  ghost predicate Overridden(old_: Metric, new_: Metric, labels: Labels) {
    && new_.sample == old_.sample
    && (forall x :: Lookup(new_.labels, x) == if x in labels then Some(labels[x]) else Lookup(old_.labels, x))
    && (DistinctLabels(old_.labels) ==> DistinctLabels(new_.labels))
  }

  ghost predicate AllOverridden(old_: seq<Metric>, new_: seq<Metric>, labels: Labels) {
    |old_| == |new_| && forall i :: 0 <= i < |old_| ==> Overridden(old_[i], new_[i], labels)
  }

  lemma OverriddenByNothing(m: Metric)
    ensures Overridden(m, m, map[])
  {
  }

  lemma OverrideOne(before: Metric, now: Metric, labels: Labels, n: string, v: string)
    requires Overridden(before, now, labels)
    ensures Overridden(before, now.(labels := WithLabel(now.labels, n, v)), labels[n := v])
  {
    forall x
      ensures Lookup(WithLabel(now.labels, n, v), x) ==
              if x in labels[n := v] then Some(labels[n := v][x]) else Lookup(before.labels, x)
    {
      WithLabelLookup(now.labels, n, v, x);
    }
    WithLabelNames(now.labels, n, v);
  }

  /** The metric carries the whole grouping key. */
  ghost predicate Carries(m: Metric, labels: Labels) {
    forall x :: x in labels ==> Lookup(m.labels, x) == Some(labels[x])
  }

  /** Metrics of groups that disagree on a shared label never have the same label list. */
  lemma DisagreeingGroupsDiffer(a: Metric, la: Labels, b: Metric, lb: Labels, x: string)
    requires Carries(a, la) && Carries(b, lb) && x in la && x in lb && la[x] != lb[x]
    ensures Lookup(a.labels, x) != Lookup(b.labels, x) && a.labels != b.labels
  {
  }

  // Families of a pushed body

  /** Name, help and type are the same. */
  predicate Alike(f: Family, g: Family) {
    f.name == g.name && f.help == g.help && f.kind == g.kind
  }

  /** Adds a family: its metrics are appended to a family of that name, if there is one. */
  function Accumulate(fs: Families, f: Family): Families {
    if f.name in fs
    then fs[f.name := fs[f.name].(metrics := fs[f.name].metrics + f.metrics)]
    else fs[f.name := f]
  }

  /** The families of a decoded body, in the order they came. */
  function BodyFamilies(raws: seq<Family>): Families {
    if raws == [] then map[] else Accumulate(BodyFamilies(raws[..|raws| - 1]), raws[|raws| - 1])
  }

  function MetricsNamed(raws: seq<Family>, n: string): seq<Metric> {
    if raws == [] then []
    else
      MetricsNamed(raws[..|raws| - 1], n)
      + (if raws[|raws| - 1].name == n then raws[|raws| - 1].metrics else [])
  }

  predicate NamesFamily(raws: seq<Family>, n: string) {
    exists i :: 0 <= i < |raws| && raws[i].name == n
  }

  /** Nothing of a body is lost: each family holds the metrics pushed under its name, in order. */
  lemma {:induction false} BodyFamiliesContent(raws: seq<Family>, n: string)
    ensures n in BodyFamilies(raws) <==> NamesFamily(raws, n)
    ensures n in BodyFamilies(raws) ==>
              BodyFamilies(raws)[n].name == n && BodyFamilies(raws)[n].metrics == MetricsNamed(raws, n)
    ensures n !in BodyFamilies(raws) ==> MetricsNamed(raws, n) == []
    decreases |raws|
  {
    if raws != [] {
      var last := |raws| - 1;
      BodyFamiliesContent(raws[..last], n);
      if i :| 0 <= i < last && raws[i].name == n {
        assert raws[..last][i].name == n;
      }
      if raws[last].name == n { assert NamesFamily(raws, n); }
      if NamesFamily(raws[..last], n) {
        var i :| 0 <= i < last && raws[..last][i].name == n;
        assert raws[i].name == n;
      }
    }
  }

  /** Help and type are those of the first family pushed under the name. */
  lemma {:induction false} FirstFamilyDescribes(raws: seq<Family>, n: string)
    requires n in BodyFamilies(raws)
    ensures exists i :: 0 <= i < |raws| && Alike(BodyFamilies(raws)[n], raws[i]) &&
                        forall j :: 0 <= j < i ==> raws[j].name != n
    decreases |raws|
  {
    var last := |raws| - 1;
    var before := raws[..last];
    if n in BodyFamilies(before) {
      FirstFamilyDescribes(before, n);
      var i :| 0 <= i < |before| && Alike(BodyFamilies(before)[n], before[i]) &&
               forall j :: 0 <= j < i ==> before[j].name != n;
      assert raws[i] == before[i] && forall j :: 0 <= j < i ==> raws[j] == before[j];
    } else {
      BodyFamiliesContent(before, n);
      forall j | 0 <= j < last
        ensures raws[j].name != n
      {
        assert raws[j] == before[j];
      }
      assert Alike(BodyFamilies(raws)[n], raws[last]);
    }
  }

  /** `stored` is `body` with the grouping labels injected into every metric. */
  ghost predicate Injected(body: Families, stored: Families, labels: Labels) {
    && stored.Keys == body.Keys
    && forall n :: n in body ==>
         && stored[n].name == body[n].name && stored[n].help == body[n].help && stored[n].kind == body[n].kind
         && AllOverridden(body[n].metrics, stored[n].metrics, labels)
  }

  /** Every metric of every family carries the grouping key. */
  ghost predicate AllCarry(fs: Families, labels: Labels) {
    forall n, m :: n in fs && m in fs[n].metrics ==> Carries(m, labels)
  }

  lemma InjectedCarry(body: Families, stored: Families, labels: Labels)
    requires Injected(body, stored, labels)
    ensures AllCarry(stored, labels)
  {
    forall n, m | n in stored && m in stored[n].metrics
      ensures Carries(m, labels)
    {
      var i :| 0 <= i < |stored[n].metrics| && stored[n].metrics[i] == m;
      assert Overridden(body[n].metrics[i], m, labels);
    }
  }

  // What a scrape shows

  function FamilyMetrics(fs: Families, n: string): multiset<Metric> {
    if n in fs then multiset(fs[n].metrics) else multiset{}
  }

  /** A group as a value: its label map and its families. */
  datatype Group = Group(labels: Labels, families: Families)

  /** The groups of a bucket, filed under the keys of their label maps. */
  type Groups = map<string, Group>

  /** The metrics of family `n` in all groups. */
  ghost function Scraped(groups: Groups, n: string): multiset<Metric> {
    ScrapedFrom(groups, groups.Keys, n)
  }

  ghost function ScrapedFrom(groups: Groups, keys: set<string>, n: string): multiset<Metric>
    requires keys <= groups.Keys
    decreases |keys|
  {
    if keys == {} then multiset{}
    else
      var k := PickKey(keys);
      FamilyMetrics(groups[k].families, n) + ScrapedFrom(groups, keys - {k}, n)
  }

  ghost function PickKey(keys: set<string>): (k: string)
    requires keys != {}
    ensures k in keys
  {
    var k :| k in keys;
    k
  }

  /** The total may be taken in any order. */
  lemma {:induction false} ScrapedWithout(groups: Groups, keys: set<string>, k: string, n: string)
    requires k in keys && keys <= groups.Keys
    ensures ScrapedFrom(groups, keys, n) == FamilyMetrics(groups[k].families, n) + ScrapedFrom(groups, keys - {k}, n)
    decreases |keys|
  {
    var j := PickKey(keys);
    if j != k {
      ScrapedWithout(groups, keys - {j}, k, n);
      ScrapedWithout(groups, keys - {k}, j, n);
      assert keys - {j} - {k} == keys - {k} - {j};
    }
  }

  lemma Accumulated(fs: Families, f: Family, n: string)
    ensures n in Accumulate(fs, f) <==> n in fs || n == f.name
    ensures n in fs ==> Alike(Accumulate(fs, f)[n], fs[n])
    ensures n == f.name && n !in fs ==> Alike(Accumulate(fs, f)[n], f)
    ensures FamilyMetrics(Accumulate(fs, f), n) ==
            FamilyMetrics(fs, n) + (if n == f.name then multiset(f.metrics) else multiset{})
  {
  }

  /** `after` is `before` with the families of `v` that are named in `done` merged in: metrics are
      added, help and type are those of the family that was there first. */
  ghost predicate MergedWith(before: Families, v: Families, done: set<string>, after: Families) {
    forall n {:trigger FamilyMetrics(after, n)} ::
      && (n in after <==> n in before || n in done)
      && (n in before ==> Alike(after[n], before[n]))
      && (n in after && n !in before ==> n in v && Alike(after[n], v[n]))
      && FamilyMetrics(after, n) == FamilyMetrics(before, n) + (if n in done then FamilyMetrics(v, n) else multiset{})
  }

  lemma MergeOne(before: Families, v: Families, done: set<string>, n: string, now: Families)
    requires n in v && n !in done && v[n].name == n
    requires MergedWith(before, v, done, now)
    ensures MergedWith(before, v, done + {n}, Accumulate(now, v[n]))
  {
    var after := Accumulate(now, v[n]);
    forall x
      ensures x in after <==> x in before || x in done + {n}
      ensures x in before ==> Alike(after[x], before[x])
      ensures x in after && x !in before ==> x in v && Alike(after[x], v[x])
      ensures FamilyMetrics(after, x) ==
              FamilyMetrics(before, x) + (if x in done + {n} then FamilyMetrics(v, x) else multiset{})
    {
      Accumulated(now, v[n], x);
      assert FamilyMetrics(now, x) ==
             FamilyMetrics(before, x) + (if x in done then FamilyMetrics(v, x) else multiset{});
    }
  }

  /** `v` is the merged view of the groups under `keys`. */
  ghost predicate MergedView(v: Families, groups: Groups, keys: set<string>)
    requires keys <= groups.Keys
  {
    forall n {:trigger FamilyMetrics(v, n)} ::
      && (n in v <==> InSomeGroup(groups, keys, n))
      && (n in v ==> LikeSome(groups, keys, n, v[n]))
      && FamilyMetrics(v, n) == ScrapedFrom(groups, keys, n)
  }

  ghost predicate InSomeGroup(groups: Groups, keys: set<string>, n: string)
    requires keys <= groups.Keys
  {
    exists k :: k in keys && n in groups[k].families
  }

  /** Some group has a family `n` with that help and type. */
  ghost predicate LikeSome(groups: Groups, keys: set<string>, n: string, f: Family)
    requires keys <= groups.Keys
  {
    exists k :: k in keys && n in groups[k].families && Alike(f, groups[k].families[n])
  }

  lemma MergeNextGroup(groups: Groups, keys: set<string>, k: string, before: Families, after: Families)
    requires keys <= groups.Keys && k in groups && k !in keys
    requires MergedView(before, groups, keys)
    requires MergedWith(before, groups[k].families, groups[k].families.Keys, after)
    ensures MergedView(after, groups, keys + {k})
  {
    assert keys + {k} - {k} == keys;
    forall n
      ensures FamilyMetrics(after, n) == ScrapedFrom(groups, keys + {k}, n)
      ensures n in after <==> InSomeGroup(groups, keys + {k}, n)
      ensures n in after ==> LikeSome(groups, keys + {k}, n, after[n])
    {
      ScrapedWithout(groups, keys + {k}, k, n);
      assert FamilyMetrics(before, n) == ScrapedFrom(groups, keys, n);
      assert InSomeGroup(groups, keys + {k}, n) <==> InSomeGroup(groups, keys, n) || n in groups[k].families;
      assert FamilyMetrics(after, n) == FamilyMetrics(before, n) + FamilyMetrics(groups[k].families, n);
      if n in before {
        var j :| j in keys && n in groups[j].families && Alike(before[n], groups[j].families[n]);
        assert j in keys + {k} && Alike(after[n], groups[j].families[n]);
      } else if n in after {
        assert k in keys + {k} && Alike(after[n], groups[k].families[n]);
      }
    }
  }

  // A bucket as a map from label maps

  ghost predicate FiledByKey(groups: Groups) {
    forall k :: k in groups ==> Canonical(groups[k].labels) == k
  }

  ghost predicate GroupsCarry(groups: Groups) {
    forall k :: k in groups ==> AllCarry(groups[k].families, groups[k].labels)
  }

  /** Groups filed under their keys, with metrics that carry their labels. */
  ghost predicate WellFiled(groups: Groups) {
    FiledByKey(groups) && GroupsCarry(groups)
  }

  lemma DropWellFiled(groups: Groups, key: string)
    requires WellFiled(groups)
    ensures WellFiled(groups - {key})
  {
  }

  lemma FileWellFiled(groups: Groups, g: Group)
    requires WellFiled(groups) && AllCarry(g.families, g.labels)
    ensures WellFiled(groups[Canonical(g.labels) := g])
  {
  }

  /** Both what is pushed and what POST leaves in place carries the labels. */
  lemma StoredCarries(isPost: bool, groups: Groups, labels: Labels, pushed: Families)
    requires WellFiled(groups) && AllCarry(pushed, labels)
    ensures AllCarry(Stored(isPost, FamiliesAt(groups, labels), pushed), labels)
  {
    var key := Canonical(labels);
    if isPost && key in groups {
      FoundByLabels(groups, key, labels);
    }
  }

  /** The families of the group with these labels, if there is such a group. */
  ghost function FamiliesAt(groups: Groups, labels: Labels): Option<Families> {
    var key := Canonical(labels);
    if key in groups then Some(groups[key].families) else None
  }

  /** The family of that name in the group with these labels. */
  ghost function FamilyAt(groups: Groups, labels: Labels, n: string): Option<Family> {
    var fs := FamiliesAt(groups, labels);
    if fs.Some? && n in fs.value then Some(fs.value[n]) else None
  }

  /** What a push stores: PUT replaces the families, POST adds to them, the pushed family
      winning over one of the same name. */
  function Stored(isPost: bool, before: Option<Families>, pushed: Families): Families {
    if isPost && before.Some? then before.value + pushed else pushed
  }

  /** Filing a group under its key changes what is found under its labels, and nothing else. */
  lemma FileRefinesUpdate(groups: Groups, g: Group, labels: Labels)
    requires FiledByKey(groups)
    ensures FiledByKey(groups[Canonical(g.labels) := g])
    ensures FamiliesAt(groups[Canonical(g.labels) := g], labels) ==
            if labels == g.labels then Some(g.families) else FamiliesAt(groups, labels)
  {
    CanonicalInjective(labels, g.labels);
  }

  /** Dropping a key empties what is found under its labels, and nothing else. */
  lemma DropRefinesRemoval(groups: Groups, gone: Labels, labels: Labels)
    requires FiledByKey(groups)
    ensures FiledByKey(groups - {Canonical(gone)})
    ensures FamiliesAt(groups - {Canonical(gone)}, labels) ==
            if labels == gone then None else FamiliesAt(groups, labels)
  {
    CanonicalInjective(labels, gone);
  }

  /** The group found under a label map is the one that has it. */
  lemma FoundByLabels(groups: Groups, k: string, labels: Labels)
    requires FiledByKey(groups) && k in groups
    ensures k == Canonical(labels) <==> groups[k].labels == labels
  {
    CanonicalInjective(groups[k].labels, labels);
  }

  // Whole runs of a bucket

  /** What a request comes to: one that is refused leaves everything as it is. */
  datatype BucketOp =
    | PushOp(isPost: bool, labels: Labels, stored: Families)
    | DeleteOp(labels: Labels)
    | ClearOp
    | RefusedOp

  /** What an operation makes of the filed groups. */
  ghost function AfterOp(groups: Groups, op: BucketOp): Groups {
    match op
    case PushOp(isPost, labels, stored) =>
      groups[Canonical(labels) := Group(labels, Stored(isPost, FamiliesAt(groups, labels), stored))]
    case DeleteOp(labels) => groups - {Canonical(labels)}
    case ClearOp => map[]
    case RefusedOp => groups
  }

  ghost function Replay(start: Groups, ops: seq<BucketOp>): Groups {
    if ops == [] then start else AfterOp(Replay(start, ops[..|ops| - 1]), ops[|ops| - 1])
  }

  // The plain map a bucket stands for: label maps, and under each of them family names

  /** Whether there is a group with these labels: only operations aimed at them, and clears, have a
      say. */
  predicate PresentAfter(before: bool, op: BucketOp, labels: Labels) {
    match op
    case PushOp(_, l, _) => l == labels || before
    case DeleteOp(l) => l != labels && before
    case ClearOp => false
    case RefusedOp => before
  }

  /** The family found there under a name: PUT replaces all families of the group, POST those
      that are pushed. */
  function ShowingAfter(before: Option<Family>, op: BucketOp, labels: Labels, n: string): Option<Family> {
    match op
    case PushOp(isPost, l, stored) =>
      if l != labels then before
      else if n in stored then Some(stored[n])
      else if isPost then before
      else None
    case DeleteOp(l) => if l == labels then None else before
    case ClearOp => None
    case RefusedOp => before
  }

  predicate Present(start: bool, ops: seq<BucketOp>, labels: Labels) {
    if ops == [] then start else PresentAfter(Present(start, ops[..|ops| - 1], labels), ops[|ops| - 1], labels)
  }

  function Showing(start: Option<Family>, ops: seq<BucketOp>, labels: Labels, n: string): Option<Family> {
    if ops == [] then start else ShowingAfter(Showing(start, ops[..|ops| - 1], labels, n), ops[|ops| - 1], labels, n)
  }

  predicate Says(op: BucketOp, labels: Labels, n: string, f: Family) {
    op.PushOp? && op.labels == labels && n in op.stored && op.stored[n] == f
  }

  /** What was there before under the name is gone. */
  predicate Unsays(op: BucketOp, labels: Labels, n: string) {
    || op.ClearOp?
    || (op.DeleteOp? && op.labels == labels)
    || (op.PushOp? && op.labels == labels && (n in op.stored || !op.isPost))
  }

  ghost predicate Unsaid(ops: seq<BucketOp>, from: nat, labels: Labels, n: string) {
    exists j :: from <= j < |ops| && Unsays(ops[j], labels, n)
  }

  /** A family is found exactly if some request stored it, or it was there, and none after that
      made it go. */
  lemma {:induction false} LastSayStands(start: Option<Family>, ops: seq<BucketOp>, labels: Labels, n: string,
                                         f: Family)
    ensures Showing(start, ops, labels, n) == Some(f) <==>
            || (start == Some(f) && !Unsaid(ops, 0, labels, n))
            || exists i: nat :: i < |ops| && Says(ops[i], labels, n, f) && !Unsaid(ops, i + 1, labels, n)
    decreases |ops|
  {
    if ops != [] {
      var last := |ops| - 1;
      var before := ops[..last];
      LastSayStands(start, before, labels, n, f);
      forall i: nat | i < |ops|
        ensures Unsaid(ops, i, labels, n) <==> Unsaid(before, i, labels, n) || Unsays(ops[last], labels, n)
      {
        UnsaidSnoc(ops, i, labels, n);
      }
      assert Says(ops[last], labels, n, f) ==> !Unsaid(ops, last + 1, labels, n);
      forall i: nat | i < last
        ensures Says(ops[i], labels, n, f) <==> Says(before[i], labels, n, f)
      {
      }
    }
  }

  lemma UnsaidSnoc(ops: seq<BucketOp>, i: nat, labels: Labels, n: string)
    requires i < |ops|
    ensures Unsaid(ops, i, labels, n) <==>
            Unsaid(ops[..|ops| - 1], i, labels, n) || Unsays(ops[|ops| - 1], labels, n)
  {
    var before := ops[..|ops| - 1];
    if j :| i <= j < |before| && Unsays(before[j], labels, n) {
      assert Unsays(ops[j], labels, n);
    }
    if j :| i <= j < |ops| && Unsays(ops[j], labels, n) {
      if j < |before| {
        assert Unsays(before[j], labels, n);
      }
    }
  }

  /** A push of these families: PUT makes them the whole group, POST puts each of them in the place
      of one of its name and keeps all others; no other label map is concerned. */
  ghost predicate Pushed(before: Groups, after: Groups, isPost: bool, labels: Labels, stored: Families) {
    && (forall l :: l != labels ==> FamiliesAt(after, l) == FamiliesAt(before, l))
    && FamiliesAt(after, labels).Some?
    && (!isPost ==> FamiliesAt(after, labels) == Some(stored))
    && (isPost ==>
          forall n :: FamilyAt(after, labels, n) ==
            if n in stored then Some(stored[n]) else FamilyAt(before, labels, n))
  }

  lemma PushShows(groups: Groups, isPost: bool, labels: Labels, stored: Families)
    requires FiledByKey(groups)
    ensures Pushed(groups, AfterOp(groups, PushOp(isPost, labels, stored)), isPost, labels, stored)
  {
    var after := AfterOp(groups, PushOp(isPost, labels, stored));
    forall l
      ensures FamiliesAt(after, l) == if l == labels then Some(Stored(isPost, FamiliesAt(groups, labels), stored))
                                      else FamiliesAt(groups, l)
    {
      PushFound(groups, isPost, labels, stored, l);
    }
    forall n
      ensures isPost ==>
                FamilyAt(after, labels, n) == if n in stored then Some(stored[n]) else FamilyAt(groups, labels, n)
    {
      StoredHas(isPost, FamiliesAt(groups, labels), stored, n);
    }
  }

  lemma AfterOpFiled(groups: Groups, op: BucketOp)
    requires FiledByKey(groups)
    ensures FiledByKey(AfterOp(groups, op))
  {
  }

  /** One operation, as the plain map takes it. */
  lemma OpShows(groups: Groups, op: BucketOp, labels: Labels, n: string)
    requires FiledByKey(groups)
    ensures FamiliesAt(AfterOp(groups, op), labels).Some? <==>
            PresentAfter(FamiliesAt(groups, labels).Some?, op, labels)
    ensures FamilyAt(AfterOp(groups, op), labels, n) == ShowingAfter(FamilyAt(groups, labels, n), op, labels, n)
  {
    match op
    case PushOp(isPost, l, stored) => PushOpShows(groups, isPost, l, stored, labels, n);
    case DeleteOp(l) => DropRefinesRemoval(groups, l, labels);
    case ClearOp =>
    case RefusedOp =>
  }

  lemma PushOpShows(groups: Groups, isPost: bool, l: Labels, stored: Families, labels: Labels, n: string)
    requires FiledByKey(groups)
    ensures
      var op := PushOp(isPost, l, stored);
      && (FamiliesAt(AfterOp(groups, op), labels).Some? <==>
          PresentAfter(FamiliesAt(groups, labels).Some?, op, labels))
      && FamilyAt(AfterOp(groups, op), labels, n) == ShowingAfter(FamilyAt(groups, labels, n), op, labels, n)
  {
    var after := AfterOp(groups, PushOp(isPost, l, stored));
    PushFound(groups, isPost, l, stored, labels);
    if labels == l {
      StoredHas(isPost, FamiliesAt(groups, l), stored, n);
    } else {
      assert FamiliesAt(after, labels) == FamiliesAt(groups, labels);
    }
  }

  lemma PushFound(groups: Groups, isPost: bool, l: Labels, stored: Families, labels: Labels)
    requires FiledByKey(groups)
    ensures FamiliesAt(AfterOp(groups, PushOp(isPost, l, stored)), labels) ==
            if labels == l then Some(Stored(isPost, FamiliesAt(groups, l), stored)) else FamiliesAt(groups, labels)
  {
    FileRefinesUpdate(groups, Group(l, Stored(isPost, FamiliesAt(groups, l), stored)), labels);
  }

  lemma StoredHas(isPost: bool, before: Option<Families>, pushed: Families, n: string)
    ensures
      var r := Stored(isPost, before, pushed);
      && (n in r <==> n in pushed || (isPost && before.Some? && n in before.value))
      && (n in r ==> r[n] == if n in pushed then pushed[n] else before.value[n])
  {
  }

  /** After any run, the filed groups hold under each label map what the plain map holds there. */
  lemma {:induction false} BucketIsAMap(start: Groups, ops: seq<BucketOp>, labels: Labels, n: string)
    requires FiledByKey(start)
    ensures FiledByKey(Replay(start, ops))
    ensures FamiliesAt(Replay(start, ops), labels).Some? <==> Present(FamiliesAt(start, labels).Some?, ops, labels)
    ensures FamilyAt(Replay(start, ops), labels, n) == Showing(FamilyAt(start, labels, n), ops, labels, n)
    decreases |ops|
  {
    if ops != [] {
      var before, op := ops[..|ops| - 1], ops[|ops| - 1];
      BucketIsAMap(start, before, labels, n);
      AfterOpFiled(Replay(start, before), op);
      OpShows(Replay(start, before), op, labels, n);
    }
  }

  /** The same for all label maps and names. */
  ghost predicate PlainMap(before: Groups, after: Groups, ops: seq<BucketOp>) {
    forall labels, n ::
      && (FamiliesAt(after, labels).Some? <==> Present(FamiliesAt(before, labels).Some?, ops, labels))
      && FamilyAt(after, labels, n) == Showing(FamilyAt(before, labels, n), ops, labels, n)
  }

  lemma ReplayIsPlain(start: Groups, ops: seq<BucketOp>)
    requires FiledByKey(start)
    ensures PlainMap(start, Replay(start, ops), ops)
  {
    forall labels, n
      ensures FamiliesAt(Replay(start, ops), labels).Some? <==> Present(FamiliesAt(start, labels).Some?, ops, labels)
      ensures FamilyAt(Replay(start, ops), labels, n) == Showing(FamilyAt(start, labels, n), ops, labels, n)
    {
      BucketIsAMap(start, ops, labels, n);
    }
  }
}
