/**
 The push bucket as the Agent keeps it on the heap: groups with family maps that POST updates
 in place, and metric slices whose appends may write into spare capacity.

 `Bucket.Contents` is its meaning: a map from label maps to families.
 */
module PushBucket {
  import opened Types
  import opened GroupKey
  import opened GroupPath
  import opened Metrics

  /** A Go slice: the first `len` cells of a backing array; appends may fill the spare cells. */
  datatype Slice = Slice(backing: array<Metric>, len: nat)

  predicate SliceOk(s: Slice) {
    s.len <= s.backing.Length
  }

  ghost function View(s: Slice): seq<Metric>
    requires SliceOk(s)
    reads s.backing
  {
    s.backing[..s.len]
  }

  method NewSlice(ms: seq<Metric>) returns (s: Slice)
    ensures SliceOk(s) && fresh(s.backing) && View(s) == ms
  {
    var a := new Metric[|ms|](i requires 0 <= i < |ms| => ms[i]);
    s := Slice(a, |ms|);
  }

  /** Go's append: in place when the capacity suffices, else into a new, larger array. */
  method Append(s: Slice, xs: Slice) returns (t: Slice)
    requires SliceOk(s) && SliceOk(xs)
    modifies s.backing
    ensures SliceOk(t) && View(t) == old(View(s)) + old(View(xs))
    ensures t.backing == s.backing || fresh(t.backing)
  {
    var ys := xs.backing[..xs.len];
    var n := s.len + xs.len;
    if n <= s.backing.Length {
      ghost var before := s.backing[..];
      forall i | 0 <= i < xs.len {
        s.backing[s.len + i] := ys[i];
      }
      t := Slice(s.backing, n);
      assert View(t) == before[..s.len] + ys;
    } else {
      var zs := s.backing[..s.len] + ys;
      var a := new Metric[2 * n](i => if 0 <= i < |zs| then zs[i] else Metric([], 0));
      t := Slice(a, n);
      assert View(t) == zs;
    }
  }

  class MetricFamily {
    const name: string
    const help: string
    const kind: string
    var metrics: Slice

    constructor (name: string, help: string, kind: string, metrics: Slice)
      ensures this.name == name && this.help == help && this.kind == kind && this.metrics == metrics
    {
      this.name, this.help, this.kind, this.metrics := name, help, kind, metrics;
    }

    ghost function Value(): Family
      requires SliceOk(metrics)
      reads this, metrics.backing
    {
      Family(name, help, kind, View(metrics))
    }
  }

  // Maps of families on the heap

  ghost predicate FamiliesOk(fs: map<string, MetricFamily>, repr: set<object>)
    reads repr
  {
    forall n :: n in fs ==>
      fs[n] in repr && fs[n].metrics.backing in repr && SliceOk(fs[n].metrics) && fs[n].name == n
  }

  ghost predicate Separate(fs: map<string, MetricFamily>, repr: set<object>)
    requires FamiliesOk(fs, repr)
    reads repr
  {
    forall n, m :: n in fs && m in fs && n != m ==>
      fs[n] != fs[m] && fs[n].metrics.backing != fs[m].metrics.backing
  }

  /** The families as values; `repr` holds the objects they are made of. */
  ghost function ValueOf(fs: map<string, MetricFamily>, repr: set<object>): Families
    requires FamiliesOk(fs, repr)
    reads repr
  {
    map n | n in fs :: fs[n].Value()
  }

  method AppendTo(f: MetricFamily, xs: Slice)
    requires SliceOk(f.metrics) && SliceOk(xs)
    modifies f, f.metrics.backing
    ensures SliceOk(f.metrics) && (f.metrics.backing == old(f.metrics.backing) || fresh(f.metrics.backing))
    ensures f.Value() == old(f.Value()).(metrics := old(f.Value()).metrics + old(View(xs)))
  {
    f.metrics := Append(f.metrics, xs);
  }

  method CopyOf(mf: MetricFamily) returns (f: MetricFamily)
    requires SliceOk(mf.metrics)
    ensures fresh(f) && SliceOk(f.metrics) && fresh(f.metrics.backing)
    ensures f.name == mf.name && f.Value() == mf.Value()
  {
    var empty := NewSlice([]);
    var copied := Append(empty, mf.metrics);
    f := new MetricFamily(mf.name, mf.help, mf.kind, copied);
  }

  /** Appends to a family that the map `fs` owns, leaving the others as they are. */
  method GrowFamily(fs: map<string, MetricFamily>, name: string, xs: Slice, ghost owned: set<object>)
    returns (ghost grown: set<object>)
    requires FamiliesOk(fs, owned) && Separate(fs, owned) && name in fs && SliceOk(xs)
    modifies fs[name], fs[name].metrics.backing
    ensures owned <= grown && fresh(grown - owned)
    ensures FamiliesOk(fs, grown) && Separate(fs, grown)
    ensures fs[name].Value() == old(fs[name].Value()).(metrics := old(fs[name].Value()).metrics + old(View(xs)))
    ensures ValueOf(fs, grown) == old(ValueOf(fs, owned))[name := fs[name].Value()]
  {
    AppendTo(fs[name], xs);
    grown := owned + {fs[name].metrics.backing};
    forall n | n in fs && n != name
      ensures fs[n].Value() == old(fs[n].Value())
    {
    }
  }

  /** Adds a stored family to the merged view, which owns its families and arrays. */
  method MergeFamily(merged: map<string, MetricFamily>, mf: MetricFamily, ghost owned: set<object>)
    returns (r: map<string, MetricFamily>, ghost grown: set<object>)
    requires FamiliesOk(merged, owned) && Separate(merged, owned)
    requires SliceOk(mf.metrics) && mf !in owned && mf.metrics.backing !in owned
    modifies owned
    ensures owned <= grown && fresh(grown - owned)
    ensures FamiliesOk(r, grown) && Separate(r, grown)
    ensures ValueOf(r, grown) == Accumulate(old(ValueOf(merged, owned)), old(mf.Value()))
  {
    if mf.name in merged {
      grown := GrowFamily(merged, mf.name, mf.metrics, owned);
      r := merged;
    } else {
      var f := CopyOf(mf);
      r, grown := merged[mf.name := f], owned + {f, f.metrics.backing};
      assert ValueOf(r, grown) == old(ValueOf(merged, owned))[mf.name := f.Value()];
    }
  }

  // Reading a pushed body

  /** A decoded body: its families, and whether decoding reached the end. */
  datatype PushBody = PushBody(raws: seq<Family>, complete: bool)

  method Decoded(raw: Family) returns (mf: MetricFamily)
    ensures fresh(mf) && SliceOk(mf.metrics) && fresh(mf.metrics.backing)
    ensures mf.name == raw.name && mf.Value() == raw
  {
    var slice := NewSlice(raw.metrics);
    mf := new MetricFamily(raw.name, raw.help, raw.kind, slice);
  }

  method AddDecoded(fs: map<string, MetricFamily>, raw: Family, ghost owned: set<object>)
    returns (r: map<string, MetricFamily>, ghost grown: set<object>)
    requires FamiliesOk(fs, owned) && Separate(fs, owned)
    modifies owned
    ensures owned <= grown && fresh(grown - owned)
    ensures FamiliesOk(r, grown) && Separate(r, grown)
    ensures ValueOf(r, grown) == Accumulate(old(ValueOf(fs, owned)), raw)
  {
    var mf := Decoded(raw);
    if raw.name in fs {
      grown := GrowFamily(fs, raw.name, mf.metrics, owned);
      r := fs;
    } else {
      r, grown := fs[raw.name := mf], owned + {mf, mf.metrics.backing};
      assert ValueOf(r, grown) == old(ValueOf(fs, owned))[raw.name := mf.Value()];
    }
  }

  method ParsePushBody(body: PushBody) returns (r: Option<map<string, MetricFamily>>, ghost owned: set<object>)
    ensures r.Some? <==> body.complete
    ensures fresh(owned)
    ensures r.Some? ==> FamiliesOk(r.value, owned) && Separate(r.value, owned)
    ensures r.Some? ==> ValueOf(r.value, owned) == BodyFamilies(body.raws)
  {
    var fs: map<string, MetricFamily> := map[];
    owned := {};
    for i := 0 to |body.raws|
      invariant fresh(owned) && FamiliesOk(fs, owned) && Separate(fs, owned)
      invariant ValueOf(fs, owned) == BodyFamilies(body.raws[..i])
    {
      assert body.raws[..i + 1][..i] == body.raws[..i];
      fs, owned := AddDecoded(fs, body.raws[i], owned);
    }
    assert body.raws[..|body.raws|] == body.raws;
    if !body.complete {
      return None, owned;
    }
    return Some(fs), owned;
  }

  // Injecting the grouping labels

  method SetLabel(ls: seq<LabelPair>, name: string, value: string) returns (r: seq<LabelPair>)
    ensures r == WithLabel(ls, name, value)
  {
    for i := 0 to |ls|
      invariant WithLabel(ls, name, value) == ls[..i] + WithLabel(ls[i..], name, value)
    {
      if ls[i].name == name {
        return ls[i := LabelPair(name, value)];
      }
      assert ls[i..][1..] == ls[i + 1..];
      assert ls[..i + 1] == ls[..i] + [ls[i]];
    }
    assert ls[..|ls|] == ls && ls[|ls|..] == [];
    return ls + [LabelPair(name, value)];
  }

  method InjectMetric(m: Metric, labels: Labels) returns (r: Metric)
    ensures Overridden(m, r, labels)
  {
    r := m;
    var todo := labels.Keys;
    assert labels - todo == map[];
    OverriddenByNothing(m);
    while todo != {}
      invariant todo <= labels.Keys
      invariant Overridden(m, r, labels - todo)
      decreases |todo|
    {
      var n :| n in todo;
      OverrideOne(m, r, labels - todo, n, labels[n]);
      var ls := SetLabel(r.labels, n, labels[n]);
      r := r.(labels := ls);
      assert labels - (todo - {n}) == (labels - todo)[n := labels[n]];
      todo := todo - {n};
    }
    assert labels - todo == labels;
  }

  method InjectFamily(f: MetricFamily, labels: Labels)
    requires SliceOk(f.metrics)
    modifies f.metrics.backing
    ensures AllOverridden(old(View(f.metrics)), View(f.metrics), labels)
  {
    var a, n := f.metrics.backing, f.metrics.len;
    for i := 0 to n
      invariant forall j :: 0 <= j < i ==> Overridden(old(a[j]), a[j], labels)
      invariant forall j :: i <= j < n ==> a[j] == old(a[j])
    {
      a[i] := InjectMetric(a[i], labels);
    }
  }

  ghost predicate InjectedInto(before: Family, now: Family, labels: Labels) {
    && now.name == before.name && now.help == before.help && now.kind == before.kind
    && AllOverridden(before.metrics, now.metrics, labels)
  }

  /** The families outside `todo` are injected, the others still as they were. */
  ghost predicate HalfInjected(was: Families, fs: map<string, MetricFamily>, repr: set<object>,
                               todo: set<string>, labels: Labels)
    requires FamiliesOk(fs, repr)
    reads repr
  {
    && was.Keys == fs.Keys
    && forall n :: n in fs ==>
         if n in todo then fs[n].Value() == was[n] else InjectedInto(was[n], fs[n].Value(), labels)
  }

  method InjectOne(ghost was: Families, fs: map<string, MetricFamily>, ghost owned: set<object>,
                   ghost todo: set<string>, n: string, labels: Labels)
    requires FamiliesOk(fs, owned) && Separate(fs, owned) && n in fs
    requires HalfInjected(was, fs, owned, todo, labels) && n in todo
    modifies fs[n].metrics.backing
    ensures FamiliesOk(fs, owned) && Separate(fs, owned)
    ensures HalfInjected(was, fs, owned, todo - {n}, labels)
  {
    InjectFamily(fs[n], labels);
    assert forall k :: k in fs && k != n ==> fs[k].Value() == old(fs[k].Value());
  }

  lemma AllInjected(was: Families, fs: map<string, MetricFamily>, repr: set<object>, labels: Labels)
    requires FamiliesOk(fs, repr) && HalfInjected(was, fs, repr, {}, labels)
    ensures Injected(was, ValueOf(fs, repr), labels)
  {
    assert forall n :: n in was ==> InjectedInto(was[n], ValueOf(fs, repr)[n], labels);
  }

  method InjectAll(fs: map<string, MetricFamily>, labels: Labels, ghost owned: set<object>)
    requires FamiliesOk(fs, owned) && Separate(fs, owned)
    modifies owned
    ensures FamiliesOk(fs, owned) && Injected(old(ValueOf(fs, owned)), ValueOf(fs, owned), labels)
  {
    ghost var was := ValueOf(fs, owned);
    var todo := fs.Keys;
    while todo != {}
      invariant todo <= fs.Keys
      invariant FamiliesOk(fs, owned) && Separate(fs, owned)
      invariant HalfInjected(was, fs, owned, todo, labels)
      decreases |todo|
    {
      var n :| n in todo;
      InjectOne(was, fs, owned, todo, n, labels);
      todo := todo - {n};
    }
    AllInjected(was, fs, owned, labels);
  }

  // The bucket

  datatype PushError = BadGroupPath(path: PathError) | BadBody

  /** A stored group. POST replaces entries of `families`; the families themselves are never
      touched again. */
  datatype MetricGroup = MetricGroup(labels: Labels, families: map<string, MetricFamily>)

  /** The families on the heap have the value `v` and live in `store`. */
  ghost predicate Represents(fs: map<string, MetricFamily>, v: Families, store: set<object>)
    reads store
  {
    && fs.Keys == v.Keys
    && forall n :: n in fs ==>
         && fs[n] in store && fs[n].metrics.backing in store && SliceOk(fs[n].metrics)
         && fs[n].name == n && fs[n].Value() == v[n]
  }

  lemma RepresentsValue(fs: map<string, MetricFamily>, store: set<object>)
    requires FamiliesOk(fs, store)
    ensures Represents(fs, ValueOf(fs, store), store)
  {
  }

  lemma RepresentsMore(fs: map<string, MetricFamily>, v: Families, store: set<object>, more: set<object>)
    requires Represents(fs, v, store) && store <= more
    ensures Represents(fs, v, more)
  {
  }

  lemma RepresentsUnion(a: map<string, MetricFamily>, va: Families, b: map<string, MetricFamily>, vb: Families,
                        store: set<object>)
    requires Represents(a, va, store) && Represents(b, vb, store)
    ensures Represents(a + b, va + vb, store)
  {
  }

  /** The groups on the heap have the value `contents` and live in `store`. */
  ghost predicate AllRepresented(groups: map<string, MetricGroup>, contents: Groups, store: set<object>)
    reads store
  {
    && contents.Keys == groups.Keys
    && forall k :: k in groups ==>
         contents[k].labels == groups[k].labels && Represents(groups[k].families, contents[k].families, store)
  }

  lemma DropRepresented(groups: map<string, MetricGroup>, contents: Groups, store: set<object>, key: string)
    requires AllRepresented(groups, contents, store)
    ensures AllRepresented(groups - {key}, contents - {key}, store)
  {
  }

  lemma FileRepresented(groups: map<string, MetricGroup>, contents: Groups, store: set<object>, key: string,
                        g: MetricGroup, v: Families)
    requires AllRepresented(groups, contents, store) && Represents(g.families, v, store)
    ensures AllRepresented(groups[key := g], contents[key := Group(g.labels, v)], store)
  {
  }

  lemma AllRepresentedMore(groups: map<string, MetricGroup>, contents: Groups, store: set<object>, more: set<object>)
    requires AllRepresented(groups, contents, store) && store <= more
    ensures AllRepresented(groups, contents, more)
  {
    forall k | k in groups
      ensures Represents(groups[k].families, contents[k].families, more)
    {
      RepresentsMore(groups[k].families, contents[k].families, store, more);
    }
  }

  /** The loop of POST: each pushed family takes the place of one of its name. */
  method TakeFamilies(into: map<string, MetricFamily>, fs: map<string, MetricFamily>)
    returns (r: map<string, MetricFamily>)
    ensures r == into + fs
  {
    r := into;
    var todo := fs.Keys;
    while todo != {}
      invariant todo <= fs.Keys
      invariant r.Keys == into.Keys + (fs.Keys - todo)
      invariant forall n :: n in r ==> r[n] == if n in fs && n !in todo then fs[n] else into[n]
      decreases |todo|
    {
      var n :| n in todo;
      r := r[n := fs[n]];
      todo := todo - {n};
    }
  }

  datatype BucketRequest =
    | PushRequest(isPost: bool, rest: string, body: PushBody)
    | DeleteRequest(rest: string)
    | ClearRequest

  /** What a request comes to: a push or delete of the label map of its path, with the body's
      families as they are stored, or nothing if path or body is refused. */
  ghost predicate ComesTo(req: BucketRequest, op: BucketOp, decode: Decoder) {
    match req
    case PushRequest(isPost, rest, body) =>
      if AcceptedParts(Parts(rest), decode) && body.complete
      then
        && op.PushOp? && op.isPost == isPost
        && IsLabelMap(op.labels, Pairs(Parts(rest)), decode)
        && Injected(BodyFamilies(body.raws), op.stored, op.labels)
      else op.RefusedOp?
    case DeleteRequest(rest) =>
      if AcceptedParts(Parts(rest), decode)
      then op.DeleteOp? && IsLabelMap(op.labels, Pairs(Parts(rest)), decode)
      else op.RefusedOp?
    case ClearRequest => op.ClearOp?
  }

  class Bucket {
    /** What the bucket holds, as a value. */
    ghost var Contents: Groups
    /** The families and arrays it is made of. */
    ghost var Store: set<object>

    var groups: map<string, MetricGroup>

    ghost predicate Valid()
      reads this, Store
    {
      this !in Store && AllRepresented(groups, Contents, Store) && WellFiled(Contents)
    }

    /** As a new bucket is. */
    ghost predicate Blank()
      reads this
      ensures Blank() ==> Contents == map[]
    {
      groups == map[] && Contents == map[] && Store == {}
    }

    constructor ()
      ensures Blank()
    {
      groups := map[];
      Contents, Store := map[], {};
    }

    method Clear()
      requires Valid()
      modifies this
      ensures Valid() && Store == old(Store) && Contents == AfterOp(old(Contents), ClearOp)
    {
      groups := map[];
      Contents := map[];
    }

    method Drop(key: string)
      requires Valid()
      modifies `groups, `Contents
      ensures Valid() && Contents == old(Contents) - {key}
    {
      DropWellFiled(Contents, key);
      DropRepresented(groups, Contents, Store, key);
      groups := groups - {key};
      Contents := Contents - {key};
    }

    method Delete(rest: string, decode: Decoder) returns (r: Result<(), PathError>, ghost labels: Labels)
      requires Valid()
      modifies `groups, `Contents
      ensures Valid()
      ensures r.Ok? <==> AcceptedParts(Parts(rest), decode)
      ensures r.Err? ==> Contents == old(Contents)
      ensures r.Ok? ==> IsLabelMap(labels, Pairs(Parts(rest)), decode)
      ensures r.Ok? ==> Contents == AfterOp(old(Contents), DeleteOp(labels))
      ensures r.Ok? ==> forall l ::
                FamiliesAt(Contents, l) == if l == labels then None else old(FamiliesAt(Contents, l))
    {
      var key := ParseGroupKey(rest, decode);
      if key.Err? {
        return Err(key.error), map[];
      }
      labels := key.value.labels;
      Drop(key.value.canonical);
      forall l
        ensures FamiliesAt(Contents, l) == if l == labels then None else old(FamiliesAt(Contents, l))
      {
        DropRefinesRemoval(old(Contents), labels, l);
      }
      return Ok(()), labels;
    }

    /** Takes fresh families into the store. */
    ghost method Adopt(owned: set<object>)
      requires Valid() && this !in owned
      modifies `Store
      ensures Valid() && Store == old(Store) + owned
    {
      AllRepresentedMore(groups, Contents, Store, Store + owned);
      Store := Store + owned;
    }

    /** Files a group under its key, replacing any group filed there. */
    method File(key: string, g: MetricGroup, ghost v: Families)
      requires Valid() && key == Canonical(g.labels)
      requires Represents(g.families, v, Store) && AllCarry(v, g.labels)
      modifies `groups, `Contents
      ensures Valid() && Contents == old(Contents)[key := Group(g.labels, v)]
    {
      FileWellFiled(Contents, Group(g.labels, v));
      FileRepresented(groups, Contents, Store, key, g, v);
      groups := groups[key := g];
      Contents := Contents[key := Group(g.labels, v)];
    }

    /** The locked section of a push: `fs`, made of fresh objects, is stored under `key`. */
    method Keep(isPost: bool, key: string, labels: Labels, fs: map<string, MetricFamily>, ghost v: Families,
                ghost owned: set<object>)
      requires Valid() && key == Canonical(labels) && this !in owned
      requires Represents(fs, v, owned) && AllCarry(v, labels)
      modifies this
      ensures Valid() && Store == old(Store) + owned
      ensures Contents == AfterOp(old(Contents), PushOp(isPost, labels, v))
      ensures Pushed(old(Contents), Contents, isPost, labels, v)
    {
      StoredCarries(isPost, Contents, labels, v);
      Adopt(owned);
      RepresentsMore(fs, v, owned, Store);
      if isPost && key in groups {
        var merged := TakeFamilies(groups[key].families, fs);
        RepresentsUnion(groups[key].families, Contents[key].families, fs, v, Store);
        FoundByLabels(Contents, key, labels);
        File(key, MetricGroup(labels, merged), Contents[key].families + v);
      } else {
        File(key, MetricGroup(labels, fs), v);
      }
      PushShows(old(Contents), isPost, labels, v);
    }

    /** PUT and POST. `stored` is what is stored for the body: its families with the grouping
        labels injected. */
    method Push(isPost: bool, rest: string, body: PushBody, decode: Decoder)
      returns (r: Result<(), PushError>, ghost labels: Labels, ghost stored: Families)
      requires Valid()
      modifies this
      ensures Valid() && fresh(Store - old(Store))
      ensures r.Ok? <==> AcceptedParts(Parts(rest), decode) && body.complete
      ensures r.Err? ==> Contents == old(Contents)
      ensures r.Ok? ==> IsLabelMap(labels, Pairs(Parts(rest)), decode)
      ensures r.Ok? ==> Injected(BodyFamilies(body.raws), stored, labels)
      ensures r.Ok? ==> Contents == AfterOp(old(Contents), PushOp(isPost, labels, stored))
      ensures r.Ok? ==> Pushed(old(Contents), Contents, isPost, labels, stored)
    {
      labels, stored := map[], map[];
      var key := ParseGroupKey(rest, decode);
      if key.Err? {
        return Err(BadGroupPath(key.error)), labels, stored;
      }
      var families;
      ghost var owned;
      families, stored, owned := ReadFamilies(body, key.value.labels);
      if families.None? {
        return Err(BadBody), labels, stored;
      }
      labels := key.value.labels;
      InjectedCarry(BodyFamilies(body.raws), stored, labels);
      Keep(isPost, key.value.canonical, key.value.labels, families.value, stored, owned);
      return Ok(()), labels, stored;
    }

    /** One request; `op` is what it comes to. */
    method Serve(req: BucketRequest, decode: Decoder) returns (ghost op: BucketOp)
      requires Valid()
      modifies this
      ensures Valid() && fresh(Store - old(Store))
      ensures ComesTo(req, op, decode) && Contents == AfterOp(old(Contents), op)
    {
      match req
      case PushRequest(isPost, rest, body) =>
        var r;
        ghost var labels, stored;
        r, labels, stored := Push(isPost, rest, body, decode);
        op := if r.Ok? then PushOp(isPost, labels, stored) else RefusedOp;
      case DeleteRequest(rest) =>
        var r;
        ghost var labels;
        r, labels := Delete(rest, decode);
        op := if r.Ok? then DeleteOp(labels) else RefusedOp;
      case ClearRequest =>
        Clear();
        op := ClearOp;
    }

    /** Any run of requests: afterwards the bucket holds, under each label map, what a plain map
        from label maps to families holds there. */
    method ServeAll(reqs: seq<BucketRequest>, decode: Decoder) returns (ghost ops: seq<BucketOp>)
      requires Valid()
      modifies this
      ensures Valid() && |ops| == |reqs|
      ensures forall i :: 0 <= i < |reqs| ==> ComesTo(reqs[i], ops[i], decode)
      ensures PlainMap(old(Contents), Contents, ops)
    {
      ops := [];
      for i := 0 to |reqs|
        invariant Valid() && fresh(Store - old(Store)) && |ops| == i
        invariant forall j :: 0 <= j < i ==> ComesTo(reqs[j], ops[j], decode)
        invariant Contents == Replay(old(Contents), ops)
      {
        ghost var op := Serve(reqs[i], decode);
        assert (ops + [op])[..i] == ops;
        ops := ops + [op];
      }
      ReplayIsPlain(old(Contents), ops);
    }

    /** The scrape view: a merged family per name, built from fresh objects only. */
    method ServeMetrics() returns (merged: map<string, MetricFamily>, ghost owned: set<object>)
      requires Valid()
      ensures fresh(owned) && FamiliesOk(merged, owned)
      ensures forall n :: n in merged <==> InSomeGroup(Contents, Contents.Keys, n)
      ensures forall n :: n in merged ==> multiset(View(merged[n].metrics)) == Scraped(Contents, n)
      ensures forall n :: n in merged ==> LikeSome(Contents, Contents.Keys, n, merged[n].Value())
    {
      merged, owned := MergeAll(groups, Contents, Store);
      ViewShowsAll(merged, owned, Contents);
    }
  }

  ghost predicate PartOfView(merged: map<string, MetricFamily>, owned: set<object>, contents: Groups, done: set<string>)
    reads owned
  {
    && done <= contents.Keys
    && FamiliesOk(merged, owned) && Separate(merged, owned)
    && MergedView(ValueOf(merged, owned), contents, done)
  }

  /** The outer loop of the scrape. */
  method MergeAll(groups: map<string, MetricGroup>, ghost contents: Groups, ghost store: set<object>)
    returns (merged: map<string, MetricFamily>, ghost owned: set<object>)
    requires AllRepresented(groups, contents, store)
    ensures fresh(owned) && PartOfView(merged, owned, contents, contents.Keys)
  {
    merged, owned := map[], {};
    var todo := groups.Keys;
    NothingDone(todo);
    NothingMerged(merged, owned, contents);
    while todo != {}
      invariant todo <= groups.Keys && fresh(owned)
      invariant PartOfView(merged, owned, contents, groups.Keys - todo)
      decreases |todo|
    {
      var k :| k in todo;
      merged, owned := MergeFiled(groups, contents, store, k, groups.Keys - todo, merged, owned);
      OneDone(groups.Keys, todo, k);
      todo := todo - {k};
    }
    assert groups.Keys - todo == contents.Keys;
  }

  lemma NothingDone(all: set<string>)
    ensures all - all == {}
  {
  }

  lemma OneDone(all: set<string>, todo: set<string>, k: string)
    requires todo <= all && k in todo
    ensures all - todo + {k} == all - (todo - {k})
  {
  }

  /** One round of it. */
  method MergeFiled(groups: map<string, MetricGroup>, ghost contents: Groups, ghost store: set<object>, k: string,
                    ghost done: set<string>, merged: map<string, MetricFamily>, ghost owned: set<object>)
    returns (r: map<string, MetricFamily>, ghost grown: set<object>)
    requires AllRepresented(groups, contents, store) && k in groups && k !in done && owned !! store
    requires PartOfView(merged, owned, contents, done)
    modifies owned
    ensures owned <= grown && fresh(grown - owned)
    ensures PartOfView(r, grown, contents, done + {k})
  {
    ghost var before := ValueOf(merged, owned);
    r, grown := MergeGroup(groups[k].families, contents[k].families, store, merged, owned);
    MergeNextGroup(contents, done, k, before, ValueOf(r, grown));
  }

  lemma ViewShowsAll(merged: map<string, MetricFamily>, owned: set<object>, groups: Groups)
    requires PartOfView(merged, owned, groups, groups.Keys)
    ensures forall n :: n in merged <==> InSomeGroup(groups, groups.Keys, n)
    ensures forall n :: n in merged ==> multiset(View(merged[n].metrics)) == Scraped(groups, n)
    ensures forall n :: n in merged ==> LikeSome(groups, groups.Keys, n, merged[n].Value())
  {
    forall n
      ensures n in merged <==> InSomeGroup(groups, groups.Keys, n)
      ensures n in merged ==> multiset(View(merged[n].metrics)) == Scraped(groups, n)
      ensures n in merged ==> LikeSome(groups, groups.Keys, n, merged[n].Value())
    {
      assert FamilyMetrics(ValueOf(merged, owned), n) == ScrapedFrom(groups, groups.Keys, n);
    }
  }

  lemma NothingMerged(merged: map<string, MetricFamily>, owned: set<object>, contents: Groups)
    requires merged == map[] && owned == {}
    ensures PartOfView(merged, owned, contents, {})
  {
  }

  /** Merges the families of one stored group into the view; the stored ones are only read. */
  method MergeGroup(fs: map<string, MetricFamily>, ghost v: Families, ghost store: set<object>,
                    merged: map<string, MetricFamily>, ghost owned: set<object>)
    returns (r: map<string, MetricFamily>, ghost grown: set<object>)
    requires Represents(fs, v, store) && owned !! store
    requires FamiliesOk(merged, owned) && Separate(merged, owned)
    modifies owned
    ensures owned <= grown && fresh(grown - owned)
    ensures FamiliesOk(r, grown) && Separate(r, grown)
    ensures MergedWith(old(ValueOf(merged, owned)), v, v.Keys, ValueOf(r, grown))
  {
    ghost var before := ValueOf(merged, owned);
    r, grown := merged, owned;
    var todo := fs.Keys;
    while todo != {}
      invariant todo <= fs.Keys
      invariant owned <= grown && fresh(grown - owned)
      invariant Represents(fs, v, store)
      invariant FamiliesOk(r, grown) && Separate(r, grown)
      invariant MergedWith(before, v, v.Keys - todo, ValueOf(r, grown))
      decreases |todo|
    {
      var n :| n in todo;
      r, grown := MergeNamed(fs, v, store, n, before, v.Keys - todo, r, grown);
      assert v.Keys - todo + {n} == v.Keys - (todo - {n});
      todo := todo - {n};
    }
    assert v.Keys - todo == v.Keys;
  }

  /** One round of the inner loop of the scrape. */
  method MergeNamed(fs: map<string, MetricFamily>, ghost v: Families, ghost store: set<object>, n: string,
                    ghost before: Families, ghost done: set<string>, merged: map<string, MetricFamily>,
                    ghost owned: set<object>)
    returns (r: map<string, MetricFamily>, ghost grown: set<object>)
    requires Represents(fs, v, store) && owned !! store && n in fs && n !in done
    requires FamiliesOk(merged, owned) && Separate(merged, owned)
    requires MergedWith(before, v, done, ValueOf(merged, owned))
    modifies owned
    ensures owned <= grown && fresh(grown - owned)
    ensures FamiliesOk(r, grown) && Separate(r, grown)
    ensures MergedWith(before, v, done + {n}, ValueOf(r, grown))
  {
    MergeOne(before, v, done, n, ValueOf(merged, owned));
    r, grown := MergeFamily(merged, fs[n], owned);
  }

  /** Decoding a body and injecting the labels, on fresh objects. */
  method ReadFamilies(body: PushBody, labels: Labels)
    returns (r: Option<map<string, MetricFamily>>, ghost stored: Families, ghost owned: set<object>)
    ensures r.Some? <==> body.complete
    ensures fresh(owned)
    ensures r.Some? ==> Represents(r.value, stored, owned) && Injected(BodyFamilies(body.raws), stored, labels)
  {
    stored := map[];
    r, owned := ParsePushBody(body);
    if r.Some? {
      InjectAll(r.value, labels, owned);
      stored := ValueOf(r.value, owned);
      RepresentsValue(r.value, owned);
    }
  }
}
