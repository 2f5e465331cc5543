/**
 The Agent's configuration: the part that names services, its listen address, and the copies
 the management handlers work on.
 */
module AgentConfigs {
  import opened Types

  datatype Healthcheck = Healthcheck(url: string, interval: int, timeout: int)

  datatype ProxyAuth = ProxyAuth(kind: string, token: string, username: string, password: string)

  datatype StaticService = StaticService(
    name: string, targets: seq<string>, labels: map<string, string>, healthcheck: Option<Healthcheck>)

  datatype BucketService = BucketService(
    name: string, labels: map<string, string>, healthcheck: Option<Healthcheck>)

  datatype ProxyService = ProxyService(
    name: string, target: string, auth: ProxyAuth, labels: map<string, string>, healthcheck: Option<Healthcheck>)

  /** The sections that no service depends on. */
  datatype Settings = Settings(token: string, nodeAttrs: bool, allowAnonymous: bool, socket: string)

  datatype AgentConfig = AgentConfig(
    listen: string,
    settings: Settings,
    statics: seq<StaticService>,
    buckets: seq<BucketService>,
    proxies: seq<ProxyService>)

  const StaticName: StaticService -> string := (c: StaticService) => c.name
  const BucketName: BucketService -> string := (c: BucketService) => c.name
  const ProxyName: ProxyService -> string := (c: ProxyService) => c.name

  /** The first element of that name: the one that counts. */
  function First<T>(xs: seq<T>, name: T -> string, n: string): Option<T> {
    if xs == [] then None
    else
      var before := First(xs[..|xs| - 1], name, n);
      if before.None? && name(xs[|xs| - 1]) == n then Some(xs[|xs| - 1]) else before
  }

  lemma {:induction false} FirstIsFirst<T>(xs: seq<T>, name: T -> string, n: string)
    ensures First(xs, name, n).None? ==> forall i :: 0 <= i < |xs| ==> name(xs[i]) != n
    ensures First(xs, name, n).Some? ==>
              exists i :: 0 <= i < |xs| && xs[i] == First(xs, name, n).value && name(xs[i]) == n &&
                          forall j :: 0 <= j < i ==> name(xs[j]) != n
    decreases |xs|
  {
    if xs != [] {
      var before := xs[..|xs| - 1];
      FirstIsFirst(before, name, n);
      if First(before, name, n).Some? {
        var i :| 0 <= i < |before| && before[i] == First(before, name, n).value && name(before[i]) == n &&
                 forall j :: 0 <= j < i ==> name(before[j]) != n;
        assert xs[i] == before[i];
        assert forall j :: 0 <= j < i ==> xs[j] == before[j];
      } else if name(xs[|xs| - 1]) == n {
        assert forall j :: 0 <= j < |before| ==> xs[j] == before[j];
      }
    }
  }

  lemma FirstUpTo<T>(xs: seq<T>, name: T -> string, i: nat)
    requires i < |xs|
    ensures forall n :: First(xs[..i + 1], name, n) ==
                        if First(xs[..i], name, n).None? && name(xs[i]) == n then Some(xs[i])
                        else First(xs[..i], name, n)
  {
    assert xs[..i + 1][..i] == xs[..i];
  }

  /** Appending an entry matters only for its own name, and only if that name is free. */
  lemma FirstAppended<T>(xs: seq<T>, x: T, name: T -> string, n: string)
    ensures First(xs + [x], name, n) ==
            if First(xs, name, n).None? && name(x) == n then Some(x) else First(xs, name, n)
  {
    assert (xs + [x])[..|xs|] == xs;
  }

  /** What the Go helper `filterSlice` keeps when asked to drop a name. */
  function Without<T>(xs: seq<T>, name: T -> string, gone: string): seq<T> {
    if xs == [] then []
    else
      var before := Without(xs[..|xs| - 1], name, gone);
      if name(xs[|xs| - 1]) != gone then before + [xs[|xs| - 1]] else before
  }

  /** Dropping a name drops all entries of that name, and no other entry. */
  lemma {:induction false} FirstWithout<T>(xs: seq<T>, name: T -> string, gone: string, n: string)
    ensures First(Without(xs, name, gone), name, n) == if n == gone then None else First(xs, name, n)
    decreases |xs|
  {
    if xs != [] {
      var before, last := xs[..|xs| - 1], xs[|xs| - 1];
      FirstWithout(before, name, gone, n);
      if name(last) != gone {
        FirstAppended(Without(before, name, gone), last, name, n);
      }
    }
  }

  method FilterSlice<T>(xs: seq<T>, name: T -> string, gone: string) returns (out: seq<T>)
    ensures out == Without(xs, name, gone)
  {
    out := [];
    for i := 0 to |xs|
      invariant out == Without(xs[..i], name, gone)
    {
      assert xs[..i + 1][..i] == xs[..i];
      if name(xs[i]) != gone {
        out := out + [xs[i]];
      }
    }
    assert xs[..|xs|] == xs;
  }

  // The entries the Agent registers for them

  function StaticEntry(c: StaticService): ServiceEntry {
    ServiceEntry(c.name, TypeStatic, SDTarget(c.targets, c.labels["__tsd_service_name" := c.name]), None)
  }

  function SelfTarget(name: string, kind: string, path: string, labels: map<string, string>): SDTarget {
    SDTarget(["{self}"],
             labels["__tsd_service_name" := name]["__tsd_service_type" := kind]["__metrics_path__" := path])
  }

  function BucketEntry(name: string, labels: map<string, string>): ServiceEntry {
    ServiceEntry(name, TypeBucket, SelfTarget(name, "bucket", "/bucket/" + name + "/metrics", labels), None)
  }

  function ProxyEntry(name: string, labels: map<string, string>): ServiceEntry {
    ServiceEntry(name, TypeProxy, SelfTarget(name, "proxy", "/proxy/" + name + "/metrics", labels), None)
  }

  // What is announced

  /** The labels asked for, with the Agent's own in place of any of the same name. */
  ghost predicate Labelled(got: map<string, string>, asked: map<string, string>, own: map<string, string>) {
    && (forall l :: l in got <==> l in asked || l in own)
    && (forall l :: l in got ==> got[l] == if l in own then own[l] else asked[l])
  }

  ghost predicate AnnouncesStatic(e: Option<ServiceEntry>, name: string, targets: seq<string>,
                                  labels: map<string, string>)
  {
    && e.Some? && e.value.name == name && e.value.kind == TypeStatic && e.value.target.targets == targets
    && Labelled(e.value.target.labels, labels, map["__tsd_service_name" := name])
  }

  ghost predicate AnnouncesBucket(e: Option<ServiceEntry>, name: string, labels: map<string, string>) {
    && e.Some? && e.value.name == name && e.value.kind == TypeBucket && e.value.target.targets == ["{self}"]
    && Labelled(e.value.target.labels, labels,
                map["__tsd_service_name" := name, "__tsd_service_type" := "bucket",
                    "__metrics_path__" := "/bucket/" + name + "/metrics"])
  }

  ghost predicate AnnouncesProxy(e: Option<ServiceEntry>, name: string, labels: map<string, string>) {
    && e.Some? && e.value.name == name && e.value.kind == TypeProxy && e.value.target.targets == ["{self}"]
    && Labelled(e.value.target.labels, labels,
                map["__tsd_service_name" := name, "__tsd_service_type" := "proxy",
                    "__metrics_path__" := "/proxy/" + name + "/metrics"])
  }

  lemma EntriesAnnounce(c: StaticService, name: string, labels: map<string, string>, h: Option<HealthStatus>)
    ensures AnnouncesStatic(Some(StaticEntry(c).(health := h)), c.name, c.targets, c.labels)
    ensures AnnouncesBucket(Some(BucketEntry(name, labels).(health := h)), name, labels)
    ensures AnnouncesProxy(Some(ProxyEntry(name, labels).(health := h)), name, labels)
  {
  }

  predicate HasMetricsPath(e: ServiceEntry, path: string) {
    "__metrics_path__" in e.target.labels && e.target.labels["__metrics_path__"] == path
  }

  /** Dropping a name keeps all other entries, each as often and in the order it was. */
  lemma {:induction false} WithoutJoin<T>(xs: seq<T>, ys: seq<T>, name: T -> string, gone: string)
    ensures Without(xs + ys, name, gone) == Without(xs, name, gone) + Without(ys, name, gone)
    decreases |ys|
  {
    if ys == [] {
      assert xs + ys == xs;
    } else {
      assert (xs + ys)[..|xs + ys| - 1] == xs + ys[..|ys| - 1];
      WithoutJoin(xs, ys[..|ys| - 1], name, gone);
    }
  }

  lemma {:induction false} WithoutKeepsOthers<T>(xs: seq<T>, name: T -> string, gone: string, x: T)
    ensures multiset(Without(xs, name, gone))[x] == if name(x) == gone then 0 else multiset(xs)[x]
    decreases |xs|
  {
    if xs != [] {
      WithoutKeepsOthers(xs[..|xs| - 1], name, gone, x);
      assert xs == xs[..|xs| - 1] + [xs[|xs| - 1]];
    }
  }
}
