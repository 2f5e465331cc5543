/**
 The Agent's stores as the server updates them in place. What each operation does is told by
 the slot of the name it is about; every other slot stays as it was, and the service stamp
 moves whenever the published list does.
 */
module AgentServer {
  import opened Types
  import opened Ordering
  import opened AgentConfigs
  import opened AgentRoutes
  import opened Slots
  import Reg = AgentRegistry
  import PushBucket

  function Find<T>(m: map<string, T>, n: string): Option<T> {
    if n in m then Some(m[n]) else None
  }

  /** The wanted buckets by name, and their names in order: the first entry of a name counts. */
  method DesiredBuckets(bs: seq<BucketService>) returns (desired: map<string, BucketService>, order: seq<string>)
    ensures forall n :: Find(desired, n) == First(bs, BucketName, n)
    ensures forall n :: n in order <==> n in desired
    ensures forall i, j :: 0 <= i < j < |order| ==> order[i] != order[j]
  {
    desired, order := map[], [];
    for i := 0 to |bs|
      invariant forall n :: Find(desired, n) == First(bs[..i], BucketName, n)
      invariant forall n :: n in order <==> n in desired
      invariant forall i, j :: 0 <= i < j < |order| ==> order[i] != order[j]
    {
      FirstUpTo(bs, BucketName, i);
      ghost var was := desired;
      if bs[i].name !in desired {
        desired := desired[bs[i].name := bs[i]];
        order := order + [bs[i].name];
      }
      forall n
        ensures Find(desired, n) == First(bs[..i + 1], BucketName, n)
      {
        assert Find(was, n) == First(bs[..i], BucketName, n);
      }
    }
    assert bs[..|bs|] == bs;
  }

  predicate Lists(es: seq<ServiceEntry>, n: string) {
    exists i :: 0 <= i < |es| && es[i].name == n
  }

  /** The sorted list holds each entry once, under its name. */
  lemma ListedOnce(m: map<string, ServiceEntry>, i: nat)
    requires KeyedBy(m, Reg.NameOf) && i < |Listing(m)|
    ensures Listing(m)[i].name in m && m[Listing(m)[i].name] == Listing(m)[i]
    ensures !Lists(Listing(m)[..i], Listing(m)[i].name)
  {
    ListingMembers(m, Listing(m)[i]);
    ListingSorted(m, Reg.NameOf);
    forall j | 0 <= j < i
      ensures Listing(m)[j].name != Listing(m)[i].name
    {
      assert Less(Reg.NameOf(Listing(m)[j]), Reg.NameOf(Listing(m)[i]));
      LessIrreflexive(Listing(m)[i].name);
    }
  }

  lemma AllListed(m: map<string, ServiceEntry>, n: string)
    requires KeyedBy(m, Reg.NameOf)
    ensures n in m <==> Lists(Listing(m), n)
  {
    if n in m {
      ListingMembers(m, m[n]);
      var i :| 0 <= i < |Listing(m)| && Listing(m)[i] == m[n];
      assert Listing(m)[i].name == n;
    }
    if Lists(Listing(m), n) {
      var i :| 0 <= i < |Listing(m)| && Listing(m)[i].name == n;
      ListingMembers(m, Listing(m)[i]);
    }
  }

  lemma ListsNext(es: seq<ServiceEntry>, i: nat, n: string)
    requires i < |es|
    ensures Lists(es[..i + 1], n) <==> Lists(es[..i], n) || es[i].name == n
  {
    assert es[..i + 1] == es[..i] + [es[i]];
    if Lists(es[..i], n) {
      var j :| 0 <= j < i && es[..i][j].name == n;
      assert es[..i + 1][j].name == n;
    }
    if es[i].name == n {
      assert es[..i + 1][i].name == n;
    }
    if Lists(es[..i + 1], n) && es[i].name != n {
      var j :| 0 <= j < i + 1 && es[..i + 1][j].name == n;
      assert es[..i][j].name == n;
    }
  }

  ghost predicate AllBlank(made: map<string, PushBucket.Bucket>)
    reads made.Values
  {
    forall n :: n in made ==> made[n].Blank()
  }

  /** What a scrape of a path is answered from. */
  datatype Scraped = FromBucket(bucket: PushBucket.Bucket) | FromProxy(proxy: ProxyTarget) | NotFound | NotScraped

  class HealthChecker {
    const reg: Reg.Registry
    var started: bool
    var cancels: map<string, Check>

    constructor (reg: Reg.Registry)
      ensures this.reg == reg && !started && cancels == map[]
    {
      this.reg, started, cancels := reg, false, map[];
    }

    method Start()
      modifies this
      ensures started && cancels == old(cancels)
    {
      started := true;
    }

    /** Starts a check and sets the first, unknown, status; without a URL it does nothing. */
    method Register(name: string, cfg: Option<Healthcheck>)
      modifies this, reg
      ensures started == old(started)
      ensures cancels == if Runs(cfg) && started then old(cancels)[name := CheckOf(cfg.value)] else old(cancels)
      ensures reg.entries ==
              if Runs(cfg) && started && name in old(reg.entries)
              then old(reg.entries)[name := old(reg.entries)[name].(health := Some(FirstStatus(cfg.value.url)))]
              else old(reg.entries)
      ensures Reg.Advances(old(reg.Model()), reg.Model())
    {
      Reg.StaysAdvanced(reg.Model());
      if cfg.None? || cfg.value.url == "" || !started {
        return;
      }
      cancels := cancels[name := CheckOf(cfg.value)];
      var now: nat := *;
      Reg.ApplyAdvances(reg.Model(), Reg.UpdateHealth(name, FirstStatus(cfg.value.url)), now);
      reg.UpdateHealth(name, FirstStatus(cfg.value.url), now);
    }

    method Unregister(name: string)
      modifies this
      ensures started == old(started) && cancels == old(cancels) - {name}
    {
      cancels := cancels - {name};
    }
  }

  class BucketStore {
    var buckets: map<string, PushBucket.Bucket>

    constructor ()
      ensures buckets == map[]
    {
      buckets := map[];
    }

    method Add(name: string, b: PushBucket.Bucket) returns (ok: bool)
      modifies this
      ensures ok <==> name !in old(buckets)
      ensures buckets == if ok then old(buckets)[name := b] else old(buckets)
    {
      if name in buckets {
        return false;
      }
      buckets := buckets[name := b];
      return true;
    }

    method Remove(name: string) returns (ok: bool)
      modifies this
      ensures ok <==> name in old(buckets)
      ensures buckets == old(buckets) - {name}
    {
      if name !in buckets {
        return false;
      }
      buckets := buckets - {name};
      return true;
    }
  }

  class ProxyStore {
    var proxies: map<string, ProxyTarget>

    constructor ()
      ensures proxies == map[]
    {
      proxies := map[];
    }

    method Add(name: string, p: ProxyTarget) returns (ok: bool)
      modifies this
      ensures ok <==> name !in old(proxies)
      ensures proxies == if ok then old(proxies)[name := p] else old(proxies)
    {
      if name in proxies {
        return false;
      }
      proxies := proxies[name := p];
      return true;
    }

    method Remove(name: string) returns (ok: bool)
      modifies this
      ensures ok <==> name in old(proxies)
      ensures proxies == old(proxies) - {name}
    {
      if name !in proxies {
        return false;
      }
      proxies := proxies - {name};
      return true;
    }
  }

  class Server {
    const reg: Reg.Registry
    const hc: HealthChecker
    const buckets: BucketStore
    const proxies: ProxyStore

    ghost predicate Wired() {
      hc.reg == reg
    }

    ghost function At(n: string): Slot
      reads reg, hc, buckets, proxies
    {
      Slot(Find(reg.entries, n), Find(buckets.buckets, n), Find(proxies.proxies, n), Find(hc.cancels, n))
    }

    /** What a scrape of that path finds. */
    function Answering(path: string): Scraped
      reads buckets, proxies
    {
      match RouteOf(path)
      case ScrapeBucket(n) => if n in buckets.buckets then FromBucket(buckets.buckets[n]) else NotFound
      case ScrapeProxy(n) => if n in proxies.proxies then FromProxy(proxies.proxies[n]) else NotFound
      case _ => NotScraped
    }

    /** A scrape of the path announced for a bucket or proxy finds that bucket or proxy, if the name
        has no slash at either end. */
    lemma ScrapeFinds(n: string)
      requires PathOk(At(n), n) && Weak(At(n), n, hc.started) && At(n).entry.Some? && Unslashed(n)
      ensures IsKind(At(n), TypeBucket) ==>
                Answering(At(n).entry.value.target.labels["__metrics_path__"]) == FromBucket(At(n).bucket.value)
      ensures IsKind(At(n), TypeProxy) ==>
                Answering(At(n).entry.value.target.labels["__metrics_path__"]) == FromProxy(At(n).proxy.value)
    {
      AnnouncedPathsLeadBack(n);
    }

    ghost predicate AllPathsOk()
      reads reg, hc, buckets, proxies
    {
      forall n :: PathOk(At(n), n)
    }

    constructor (now: nat)
      ensures Wired() && fresh(reg) && fresh(hc) && fresh(buckets) && fresh(proxies)
      ensures !hc.started && forall n :: At(n) == EMPTY
    {
      var r := new Reg.Registry(now);
      reg := r;
      hc := new HealthChecker(r);
      buckets := new BucketStore();
      proxies := new ProxyStore();
    }

    /** Only the slot of `name` changes, and the stamps keep up. */
    twostate predicate Becomes(name: string, new s: Slot)
      reads reg, hc, buckets, proxies
    {
      && At(name) == s
      && (forall m :: m != name ==> At(m) == old(At(m)))
      && hc.started == old(hc.started)
      && Reg.Advances(old(reg.Model()), reg.Model())
    }

    method RegAdd(e: ServiceEntry) returns (ok: bool)
      modifies reg
      ensures ok <==> e.name !in old(reg.entries)
      ensures !ok ==> reg.Model() == old(reg.Model())
      ensures reg.entries == if ok then old(reg.entries)[e.name := e] else old(reg.entries)
      ensures Reg.Advances(old(reg.Model()), reg.Model())
    {
      var now: nat := *;
      Reg.ApplyAdvances(reg.Model(), Reg.Add(e), now);
      ok := reg.Add(e, now);
    }

    method RegUpdate(e: ServiceEntry) returns (ok: bool)
      modifies reg
      ensures ok <==> e.name in old(reg.entries)
      ensures !ok ==> reg.Model() == old(reg.Model())
      ensures reg.entries == if ok then old(reg.entries)[e.name := e] else old(reg.entries)
      ensures Reg.Advances(old(reg.Model()), reg.Model())
    {
      var now: nat := *;
      Reg.ApplyAdvances(reg.Model(), Reg.Update(e), now);
      ok := reg.Update(e, now);
    }

    method RegRemove(name: string) returns (ok: bool)
      modifies reg
      ensures ok <==> name in old(reg.entries)
      ensures !ok ==> reg.Model() == old(reg.Model())
      ensures reg.entries == old(reg.entries) - {name}
      ensures Reg.Advances(old(reg.Model()), reg.Model())
    {
      var now: nat := *;
      Reg.ApplyAdvances(reg.Model(), Reg.Remove(name), now);
      ok := reg.Remove(name, now);
    }

    method RegisterCheck(name: string, cfg: Option<Healthcheck>)
      requires Wired()
      modifies reg, hc
      ensures Becomes(name, Registered(old(At(name)), cfg, hc.started))
    {
      hc.Register(name, cfg);
    }

    method AddBucket(name: string, labels: map<string, string>, cfg: Option<Healthcheck>)
      returns (ok: bool, ghost made: PushBucket.Bucket)
      requires Wired()
      modifies reg, hc, buckets
      ensures fresh(made) && made.Blank()
      ensures Becomes(name, BucketAdded(old(At(name)), BucketService(name, labels, cfg), Some(made), hc.started))
      ensures ok <==> old(At(name)).bucket.None? && old(At(name)).entry.None?
      ensures ok ==> AnnouncesBucket(At(name).entry, name, labels) && At(name).bucket == Some(made)
      ensures ok && old(At(name)).check.None? ==> CheckedAs(At(name), cfg, hc.started)
      ensures !ok ==> reg.Model() == old(reg.Model())
    {
      Reg.StaysAdvanced(reg.Model());
      var b := new PushBucket.Bucket();
      made := b;
      ok := buckets.Add(name, b);
      if !ok {
        return;
      }
      ok := RegAdd(BucketEntry(name, labels));
      if !ok {
        var _ := buckets.Remove(name);
        return;
      }
      RegisterCheck(name, cfg);
      BucketAddedAs(old(At(name)), BucketService(name, labels, cfg), Some(made), hc.started);
    }

    method UpdateBucket(name: string, labels: map<string, string>, cfg: Option<Healthcheck>) returns (ok: bool)
      requires Wired()
      modifies reg, hc
      ensures Becomes(name, BucketUpdated(old(At(name)), BucketService(name, labels, cfg), hc.started))
      ensures ok <==> old(At(name)).bucket.Some? && old(At(name)).entry.Some?
      ensures ok ==> AnnouncesBucket(At(name).entry, name, labels) && At(name).bucket == old(At(name)).bucket
      ensures ok ==> CheckedAs(At(name), cfg, hc.started)
      ensures !ok ==> reg.Model() == old(reg.Model())
    {
      Reg.StaysAdvanced(reg.Model());
      if name !in buckets.buckets {
        return false;
      }
      ok := RegUpdate(BucketEntry(name, labels));
      if !ok {
        return;
      }
      hc.Unregister(name);
      RegisterCheck(name, cfg);
    }

    /** Also on failure the health check of that name is gone. */
    method RemoveBucket(name: string) returns (ok: bool)
      requires Wired()
      modifies reg, hc, buckets
      ensures Becomes(name, BucketRemoved(old(At(name))))
      ensures ok <==> old(At(name)).bucket.Some? && old(At(name)).entry.Some?
      ensures !ok ==> reg.Model() == old(reg.Model())
    {
      Reg.StaysAdvanced(reg.Model());
      hc.Unregister(name);
      ok := buckets.Remove(name);
      if !ok {
        return;
      }
      ok := RegRemove(name);
    }

    method AddProxy(name: string, target: string, auth: ProxyAuth, labels: map<string, string>,
                    cfg: Option<Healthcheck>)
      returns (ok: bool)
      requires Wired()
      modifies reg, hc, proxies
      ensures Becomes(name, ProxyAdded(old(At(name)), ProxyService(name, target, auth, labels, cfg), hc.started))
      ensures ok <==> old(At(name)).proxy.None? && old(At(name)).entry.None?
      ensures ok ==> AnnouncesProxy(At(name).entry, name, labels) && At(name).proxy == Some(ProxyTarget(target, auth))
      ensures ok && old(At(name)).check.None? ==> CheckedAs(At(name), cfg, hc.started)
      ensures !ok ==> reg.Model() == old(reg.Model())
    {
      Reg.StaysAdvanced(reg.Model());
      ok := proxies.Add(name, ProxyTarget(target, auth));
      if !ok {
        return;
      }
      ok := RegAdd(ProxyEntry(name, labels));
      if !ok {
        var _ := proxies.Remove(name);
        return;
      }
      RegisterCheck(name, cfg);
      ProxyAddedAs(old(At(name)), ProxyService(name, target, auth, labels, cfg), hc.started);
    }

    method RemoveProxy(name: string) returns (ok: bool)
      requires Wired()
      modifies reg, hc, proxies
      ensures Becomes(name, ProxyRemoved(old(At(name))))
      ensures ok <==> old(At(name)).proxy.Some? && old(At(name)).entry.Some?
      ensures !ok ==> reg.Model() == old(reg.Model())
    {
      Reg.StaysAdvanced(reg.Model());
      hc.Unregister(name);
      ok := proxies.Remove(name);
      if !ok {
        return;
      }
      ok := RegRemove(name);
    }

    method AddStatic(name: string, targets: seq<string>, labels: map<string, string>, cfg: Option<Healthcheck>)
      returns (ok: bool)
      requires Wired()
      modifies reg, hc
      ensures Becomes(name, StaticAdded(old(At(name)), StaticService(name, targets, labels, cfg), hc.started))
      ensures ok <==> old(At(name)).entry.None?
      ensures ok ==> AnnouncesStatic(At(name).entry, name, targets, labels)
      ensures ok && old(At(name)).check.None? ==> CheckedAs(At(name), cfg, hc.started)
      ensures !ok ==> reg.Model() == old(reg.Model())
    {
      Reg.StaysAdvanced(reg.Model());
      ok := RegAdd(StaticEntry(StaticService(name, targets, labels, cfg)));
      if !ok {
        return;
      }
      RegisterCheck(name, cfg);
      StaticAddedAs(old(At(name)), StaticService(name, targets, labels, cfg), hc.started);
    }

    /** Whatever its type, a registered name is removed. */
    method RemoveStatic(name: string) returns (ok: bool)
      requires Wired()
      modifies reg, hc
      ensures Becomes(name, StaticRemoved(old(At(name))))
      ensures ok <==> old(At(name)).entry.Some?
      ensures !ok ==> reg.Model() == old(reg.Model())
    {
      hc.Unregister(name);
      ok := RegRemove(name);
    }
  
    // Reload

    method ClearOne(e: ServiceEntry, keepBucket: bool)
      requires Wired() && At(e.name).entry == Some(e)
      modifies reg, hc, buckets, proxies
      ensures Becomes(e.name, Cleared(old(At(e.name)), keepBucket))
    {
      match e.kind
      case TypeStatic =>
        var _ := RemoveStatic(e.name);
      case TypeBucket =>
        Reg.StaysAdvanced(reg.Model());
        if !keepBucket {
          var _ := RemoveBucket(e.name);
        }
      case TypeProxy =>
        var _ := RemoveProxy(e.name);
    }

    /** The removals of a reload, along the list of what is registered. */
    method ClearServices(desired: map<string, BucketService>)
      requires Wired() && KeyedBy(reg.entries, Reg.NameOf)
      modifies reg, hc, buckets, proxies
      ensures hc.started == old(hc.started) && Reg.Advances(old(reg.Model()), reg.Model())
      ensures forall n :: At(n) == Cleared(old(At(n)), n in desired)
    {
      ghost var was := reg.entries;
      Reg.StaysAdvanced(reg.Model());
      var list := reg.SortedEntries(true);
      for i := 0 to |list|
        invariant hc.started == old(hc.started)
        invariant Reg.Advances(old(reg.Model()), reg.Model())
        invariant forall n :: At(n) == if Lists(list[..i], n) then Cleared(old(At(n)), n in desired) else old(At(n))
      {
        ListedOnce(was, i);
        assert At(list[i].name) == old(At(list[i].name));
        label before:
        ClearOne(list[i], list[i].name in desired);
        forall n
          ensures At(n) == if Lists(list[..i + 1], n) then Cleared(old(At(n)), n in desired) else old(At(n))
        {
          ListsNext(list, i, n);
          assert n != list[i].name ==> At(n) == old@before(At(n));
        }
      }
      assert list[..|list|] == list;
      forall n
        ensures At(n) == Cleared(old(At(n)), n in desired)
      {
        AllListed(was, n);
      }
    }

    method AddStatics(cs: seq<StaticService>)
      requires Wired()
      modifies reg, hc
      ensures hc.started == old(hc.started) && Reg.Advances(old(reg.Model()), reg.Model())
      ensures forall n :: At(n) == WithStatics(old(At(n)), First(cs, StaticName, n), hc.started)
    {
      Reg.StaysAdvanced(reg.Model());
      for i := 0 to |cs|
        invariant hc.started == old(hc.started)
        invariant Reg.Advances(old(reg.Model()), reg.Model())
        invariant forall n :: At(n) == WithStatics(old(At(n)), First(cs[..i], StaticName, n), hc.started)
      {
        FirstUpTo(cs, StaticName, i);
        var _ := AddStatic(cs[i].name, cs[i].targets, cs[i].labels, cs[i].healthcheck);
      }
      assert cs[..|cs|] == cs;
    }

    method AddProxies(cs: seq<ProxyService>)
      requires Wired()
      modifies reg, hc, proxies
      ensures hc.started == old(hc.started) && Reg.Advances(old(reg.Model()), reg.Model())
      ensures forall n :: At(n) == WithProxies(old(At(n)), First(cs, ProxyName, n), hc.started)
    {
      Reg.StaysAdvanced(reg.Model());
      for i := 0 to |cs|
        invariant hc.started == old(hc.started)
        invariant Reg.Advances(old(reg.Model()), reg.Model())
        invariant forall n :: At(n) == WithProxies(old(At(n)), First(cs[..i], ProxyName, n), hc.started)
      {
        FirstUpTo(cs, ProxyName, i);
        var _ := AddProxy(cs[i].name, cs[i].target, cs[i].auth, cs[i].labels, cs[i].healthcheck);
      }
      assert cs[..|cs|] == cs;
    }

    /** Updates or creates one wanted bucket; `made` collects the ones created. */
    method ReloadBucket(c: BucketService, ghost made: map<string, PushBucket.Bucket>)
      returns (ghost more: map<string, PushBucket.Bucket>)
      requires Wired() && c.name !in made && AllBlank(made)
      modifies reg, hc, buckets
      ensures AllBlank(more) && more.Keys == made.Keys + (if old(At(c.name)).bucket.None? then {c.name} else {})
      ensures forall n :: n in more ==> if n == c.name then fresh(more[n]) else more[n] == made[n]
      ensures Becomes(c.name, BucketReloaded(old(At(c.name)), c, Find(more, c.name), hc.started))
    {
      more := made;
      if c.name in buckets.buckets {
        var _ := UpdateBucket(c.name, c.labels, c.healthcheck);
      } else {
        var _, b := AddBucket(c.name, c.labels, c.healthcheck);
        more := made[c.name := b];
      }
    }

    /** The bucket loop of a reload. */
    method LoadBuckets(desired: map<string, BucketService>, order: seq<string>)
      returns (ghost made: map<string, PushBucket.Bucket>)
      requires Wired()
      requires forall n :: n in order <==> n in desired
      requires forall n :: n in desired ==> desired[n].name == n
      requires forall i, j :: 0 <= i < j < |order| ==> order[i] != order[j]
      modifies reg, hc, buckets
      ensures hc.started == old(hc.started) && Reg.Advances(old(reg.Model()), reg.Model())
      ensures AllBlank(made) && forall n :: n in made ==> fresh(made[n])
      ensures forall n :: n in made <==> n in desired && old(At(n)).bucket.None?
      ensures forall n :: At(n) == WithBuckets(old(At(n)), Find(desired, n), Find(made, n), hc.started)
    {
      Reg.StaysAdvanced(reg.Model());
      made := map[];
      for i := 0 to |order|
        invariant hc.started == old(hc.started)
        invariant Reg.Advances(old(reg.Model()), reg.Model())
        invariant AllBlank(made)
        invariant forall n :: n in made ==> fresh(made[n])
        invariant forall n :: n in made <==> n in order[..i] && old(At(n)).bucket.None?
        invariant forall n ::
          At(n) == if n in order[..i]
                   then WithBuckets(old(At(n)), Find(desired, n), Find(made, n), hc.started) else old(At(n))
      {
        assert order[..i + 1] == order[..i] + [order[i]];
        ghost var was := made;
        label before:
        made := ReloadBucket(desired[order[i]], made);
        forall n
          ensures n in made <==> n in order[..i + 1] && old(At(n)).bucket.None?
          ensures At(n) == if n in order[..i + 1]
                           then WithBuckets(old(At(n)), Find(desired, n), Find(made, n), hc.started) else old(At(n))
        {
          if n != order[i] {
            assert At(n) == old@before(At(n)) && Find(made, n) == Find(was, n);
          }
        }
      }
      assert order[..|order|] == order;
    }
  
    ghost predicate AllConsistent()
      reads reg, hc, buckets, proxies
    {
      forall n :: Consistent(At(n), n, hc.started)
    }

    ghost predicate AllWeak()
      reads reg, hc, buckets, proxies
    {
      forall n :: Weak(At(n), n, hc.started)
    }

    /** Each name goes through the removals and then the three sections of the configuration. */
    method ReloadByName(cfg: AgentConfig) returns (ghost made: map<string, PushBucket.Bucket>)
      requires Wired() && AllWeak()
      modifies reg, hc, buckets, proxies
      ensures hc.started == old(hc.started) && Reg.Advances(old(reg.Model()), reg.Model())
      ensures AllBlank(made) && forall n :: n in made ==> fresh(made[n])
      ensures forall n :: Supplied(old(At(n)), WantedAt(cfg, n), Find(made, n))
      ensures forall n :: At(n) == Reloaded(old(At(n)), WantedAt(cfg, n), Find(made, n), hc.started)
    {
      var desired, order := DesiredBuckets(cfg.buckets);
      NamedByKey(desired, cfg.buckets);
      KeyedByName();
      ClearServices(desired);
      label cleared:
      made := LoadServices(cfg, desired, order);
      forall n
        ensures Supplied(old(At(n)), WantedAt(cfg, n), Find(made, n))
        ensures At(n) == Reloaded(old(At(n)), WantedAt(cfg, n), Find(made, n), hc.started)
      {
        assert old@cleared(At(n)) == Cleared(old(At(n)), n in desired);
        assert WantedAt(cfg, n).bucket == Find(desired, n);
      }
    }

    /** The additions of a reload. */
    method LoadServices(cfg: AgentConfig, desired: map<string, BucketService>, order: seq<string>)
      returns (ghost made: map<string, PushBucket.Bucket>)
      requires Wired()
      requires forall n :: Find(desired, n) == First(cfg.buckets, BucketName, n)
      requires forall n :: n in order <==> n in desired
      requires forall n :: n in desired ==> desired[n].name == n
      requires forall i, j :: 0 <= i < j < |order| ==> order[i] != order[j]
      modifies reg, hc, buckets, proxies
      ensures hc.started == old(hc.started) && Reg.Advances(old(reg.Model()), reg.Model())
      ensures AllBlank(made) && forall n :: n in made ==> fresh(made[n])
      ensures forall n :: n in made <==> n in desired && old(At(n)).bucket.None?
      ensures forall n :: At(n) == Loaded(old(At(n)), WantedAt(cfg, n), Find(made, n), hc.started)
    {
      AddStatics(cfg.statics);
      label added:
      assert forall n :: old@added(At(n)).bucket == old(At(n)).bucket;
      made := LoadBuckets(desired, order);
      label loaded:
      AddProxies(cfg.proxies);
      forall n
        ensures At(n) == Loaded(old(At(n)), WantedAt(cfg, n), Find(made, n), hc.started)
      {
        assert old@added(At(n)) == WithStatics(old(At(n)), WantedAt(cfg, n).statics, hc.started);
        assert old@loaded(At(n)) == WithBuckets(old@added(At(n)), WantedAt(cfg, n).bucket, Find(made, n), hc.started);
      }
    }

    /** From any reachable state a reload leaves, under a name, exactly what the configuration asks
        for, in registry and stores, unless a stray is left there: then, and only then, it fails
        to. Consistent stores have no strays and stay consistent. No bucket object is touched:
        one that is still wanted keeps all its groups, and one that had to be made starts empty. */
    method ReloadConfigServices(cfg: AgentConfig)
      requires Wired() && AllWeak()
      modifies reg, hc, buckets, proxies
      ensures AllWeak() && (old(AllConsistent()) ==> AllConsistent())
      ensures hc.started == old(hc.started) && Reg.Advances(old(reg.Model()), reg.Model())
      ensures forall n :: SlotReloaded(n, WantedAt(cfg, n))
      ensures old(AllPathsOk()) ==> AllPathsOk()
      ensures forall n :: At(n).bucket.Some? && old(At(n)).bucket.None? ==>
                fresh(At(n).bucket.value) && At(n).bucket.value.Blank()
    {
      ghost var made := ReloadByName(cfg);
      forall n
        ensures Weak(At(n), n, hc.started)
        ensures Consistent(old(At(n)), n, hc.started) ==> Consistent(At(n), n, hc.started)
        ensures SlotReloaded(n, WantedAt(cfg, n))
        ensures At(n).bucket.Some? && old(At(n)).bucket.None? ==> n in made && At(n).bucket.value == made[n]
      {
        ReloadOutcome(old(At(n)), n, WantedAt(cfg, n), Find(made, n), hc.started);
      }
      forall n | old(AllPathsOk())
        ensures PathOk(At(n), n)
      {
        assert old(PathOk(At(n), n));
        ReloadKeepsPath(old(At(n)), n, WantedAt(cfg, n), Find(made, n), hc.started);
      }
    }

    /** What a reload makes of one name. If one section uses it: in step exactly if no stray was
        there, the entry as configured exactly if no orphan was. In any case a bucket that is still
        wanted stays, and of a consistent slot it is known which section wins. */
    twostate predicate SlotReloaded(n: string, new w: Wanted)
      reads reg, hc, buckets, proxies
    {
      && (OneSection(w) ==>
            && (InStep(At(n), w) <==> !Stray(old(At(n))))
            && (Published(At(n)) == Desired(w) <==> !Orphan(old(At(n)), w))
            && (!Orphan(old(At(n)), w) ==> Announced(At(n).entry, n, w, false))
            && (!Stray(old(At(n))) ==> CheckInStep(At(n), w, hc.started)))
      && (w.bucket.Some? && old(At(n)).bucket.Some? ==> At(n).bucket == old(At(n)).bucket)
      && (Consistent(old(At(n)), n, hc.started) ==> Announced(At(n).entry, n, w, old(At(n)).bucket.Some?))
    }

    lemma KeyedByName()
      requires AllWeak()
      ensures KeyedBy(reg.entries, Reg.NameOf)
    {
      forall n | n in reg.entries
        ensures Reg.NameOf(reg.entries[n]) == n
      {
        assert At(n).entry == Some(reg.entries[n]);
      }
    }
  }

  lemma NamedByKey(desired: map<string, BucketService>, bs: seq<BucketService>)
    requires forall n :: Find(desired, n) == First(bs, BucketName, n)
    ensures forall n :: n in desired ==> desired[n].name == n
  {
    forall n | n in desired
      ensures desired[n].name == n
    {
      assert Find(desired, n) == Some(desired[n]);
      FirstIsFirst(bs, BucketName, n);
    }
  }
}
