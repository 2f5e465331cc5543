/**
 The Agent's stores, name by name. Every operation on a service touches one name only, so the
 registry, the bucket store, the proxy store and the table of health checks are seen through
 the slot of each name.
 */
module Slots {
  import opened Types
  import opened AgentConfigs
  import PushBucket

  /** A running health check, after defaults. */
  datatype Check = Check(url: string, interval: int, timeout: int)

  datatype ProxyTarget = ProxyTarget(target: string, auth: ProxyAuth)

  /** What the Agent holds under one name. */
  datatype Slot = Slot(
    entry: Option<ServiceEntry>,
    bucket: Option<PushBucket.Bucket>,
    proxy: Option<ProxyTarget>,
    check: Option<Check>)

  const EMPTY := Slot(None, None, None, None)

  const DEFAULT_INTERVAL := 30_000_000_000
  const DEFAULT_TIMEOUT := 5_000_000_000

  predicate IsKind(s: Slot, kind: ServiceKind) {
    s.entry.Some? && s.entry.value.kind == kind
  }

  /** The stores agree about the name. */
  predicate Consistent(s: Slot, n: string, started: bool) {
    && (s.entry.Some? ==> s.entry.value.name == n)
    && (s.bucket.Some? <==> IsKind(s, TypeBucket))
    && (s.proxy.Some? <==> IsKind(s, TypeProxy))
    && (s.check.Some? ==> s.entry.Some? && started)
  }

  /** What is left of it when static removals hit names of buckets and proxies. */
  predicate Weak(s: Slot, n: string, started: bool) {
    && (s.entry.Some? ==> s.entry.value.name == n)
    && (IsKind(s, TypeBucket) ==> s.bucket.Some?)
    && (IsKind(s, TypeProxy) ==> s.proxy.Some?)
    && (s.check.Some? ==> s.entry.Some? && started)
  }

  // Operations

  predicate Runs(hc: Option<Healthcheck>) {
    hc.Some? && hc.value.url != ""
  }

  function CheckOf(hc: Healthcheck): Check {
    Check(hc.url,
          if hc.interval <= 0 then DEFAULT_INTERVAL else hc.interval,
          if hc.timeout <= 0 then DEFAULT_TIMEOUT else hc.timeout)
  }

  function FirstStatus(url: string): HealthStatus {
    HealthStatus(Unknown, url, None, 0, "")
  }

  function WithHealth(e: Option<ServiceEntry>, h: HealthStatus): Option<ServiceEntry> {
    if e.Some? then Some(e.value.(health := Some(h))) else None
  }

  function Registered(s: Slot, hc: Option<Healthcheck>, started: bool): Slot {
    if !Runs(hc) || !started then s
    else s.(check := Some(CheckOf(hc.value)), entry := WithHealth(s.entry, FirstStatus(hc.value.url)))
  }

  function StaticAdded(s: Slot, c: StaticService, started: bool): Slot {
    if s.entry.Some? then s else Registered(s.(entry := Some(StaticEntry(c))), c.healthcheck, started)
  }

  function BucketAdded(s: Slot, c: BucketService, b: Option<PushBucket.Bucket>, started: bool): Slot {
    if s.bucket.Some? || s.entry.Some? then s
    else Registered(s.(entry := Some(BucketEntry(c.name, c.labels)), bucket := b), c.healthcheck, started)
  }

  function BucketUpdated(s: Slot, c: BucketService, started: bool): Slot {
    if s.bucket.None? || s.entry.None? then s
    else Registered(s.(entry := Some(BucketEntry(c.name, c.labels)), check := None), c.healthcheck, started)
  }

  function ProxyAdded(s: Slot, c: ProxyService, started: bool): Slot {
    if s.proxy.Some? || s.entry.Some? then s
    else Registered(s.(entry := Some(ProxyEntry(c.name, c.labels)), proxy := Some(ProxyTarget(c.target, c.auth))),
                    c.healthcheck, started)
  }

  function StaticRemoved(s: Slot): Slot {
    s.(check := None, entry := None)
  }

  function BucketRemoved(s: Slot): Slot {
    if s.bucket.None? then s.(check := None) else s.(check := None, bucket := None, entry := None)
  }

  function ProxyRemoved(s: Slot): Slot {
    if s.proxy.None? then s.(check := None) else s.(check := None, proxy := None, entry := None)
  }

  /** The first half of a reload: everything goes, except buckets that are still configured. */
  function Cleared(s: Slot, keepBucket: bool): Slot {
    if s.entry.None? then s
    else match s.entry.value.kind
      case TypeStatic => StaticRemoved(s)
      case TypeBucket => if keepBucket then s else BucketRemoved(s)
      case TypeProxy => ProxyRemoved(s)
  }

  function BucketReloaded(s: Slot, c: BucketService, b: Option<PushBucket.Bucket>, started: bool): Slot {
    if s.bucket.Some? then BucketUpdated(s, c, started) else BucketAdded(s, c, b, started)
  }

  function WithStatics(s: Slot, c: Option<StaticService>, started: bool): Slot {
    if c.Some? then StaticAdded(s, c.value, started) else s
  }

  function WithBuckets(s: Slot, c: Option<BucketService>, b: Option<PushBucket.Bucket>, started: bool): Slot {
    if c.Some? then BucketReloaded(s, c.value, b, started) else s
  }

  function WithProxies(s: Slot, c: Option<ProxyService>, started: bool): Slot {
    if c.Some? then ProxyAdded(s, c.value, started) else s
  }

  // What a configuration asks for under a name

  datatype Wanted = Wanted(
    statics: Option<StaticService>, bucket: Option<BucketService>, proxy: Option<ProxyService>)

  predicate Named(w: Wanted, n: string) {
    && (w.statics.Some? ==> w.statics.value.name == n)
    && (w.bucket.Some? ==> w.bucket.value.name == n)
    && (w.proxy.Some? ==> w.proxy.value.name == n)
  }

  /** In each section the first entry of the name counts. */
  function WantedAt(cfg: AgentConfig, n: string): (w: Wanted)
    ensures Named(w, n)
  {
    FirstIsFirst(cfg.statics, StaticName, n);
    FirstIsFirst(cfg.buckets, BucketName, n);
    FirstIsFirst(cfg.proxies, ProxyName, n);
    Wanted(First(cfg.statics, StaticName, n), First(cfg.buckets, BucketName, n), First(cfg.proxies, ProxyName, n))
  }

  /** The name is used in one section at most. */
  predicate OneSection(w: Wanted) {
    && !(w.statics.Some? && w.bucket.Some?)
    && !(w.statics.Some? && w.proxy.Some?)
    && !(w.bucket.Some? && w.proxy.Some?)
  }

  function Desired(w: Wanted): Option<ServiceEntry> {
    if w.statics.Some? then Some(StaticEntry(w.statics.value))
    else if w.bucket.Some? then Some(BucketEntry(w.bucket.value.name, w.bucket.value.labels))
    else if w.proxy.Some? then Some(ProxyEntry(w.proxy.value.name, w.proxy.value.labels))
    else None
  }

  function DesiredHealthcheck(w: Wanted): Option<Healthcheck> {
    if w.statics.Some? then w.statics.value.healthcheck
    else if w.bucket.Some? then w.bucket.value.healthcheck
    else if w.proxy.Some? then w.proxy.value.healthcheck
    else None
  }

  function Published(s: Slot): Option<ServiceEntry> {
    if s.entry.Some? then Some(WithoutHealth(s.entry.value)) else None
  }

  /** The second half of a reload: statics, then buckets, then proxies. */
  function Loaded(s: Slot, w: Wanted, b: Option<PushBucket.Bucket>, started: bool): Slot {
    WithProxies(WithBuckets(WithStatics(s, w.statics, started), w.bucket, b, started), w.proxy, started)
  }

  /** A reload as one name sees it; `b` is the bucket made for the name, if one is. */
  function Reloaded(s: Slot, w: Wanted, b: Option<PushBucket.Bucket>, started: bool): Slot {
    Loaded(Cleared(s, w.bucket.Some?), w, b, started)
  }

  /** The entry, the bucket store and the proxy store agree with the configuration. */
  predicate InStep(s: Slot, w: Wanted) {
    && Published(s) == Desired(w)
    && (s.bucket.Some? <==> w.bucket.Some?)
    && s.proxy == if w.proxy.None? then None else Some(ProxyTarget(w.proxy.value.target, w.proxy.value.auth))
  }

  /** A check runs exactly if one is asked for, with its URL and the intervals given or the
      defaults; the service then has the first, unknown, status. */
  predicate CheckedAs(s: Slot, hc: Option<Healthcheck>, started: bool) {
    if started && hc.Some? && hc.value.url != "" then
      && s.check.Some? && s.check.value.url == hc.value.url
      && s.check.value.interval == (if hc.value.interval > 0 then hc.value.interval else 30_000_000_000)
      && s.check.value.timeout == (if hc.value.timeout > 0 then hc.value.timeout else 5_000_000_000)
      && s.entry.Some? && s.entry.value.health == Some(HealthStatus(Unknown, hc.value.url, None, 0, ""))
    else s.check.None? && (s.entry.Some? ==> s.entry.value.health.None?)
  }

  predicate CheckInStep(s: Slot, w: Wanted, started: bool) {
    CheckedAs(s, DesiredHealthcheck(w), started)
  }

  /** What an addition that succeeds leaves. */
  lemma StaticAddedAs(s: Slot, c: StaticService, started: bool)
    requires s.entry.None?
    ensures AnnouncesStatic(StaticAdded(s, c, started).entry, c.name, c.targets, c.labels)
    ensures s.check.None? ==> CheckedAs(StaticAdded(s, c, started), c.healthcheck, started)
  {
    var e := StaticAdded(s, c, started).entry.value;
    EntriesAnnounce(c, c.name, c.labels, e.health);
    assert e == StaticEntry(c).(health := e.health);
  }

  lemma BucketAddedAs(s: Slot, c: BucketService, made: Option<PushBucket.Bucket>, started: bool)
    requires s.entry.None? && s.bucket.None?
    ensures AnnouncesBucket(BucketAdded(s, c, made, started).entry, c.name, c.labels)
    ensures s.check.None? ==> CheckedAs(BucketAdded(s, c, made, started), c.healthcheck, started)
  {
    var e := BucketAdded(s, c, made, started).entry.value;
    EntriesAnnounce(StaticService(c.name, [], c.labels, None), c.name, c.labels, e.health);
    assert e == BucketEntry(c.name, c.labels).(health := e.health);
  }

  lemma ProxyAddedAs(s: Slot, c: ProxyService, started: bool)
    requires s.entry.None? && s.proxy.None?
    ensures AnnouncesProxy(ProxyAdded(s, c, started).entry, c.name, c.labels)
    ensures s.check.None? ==> CheckedAs(ProxyAdded(s, c, started), c.healthcheck, started)
  {
    var e := ProxyAdded(s, c, started).entry.value;
    EntriesAnnounce(StaticService(c.name, [], c.labels, None), c.name, c.labels, e.health);
    assert e == ProxyEntry(c.name, c.labels).(health := e.health);
  }

  /** The entry announces what the configuration asks for: of several sections the first that has
      the name wins, but a bucket that was kept wins over all. */
  ghost predicate Announced(e: Option<ServiceEntry>, n: string, w: Wanted, kept: bool) {
    if kept && w.bucket.Some? then AnnouncesBucket(e, n, w.bucket.value.labels)
    else if w.statics.Some? then AnnouncesStatic(e, n, w.statics.value.targets, w.statics.value.labels)
    else if w.bucket.Some? then AnnouncesBucket(e, n, w.bucket.value.labels)
    else if w.proxy.Some? then AnnouncesProxy(e, n, w.proxy.value.labels)
    else e.None?
  }

  lemma PublishedAnnounces(s: Slot, n: string, w: Wanted, kept: bool)
    requires Named(w, n)
    requires Published(s) == if kept && w.bucket.Some? then Some(BucketEntry(n, w.bucket.value.labels)) else Desired(w)
    ensures Announced(s.entry, n, w, kept)
  {
    if s.entry.Some? {
      var h := s.entry.value.health;
      assert s.entry == Some(Published(s).value.(health := h));
      var c := if w.statics.Some? then w.statics.value else StaticService(n, [], map[], None);
      EntriesAnnounce(c, n, if w.bucket.Some? then w.bucket.value.labels else map[], h);
      EntriesAnnounce(c, n, if w.proxy.Some? then w.proxy.value.labels else map[], h);
    }
  }

  /** The buckets a reload can need are there. */
  predicate Supplied(s: Slot, w: Wanted, b: Option<PushBucket.Bucket>) {
    w.bucket.Some? && Cleared(s, true).bucket.None? ==> b.Some?
  }

  lemma ClearedKeepsWeak(s: Slot, n: string, keep: bool, started: bool)
    requires Weak(s, n, started)
    ensures Weak(Cleared(s, keep), n, started)
    ensures Cleared(s, true).bucket.None? ==> s.bucket.None?
  {
  }

  lemma LoadedKeepsWeak(s: Slot, n: string, w: Wanted, b: Option<PushBucket.Bucket>, started: bool)
    requires Named(w, n) && Weak(s, n, started) && (w.bucket.Some? && s.bucket.None? ==> b.Some?)
    ensures Weak(Loaded(s, w, b, started), n, started)
  {
    var s2 := WithStatics(s, w.statics, started);
    assert Weak(s2, n, started) && s2.bucket == s.bucket;
    assert Weak(WithBuckets(s2, w.bucket, b, started), n, started);
  }

  lemma ReloadKeepsWeak(s: Slot, n: string, w: Wanted, b: Option<PushBucket.Bucket>, started: bool)
    requires Named(w, n) && Weak(s, n, started) && Supplied(s, w, b)
    ensures Weak(Reloaded(s, w, b, started), n, started)
  {
    ClearedKeepsWeak(s, n, w.bucket.Some?, started);
    LoadedKeepsWeak(Cleared(s, w.bucket.Some?), n, w, b, started);
  }

  /** Of a consistent slot the removals leave a wanted bucket or nothing. */
  lemma ClearedConsistent(s: Slot, n: string, keep: bool, started: bool)
    requires Consistent(s, n, started)
    ensures Cleared(s, keep) == if keep && s.bucket.Some? then s else EMPTY
  {
  }

  /** The additions to an empty slot: the first section that has the name wins. */
  lemma LoadedFromEmpty(n: string, w: Wanted, b: Option<PushBucket.Bucket>, started: bool)
    requires Named(w, n) && (w.bucket.Some? && w.statics.None? ==> b.Some?)
    ensures
      var r := Loaded(EMPTY, w, b, started);
      && Consistent(r, n, started) && Published(r) == Desired(w) && CheckInStep(r, w, started)
      && (OneSection(w) ==> InStep(r, w))
      && r.bucket == if w.bucket.Some? && w.statics.None? then b else None
  {
  }

  /** The additions to a wanted bucket: it is updated, and neither of the others is added. */
  lemma LoadedFromBucket(s: Slot, n: string, w: Wanted, b: Option<PushBucket.Bucket>, started: bool)
    requires Named(w, n) && Consistent(s, n, started) && s.bucket.Some? && w.bucket.Some?
    ensures
      var r := Loaded(s, w, b, started);
      && r == BucketUpdated(s, w.bucket.value, started)
      && Consistent(r, n, started) && r.bucket == s.bucket && r.proxy.None?
      && Published(r) == Some(BucketEntry(n, w.bucket.value.labels))
      && (OneSection(w) ==> InStep(r, w) && CheckInStep(r, w, started))
  {
    assert WithStatics(s, w.statics, started) == s;
  }

  /** The entry that a reload leaves under a name, given what was there. */
  function Winner(s: Slot, n: string, w: Wanted): Option<ServiceEntry> {
    if s.bucket.Some? && w.bucket.Some? then Some(BucketEntry(n, w.bucket.value.labels)) else Desired(w)
  }

  /** Names used twice, exactly: a proxy never wins; of a static service and a bucket the
      bucket wins if it was there before, the static service if it was not. */
  lemma ReloadWithSharedNames(s: Slot, n: string, w: Wanted, b: Option<PushBucket.Bucket>, started: bool)
    requires Named(w, n) && Consistent(s, n, started) && Supplied(s, w, b)
    ensures Consistent(Reloaded(s, w, b, started), n, started)
    ensures Published(Reloaded(s, w, b, started)) == Winner(s, n, w)
  {
    ClearedConsistent(s, n, w.bucket.Some?, started);
    if s.bucket.Some? && w.bucket.Some? {
      LoadedFromBucket(s, n, w, b, started);
    } else {
      LoadedFromEmpty(n, w, b, started);
    }
  }

  /** From a consistent state a reload leaves the right stores: old buckets that are still
      wanted, new ones where there was none, proxies and checks as configured. */
  lemma ReloadReconciles(s: Slot, n: string, w: Wanted, b: Option<PushBucket.Bucket>, started: bool)
    requires Named(w, n) && Consistent(s, n, started) && Supplied(s, w, b) && OneSection(w)
    ensures InStep(Reloaded(s, w, b, started), w) && CheckInStep(Reloaded(s, w, b, started), w, started)
  {
    ClearedConsistent(s, n, w.bucket.Some?, started);
    if s.bucket.Some? && w.bucket.Some? {
      LoadedFromBucket(s, n, w, b, started);
    } else {
      LoadedFromEmpty(n, w, b, started);
    }
  }

  /** A bucket or proxy in its store without an entry of its kind, as a mistyped removal leaves it. */
  predicate Stray(s: Slot) {
    || (s.bucket.Some? && !IsKind(s, TypeBucket))
    || (s.proxy.Some? && !IsKind(s, TypeProxy))
  }

  /** A stray that the configuration asks for in its section. */
  predicate Orphan(s: Slot, w: Wanted) {
    || (w.bucket.Some? && s.bucket.Some? && !IsKind(s, TypeBucket))
    || (w.proxy.Some? && s.proxy.Some? && !IsKind(s, TypeProxy))
  }

  /** A reachable state is consistent exactly where there is no stray. */
  lemma WeakWithoutStray(s: Slot, n: string, started: bool)
    requires Weak(s, n, started)
    ensures Consistent(s, n, started) <==> !Stray(s)
  {
  }

  /** From any reachable state, exactly: a reload brings entry and stores in step with the
      configuration unless there is a stray under the name; the entry alone is as configured
      unless the stray is an orphan. */
  lemma ReloadReconcilesIff(s: Slot, n: string, w: Wanted, b: Option<PushBucket.Bucket>, started: bool)
    requires Named(w, n) && Weak(s, n, started) && OneSection(w) && Supplied(s, w, b)
    ensures InStep(Reloaded(s, w, b, started), w) <==> !Stray(s)
    ensures Published(Reloaded(s, w, b, started)) == Desired(w) <==> !Orphan(s, w)
    ensures Consistent(s, n, started) <==> !Stray(s)
  {
    if Consistent(s, n, started) {
      ReloadReconciles(s, n, w, b, started);
    }
  }

  lemma ReloadKeepsBuckets(s: Slot, n: string, w: Wanted, b: Option<PushBucket.Bucket>, started: bool)
    requires Named(w, n) && Weak(s, n, started)
    ensures
      var r := Reloaded(s, w, b, started);
      && (w.bucket.Some? && s.bucket.Some? ==> r.bucket == s.bucket)
      && (r.bucket.Some? && s.bucket.None? ==> r.bucket == b)
  {
  }

  /** All of this together. */
  lemma ReloadOutcome(s: Slot, n: string, w: Wanted, b: Option<PushBucket.Bucket>, started: bool)
    requires Named(w, n) && Weak(s, n, started) && Supplied(s, w, b)
    ensures
      var r := Reloaded(s, w, b, started);
      && Weak(r, n, started)
      && (Consistent(s, n, started) ==> Consistent(r, n, started) && Announced(r.entry, n, w, s.bucket.Some?))
      && (w.bucket.Some? && s.bucket.Some? ==> r.bucket == s.bucket)
      && (r.bucket.Some? && s.bucket.None? ==> r.bucket == b)
      && (OneSection(w) ==>
            && (InStep(r, w) <==> !Stray(s))
            && (Published(r) == Desired(w) <==> !Orphan(s, w))
            && (!Stray(s) ==> CheckInStep(r, w, started))
            && (!Orphan(s, w) ==> Announced(r.entry, n, w, false)))
      && (Consistent(s, n, started) <==> !Stray(s))
  {
    ReloadKeepsWeak(s, n, w, b, started);
    ReloadKeepsBuckets(s, n, w, b, started);
    if Consistent(s, n, started) {
      ReloadWithSharedNames(s, n, w, b, started);
      PublishedAnnounces(Reloaded(s, w, b, started), n, w, s.bucket.Some?);
    }
    if OneSection(w) {
      ReloadReconcilesIff(s, n, w, b, started);
      if !Orphan(s, w) { PublishedAnnounces(Reloaded(s, w, b, started), n, w, false); }
      if Consistent(s, n, started) {
        ReloadReconciles(s, n, w, b, started);
      }
    }
  }

  /** So the outcome depends on the past exactly for names of a static service and a bucket. */
  lemma ReloadForgetsThePast(s: Slot, t: Slot, n: string, w: Wanted, b: Option<PushBucket.Bucket>, started: bool)
    requires Named(w, n) && Consistent(s, n, started) && Consistent(t, n, started)
    requires Supplied(s, w, b) && Supplied(t, w, b)
    ensures Published(Reloaded(s, w, b, started)) == Published(Reloaded(t, w, b, started)) <==>
            !(w.statics.Some? && w.bucket.Some?) || (s.bucket.Some? <==> t.bucket.Some?)
  {
    ReloadWithSharedNames(s, n, w, b, started);
    ReloadWithSharedNames(t, n, w, b, started);
  }

  /** Updating a bucket twice is updating it once. */
  lemma UpdateTwice(s: Slot, n: string, c: BucketService, started: bool)
    requires Consistent(s, n, started) && s.bucket.Some? && c.name == n
    ensures BucketUpdated(BucketUpdated(s, c, started), c, started) == BucketUpdated(s, c, started)
  {
  }

  /** A second reload changes nothing, whether or not names are shared. */
  lemma ReloadIsIdempotent(s: Slot, n: string, w: Wanted, b: Option<PushBucket.Bucket>,
                           c: Option<PushBucket.Bucket>, started: bool)
    requires Named(w, n) && Consistent(s, n, started) && Supplied(s, w, b)
    ensures Reloaded(Reloaded(s, w, b, started), w, c, started) == Reloaded(s, w, b, started)
  {
    var r := Reloaded(s, w, b, started);
    ReloadWithSharedNames(s, n, w, b, started);
    ClearedConsistent(s, n, w.bucket.Some?, started);
    ClearedConsistent(r, n, w.bucket.Some?, started);
    if s.bucket.Some? && w.bucket.Some? {
      LoadedFromBucket(s, n, w, b, started);
      LoadedFromBucket(r, n, w, c, started);
      UpdateTwice(s, n, w.bucket.value, started);
    } else {
      LoadedFromEmpty(n, w, b, started);
      if r.bucket.Some? {
        LoadedFromBucket(r, n, w, c, started);
        AddThenUpdate(w.bucket.value, b, started);
      } else {
        BucketUnused(w, b, c, started);
      }
    }
  }

  /** What an update makes of a bucket just added is what the addition made. */
  lemma AddThenUpdate(c: BucketService, b: Option<PushBucket.Bucket>, started: bool)
    requires b.Some?
    ensures BucketUpdated(BucketAdded(EMPTY, c, b, started), c, started) == BucketAdded(EMPTY, c, b, started)
  {
  }

  /** Where no bucket results, it does not matter which was supplied. */
  lemma BucketUnused(w: Wanted, b: Option<PushBucket.Bucket>, c: Option<PushBucket.Bucket>, started: bool)
    requires w.bucket.None? || w.statics.Some?
    ensures Loaded(EMPTY, w, b, started) == Loaded(EMPTY, w, c, started)
  {
  }

  /** An orphan outlives every reload of that configuration. */
  lemma OrphanStaysOrphan(s: Slot, n: string, w: Wanted, b: Option<PushBucket.Bucket>, started: bool)
    requires Named(w, n) && Weak(s, n, started) && OneSection(w) && Orphan(s, w)
    ensures
      var r := Reloaded(s, w, b, started);
      && Orphan(r, w) && r.entry.None?
      && (w.bucket.Some? ==> r.bucket == s.bucket)
      && (w.proxy.Some? ==> r.proxy == s.proxy)
  {
  }

  // Runs

  datatype SlotOp =
    | AddStatic(static_: StaticService)
    | AddBucket(bucket: BucketService, made: PushBucket.Bucket)
    | UpdateBucket(bucket: BucketService)
    | AddProxy(proxy: ProxyService)
    | RemoveStatic
    | RemoveBucket
    | RemoveProxy
    | UpdateHealth(status: HealthStatus)
    | Reload(cfg: AgentConfig, made: PushBucket.Bucket)

  function AfterOp(s: Slot, n: string, op: SlotOp, started: bool): Slot {
    match op
    case AddStatic(c) => StaticAdded(s, c.(name := n), started)
    case AddBucket(c, b) => BucketAdded(s, c.(name := n), Some(b), started)
    case UpdateBucket(c) => BucketUpdated(s, c.(name := n), started)
    case AddProxy(c) => ProxyAdded(s, c.(name := n), started)
    case RemoveStatic => StaticRemoved(s)
    case RemoveBucket => BucketRemoved(s)
    case RemoveProxy => ProxyRemoved(s)
    case UpdateHealth(h) => s.(entry := WithHealth(s.entry, h))
    case Reload(cfg, b) => Reloaded(s, WantedAt(cfg, n), Some(b), started)
  }

  function AfterOps(s: Slot, n: string, ops: seq<SlotOp>, started: bool): Slot
    decreases |ops|
  {
    if ops == [] then s else AfterOps(AfterOp(s, n, ops[0], started), n, ops[1..], started)
  }

  /** A static removal keeps the stores consistent exactly when the name is not a bucket's or
      a proxy's; every other operation always does. */
  lemma OpKeepsConsistent(s: Slot, n: string, op: SlotOp, started: bool)
    requires Consistent(s, n, started)
    ensures Consistent(AfterOp(s, n, op, started), n, started) <==>
            !op.RemoveStatic? || (s.bucket.None? && s.proxy.None?)
  {
    if op.Reload? {
      ReloadWithSharedNames(s, n, WantedAt(op.cfg, n), Some(op.made), started);
    }
  }

  lemma OpKeepsWeak(s: Slot, n: string, op: SlotOp, started: bool)
    requires Weak(s, n, started)
    ensures Weak(AfterOp(s, n, op, started), n, started)
  {
    if op.Reload? {
      ReloadKeepsWeak(s, n, WantedAt(op.cfg, n), Some(op.made), started);
    }
  }

  /** Static removals hit only names that are neither buckets nor proxies at that time. */
  predicate RightType(s: Slot, n: string, ops: seq<SlotOp>, started: bool)
    decreases |ops|
  {
    ops == [] ||
    ((ops[0].RemoveStatic? ==> s.bucket.None? && s.proxy.None?) &&
     RightType(AfterOp(s, n, ops[0], started), n, ops[1..], started))
  }

  /** Every reachable state is consistent, and remains weakly so under any removal. */
  lemma {:induction false} RunsStayConsistent(s: Slot, n: string, ops: seq<SlotOp>, started: bool)
    requires Weak(s, n, started)
    ensures Weak(AfterOps(s, n, ops, started), n, started)
    ensures Consistent(s, n, started) && RightType(s, n, ops, started) ==>
              Consistent(AfterOps(s, n, ops, started), n, started)
    decreases |ops|
  {
    if ops != [] {
      OpKeepsWeak(s, n, ops[0], started);
      if Consistent(s, n, started) {
        OpKeepsConsistent(s, n, ops[0], started);
      }
      RunsStayConsistent(AfterOp(s, n, ops[0], started), n, ops[1..], started);
    }
  }

  /** Whether the operation reports success. */
  predicate Succeeds(s: Slot, op: SlotOp) {
    match op
    case AddStatic(_) => s.entry.None?
    case AddBucket(_, _) => s.bucket.None? && s.entry.None?
    case UpdateBucket(_) => s.bucket.Some? && s.entry.Some?
    case AddProxy(_) => s.proxy.None? && s.entry.None?
    case RemoveStatic => s.entry.Some?
    case RemoveBucket => s.bucket.Some? && s.entry.Some?
    case RemoveProxy => s.proxy.Some? && s.entry.Some?
    case UpdateHealth(_) => true
    case Reload(_, _) => true
  }

  /** A failed operation changes nothing, with one exception: a failed removal still stops the
      health check of the service that has the name, whatever its type. */
  lemma FailureChangesOnlyChecks(s: Slot, n: string, op: SlotOp, started: bool)
    requires Consistent(s, n, started) && !Succeeds(s, op)
    ensures AfterOp(s, n, op, started) == s <==>
            !((op.RemoveBucket? || op.RemoveProxy?) && s.check.Some?)
    ensures AfterOp(s, n, op, started).(check := s.check) == s
  {
  }

  // The paths announced for scrapes

  function BucketPath(n: string): string {
    "/bucket/" + n + "/metrics"
  }

  function ProxyPath(n: string): string {
    "/proxy/" + n + "/metrics"
  }

  /** A bucket or proxy is announced under its own path. */
  predicate PathOk(s: Slot, n: string) {
    && (IsKind(s, TypeBucket) ==> HasMetricsPath(s.entry.value, BucketPath(n)))
    && (IsKind(s, TypeProxy) ==> HasMetricsPath(s.entry.value, ProxyPath(n)))
  }

  lemma EntryPaths(n: string, labels: map<string, string>)
    ensures HasMetricsPath(BucketEntry(n, labels), BucketPath(n)) && HasMetricsPath(ProxyEntry(n, labels), ProxyPath(n))
  {
  }

  lemma OpKeepsPath(s: Slot, n: string, op: SlotOp, started: bool)
    requires PathOk(s, n)
    ensures PathOk(AfterOp(s, n, op, started), n)
  {
    match op
    case AddBucket(c, _) => EntryPaths(n, c.labels);
    case UpdateBucket(c) => EntryPaths(n, c.labels);
    case AddProxy(c) => EntryPaths(n, c.labels);
    case Reload(cfg, b) => ReloadKeepsPath(s, n, WantedAt(cfg, n), Some(b), started);
    case _ =>
  }

  lemma ReloadKeepsPath(s: Slot, n: string, w: Wanted, b: Option<PushBucket.Bucket>, started: bool)
    requires Named(w, n) && PathOk(s, n)
    ensures PathOk(Reloaded(s, w, b, started), n)
  {
    var s1 := WithStatics(Cleared(s, w.bucket.Some?), w.statics, started);
    assert PathOk(s1, n);
    var s2 := WithBuckets(s1, w.bucket, b, started);
    if w.bucket.Some? { EntryPaths(n, w.bucket.value.labels); }
    assert PathOk(s2, n);
    if w.proxy.Some? { EntryPaths(n, w.proxy.value.labels); }
  }

  /** Over any run, whatever labels are asked for, buckets and proxies stay announced under their
      own paths. */
  lemma {:induction false} RunsKeepPath(s: Slot, n: string, ops: seq<SlotOp>, started: bool)
    requires PathOk(s, n)
    ensures PathOk(AfterOps(s, n, ops, started), n)
    decreases |ops|
  {
    if ops != [] {
      OpKeepsPath(s, n, ops[0], started);
      RunsKeepPath(AfterOp(s, n, ops[0], started), n, ops[1..], started);
    }
  }

  // Failures at runs from an empty Agent

  /** A bucket or proxy removed as if it were a static service leaves an orphan, and the reload of a
      configuration that asks for it does not bring it back. */
  lemma MistypedRemovalOrphans(n: string, c: BucketService, p: ProxyService, b: PushBucket.Bucket, w: Wanted,
                               made: Option<PushBucket.Bucket>, started: bool)
    requires Named(w, n) && OneSection(w)
    ensures
      var s := AfterOps(EMPTY, n, [AddBucket(c, b), RemoveStatic], started);
      Stray(s) && (w.bucket.Some? ==> Orphan(s, w) && Published(Reloaded(s, w, made, started)) == None)
    ensures
      var s := AfterOps(EMPTY, n, [AddProxy(p), RemoveStatic], started);
      Stray(s) && (w.proxy.Some? ==> Orphan(s, w) && Published(Reloaded(s, w, made, started)) == None)
  {
    TwoOps(n, AddBucket(c, b), RemoveStatic, started);
    assert AfterOp(AfterOp(EMPTY, n, AddBucket(c, b), started), n, RemoveStatic, started) == EMPTY.(bucket := Some(b));
    TwoOps(n, AddProxy(p), RemoveStatic, started);
    assert AfterOp(AfterOp(EMPTY, n, AddProxy(p), started), n, RemoveStatic, started) ==
           EMPTY.(proxy := Some(ProxyTarget(p.target, p.auth)));
  }

  lemma TwoOps(n: string, op: SlotOp, then_: SlotOp, started: bool)
    ensures AfterOps(EMPTY, n, [op, then_], started) == AfterOp(AfterOp(EMPTY, n, op, started), n, then_, started)
  {
    var s := AfterOp(EMPTY, n, op, started);
    assert [op, then_][1..] == [then_];
    assert AfterOps(s, n, [then_], started) == AfterOps(AfterOp(s, n, then_, started), n, [], started);
  }

  /** A checked static service asked to go as a bucket or proxy stays, but is no longer checked. */
  lemma RefusedRemovalStopsCheck(n: string, c: StaticService, op: SlotOp)
    requires Runs(c.healthcheck) && (op.RemoveBucket? || op.RemoveProxy?)
    ensures
      var s := AfterOp(EMPTY, n, AddStatic(c), true);
      var t := AfterOps(EMPTY, n, [AddStatic(c), op], true);
      && !Succeeds(s, op) && s.check.Some?
      && t == s.(check := None) && Published(t) == Some(StaticEntry(c.(name := n)))
  {
    TwoOps(n, AddStatic(c), op, true);
  }
}
