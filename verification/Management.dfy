/**
 The Agent's management requests: each saves the next configuration, applies the change to the
 stores, and publishes it, or rolls the file back. Between the locked sections the listen
 address may change; the service sections may not.
 */
module Management {
  import opened Types
  import opened AgentConfigs
  import opened Slots
  import opened AgentServer
  import PushBucket

  /** The service sections of a configuration. */
  datatype Sections = Sections(statics: seq<StaticService>, buckets: seq<BucketService>, proxies: seq<ProxyService>)

  function SectionsOf(cfg: AgentConfig): Sections {
    Sections(cfg.statics, cfg.buckets, cfg.proxies)
  }

  // Copies of a configuration

  method CloneStatics(xs: seq<StaticService>) returns (r: seq<StaticService>)
    ensures r == xs
  {
    var out := new StaticService[|xs|];
    for i := 0 to |xs|
      invariant out[..i] == xs[..i]
    {
      out[i] := StaticService(xs[i].name, xs[i].targets, xs[i].labels, xs[i].healthcheck);
    }
    return out[..];
  }

  method CloneBuckets(xs: seq<BucketService>) returns (r: seq<BucketService>)
    ensures r == xs
  {
    var out := new BucketService[|xs|];
    for i := 0 to |xs|
      invariant out[..i] == xs[..i]
    {
      out[i] := BucketService(xs[i].name, xs[i].labels, xs[i].healthcheck);
    }
    return out[..];
  }

  method CloneProxies(xs: seq<ProxyService>) returns (r: seq<ProxyService>)
    ensures r == xs
  {
    var out := new ProxyService[|xs|];
    for i := 0 to |xs|
      invariant out[..i] == xs[..i]
    {
      out[i] := ProxyService(xs[i].name, xs[i].target, xs[i].auth, xs[i].labels, xs[i].healthcheck);
    }
    return out[..];
  }

  method CloneAgentConfig(cfg: AgentConfig) returns (out: AgentConfig)
    ensures out == cfg
  {
    var statics := CloneStatics(cfg.statics);
    var buckets := CloneBuckets(cfg.buckets);
    var proxies := CloneProxies(cfg.proxies);
    out := AgentConfig(cfg.listen, cfg.settings, statics, buckets, proxies);
  }

  // What an edit of a section does to what is wanted under each name

  lemma WantedFollowsSections(a: AgentConfig, b: AgentConfig, n: string)
    requires SectionsOf(a) == SectionsOf(b)
    ensures WantedAt(a, n) == WantedAt(b, n)
  {
  }

  lemma StaticAppended(cfg: AgentConfig, c: StaticService, n: string)
    ensures WantedAt(cfg.(statics := cfg.statics + [c]), n) ==
            if n == c.name && WantedAt(cfg, n).statics.None? then WantedAt(cfg, n).(statics := Some(c))
            else WantedAt(cfg, n)
  {
    FirstAppended(cfg.statics, c, StaticName, n);
  }

  lemma BucketAppended(cfg: AgentConfig, c: BucketService, n: string)
    ensures WantedAt(cfg.(buckets := cfg.buckets + [c]), n) ==
            if n == c.name && WantedAt(cfg, n).bucket.None? then WantedAt(cfg, n).(bucket := Some(c))
            else WantedAt(cfg, n)
  {
    FirstAppended(cfg.buckets, c, BucketName, n);
  }

  lemma ProxyAppended(cfg: AgentConfig, c: ProxyService, n: string)
    ensures WantedAt(cfg.(proxies := cfg.proxies + [c]), n) ==
            if n == c.name && WantedAt(cfg, n).proxy.None? then WantedAt(cfg, n).(proxy := Some(c))
            else WantedAt(cfg, n)
  {
    FirstAppended(cfg.proxies, c, ProxyName, n);
  }

  lemma StaticDropped(cfg: AgentConfig, gone: string, n: string)
    ensures WantedAt(cfg.(statics := Without(cfg.statics, StaticName, gone)), n) ==
            if n == gone then WantedAt(cfg, n).(statics := None) else WantedAt(cfg, n)
  {
    FirstWithout(cfg.statics, StaticName, gone, n);
  }

  lemma BucketDropped(cfg: AgentConfig, gone: string, n: string)
    ensures WantedAt(cfg.(buckets := Without(cfg.buckets, BucketName, gone)), n) ==
            if n == gone then WantedAt(cfg, n).(bucket := None) else WantedAt(cfg, n)
  {
    FirstWithout(cfg.buckets, BucketName, gone, n);
  }

  lemma ProxyDropped(cfg: AgentConfig, gone: string, n: string)
    ensures WantedAt(cfg.(proxies := Without(cfg.proxies, ProxyName, gone)), n) ==
            if n == gone then WantedAt(cfg, n).(proxy := None) else WantedAt(cfg, n)
  {
    FirstWithout(cfg.proxies, ProxyName, gone, n);
  }

  /** One name of an Agent in step: consistent stores that hold what the configuration asks
      for, in one section at most. */
  predicate Synced(s: Slot, n: string, w: Wanted, started: bool) {
    Consistent(s, n, started) && OneSection(w) && InStep(s, w)
  }

  lemma StaticStaysSynced(s: Slot, n: string, w: Wanted, c: StaticService, started: bool)
    requires Named(w, n) && Synced(s, n, w, started) && s.entry.None? && c.name == n
    ensures w.statics.None? && Synced(StaticAdded(s, c, started), n, w.(statics := Some(c)), started)
  {
  }

  lemma BucketStaysSynced(s: Slot, n: string, w: Wanted, c: BucketService, b: PushBucket.Bucket, started: bool)
    requires Named(w, n) && Synced(s, n, w, started) && s.entry.None? && c.name == n
    ensures w.bucket.None? && Synced(BucketAdded(s, c, Some(b), started), n, w.(bucket := Some(c)), started)
  {
  }

  lemma ProxyStaysSynced(s: Slot, n: string, w: Wanted, c: ProxyService, started: bool)
    requires Named(w, n) && Synced(s, n, w, started) && s.entry.None? && c.name == n
    ensures w.proxy.None? && Synced(ProxyAdded(s, c, started), n, w.(proxy := Some(c)), started)
  {
  }

  /** A removal that succeeds keeps the name in step exactly when its type is right. */
  lemma RemovedStaysSynced(s: Slot, n: string, w: Wanted, started: bool)
    requires Named(w, n) && Synced(s, n, w, started) && s.entry.Some?
    ensures Synced(StaticRemoved(s), n, w.(statics := None), started) <==> w.statics.Some?
    ensures s.bucket.Some? ==> w.bucket.Some? && Synced(BucketRemoved(s), n, w.(bucket := None), started)
    ensures s.proxy.Some? ==> w.proxy.Some? && Synced(ProxyRemoved(s), n, w.(proxy := None), started)
  {
  }

  // Requests

  datatype Outcome = Done | BadRequest | SaveFailed | Refused | RollbackFailed | NotReloaded

  /** The request got as far as the stores. */
  predicate Tried(outcome: Outcome) {
    outcome.Done? || outcome.Refused? || outcome.RollbackFailed?
  }

  datatype ProxyRequest = ProxyRequest(
    name: string, target: string, authType: string, token: string, username: string, password: string,
    labels: map<string, string>, healthcheckURL: string)

  function RequestedCheck(url: string): Option<Healthcheck> {
    if url != "" then Some(Healthcheck(url, 0, 0)) else None
  }

  /** The auth type is taken from the credentials when it is not given; both kinds at once are
      refused. */
  function DetectAuth(req: ProxyRequest): Option<ProxyAuth> {
    if req.authType != "" && req.authType != "none"
    then Some(ProxyAuth(req.authType, req.token, req.username, req.password))
    else
      var hasToken, hasBasic := req.token != "", req.username != "" || req.password != "";
      if hasToken && hasBasic then None
      else Some(ProxyAuth(if hasToken then "bearer" else if hasBasic then "basic" else req.authType,
                          req.token, req.username, req.password))
  }

  function RequestedProxy(req: ProxyRequest, auth: ProxyAuth): ProxyService {
    ProxyService(req.name, req.target, auth, req.labels, RequestedCheck(req.healthcheckURL))
  }

  datatype Request =
    | AddStaticRequest(name: string, targets: seq<string>, labels: map<string, string>, healthcheckURL: string)
    | AddBucketRequest(name: string, labels: map<string, string>, healthcheckURL: string)
    | AddProxyRequest(proxy: ProxyRequest)
    | RemoveStaticRequest(name: string)
    | RemoveBucketRequest(name: string)
    | RemoveProxyRequest(name: string)
    | ReloadRequest

  /** The sections that a request asks for. */
  function AfterRequest(m: Sections, req: Request): Sections {
    match req
    case AddStaticRequest(name, targets, labels, url) =>
      m.(statics := m.statics + [StaticService(name, targets, labels, RequestedCheck(url))])
    case AddBucketRequest(name, labels, url) =>
      m.(buckets := m.buckets + [BucketService(name, labels, RequestedCheck(url))])
    case AddProxyRequest(proxy) =>
      if DetectAuth(proxy).None? then m
      else m.(proxies := m.proxies + [RequestedProxy(proxy, DetectAuth(proxy).value)])
    case RemoveStaticRequest(name) => m.(statics := Without(m.statics, StaticName, name))
    case RemoveBucketRequest(name) => m.(buckets := Without(m.buckets, BucketName, name))
    case RemoveProxyRequest(name) => m.(proxies := Without(m.proxies, ProxyName, name))
    case ReloadRequest => m
  }

  /** The sections after a run: the requests that were done, in order. */
  function AfterRequests(m: Sections, reqs: seq<Request>, outcomes: seq<Outcome>): Sections
    requires |reqs| == |outcomes|
  {
    if reqs == [] then m
    else
      var last := |reqs| - 1;
      var before := AfterRequests(m, reqs[..last], outcomes[..last]);
      if outcomes[last].Done? then AfterRequest(before, reqs[last]) else before
  }

  // What a run makes of the file, of memory and of the types of services

  /** The sections in memory, and those that a restart would find. */
  datatype Files = Files(memory: Sections, stored: Sections)

  /** A refusal puts back what was in memory; a failed rollback leaves in the file what was asked
      for; a reload takes what is in the file. */
  function FilesAfter(f: Files, req: Request, outcome: Outcome): Files {
    match outcome
    case Done =>
      if req.ReloadRequest? then Files(f.stored, f.stored)
      else Files(AfterRequest(f.memory, req), AfterRequest(f.memory, req))
    case Refused => Files(f.memory, f.memory)
    case RollbackFailed => Files(f.memory, AfterRequest(f.memory, req))
    case _ => f
  }

  function FilesAfterAll(f: Files, reqs: seq<Request>, outcomes: seq<Outcome>): Files
    requires |reqs| == |outcomes|
  {
    if reqs == [] then f
    else
      var last := |reqs| - 1;
      FilesAfter(FilesAfterAll(f, reqs[..last], outcomes[..last]), reqs[last], outcomes[last])
  }

  /** Where file and memory agree at first, they are the sections that the requests done add up to,
      unless a rollback fails; memory is so even then, unless something is reloaded. */
  lemma {:induction false} DoneRequestsAddUp(f: Files, reqs: seq<Request>, outcomes: seq<Outcome>)
    requires |reqs| == |outcomes|
    ensures f.stored == f.memory && RollbackFailed !in outcomes ==>
              FilesAfterAll(f, reqs, outcomes) ==
              Files(AfterRequests(f.memory, reqs, outcomes), AfterRequests(f.memory, reqs, outcomes))
    ensures ReloadRequest !in reqs ==>
              FilesAfterAll(f, reqs, outcomes).memory == AfterRequests(f.memory, reqs, outcomes)
    decreases |reqs|
  {
    if reqs != [] {
      var last := |reqs| - 1;
      DoneRequestsAddUp(f, reqs[..last], outcomes[..last]);
    }
  }

  /** A configuration with these sections, whatever the rest. */
  function AsConfig(m: Sections): AgentConfig {
    AgentConfig("", Settings("", false, false, ""), m.statics, m.buckets, m.proxies)
  }

  function WantedIn(m: Sections, n: string): Wanted {
    WantedAt(AsConfig(m), n)
  }

  ghost predicate Unshared(m: Sections) {
    forall n :: OneSection(WantedIn(m, n))
  }

  /** A static removal that is done names a configured static service; a reload that is done, and
      brings in another file, finds no name there in two sections. */
  ghost predicate Aims(f: Files, req: Request, outcome: Outcome) {
    && (req.RemoveStaticRequest? && outcome.Done? ==> First(f.memory.statics, StaticName, req.name).Some?)
    && (req.ReloadRequest? && outcome.Done? ==> f.stored == f.memory || Unshared(f.stored))
  }

  /** All requests of a run do so, at their time. */
  ghost predicate WellAimed(f: Files, reqs: seq<Request>, outcomes: seq<Outcome>)
    requires |reqs| == |outcomes|
  {
    reqs == [] ||
    var last := |reqs| - 1;
    && WellAimed(f, reqs[..last], outcomes[..last])
    && Aims(FilesAfterAll(f, reqs[..last], outcomes[..last]), reqs[last], outcomes[last])
  }

  /** What kind of service a name is, after a request that finds the stores consistent. */
  function KindAfter(k: Option<ServiceKind>, n: string, f: Files, req: Request, outcome: Outcome): Option<ServiceKind> {
    if !outcome.Done? then k
    else match req
      case AddStaticRequest(name, _, _, _) => if n == name then Some(TypeStatic) else k
      case AddBucketRequest(name, _, _) => if n == name then Some(TypeBucket) else k
      case AddProxyRequest(proxy) => if n == proxy.name then Some(TypeProxy) else k
      case RemoveStaticRequest(name) => if n == name then None else k
      case RemoveBucketRequest(name) => if n == name then None else k
      case RemoveProxyRequest(name) => if n == name then None else k
      case ReloadRequest =>
        if k == Some(TypeBucket) && WantedIn(f.stored, n).bucket.Some? then k
        else EntryKind(Desired(WantedIn(f.stored, n)))
  }

  function EntryKind(e: Option<ServiceEntry>): Option<ServiceKind> {
    if e.Some? then Some(e.value.kind) else None
  }

  /** The same after a run that starts with these entries. */
  function KindAfterAll(entries: map<string, ServiceEntry>, f: Files, reqs: seq<Request>, outcomes: seq<Outcome>,
                        n: string): Option<ServiceKind>
    requires |reqs| == |outcomes|
  {
    if reqs == [] then EntryKind(Find(entries, n))
    else
      var last := |reqs| - 1;
      KindAfter(KindAfterAll(entries, f, reqs[..last], outcomes[..last], n), n,
                FilesAfterAll(f, reqs[..last], outcomes[..last]), reqs[last], outcomes[last])
  }

  /** Every static removal of the run that is done hits a static service. */
  predicate WellTyped(entries: map<string, ServiceEntry>, f: Files, reqs: seq<Request>, outcomes: seq<Outcome>)
    requires |reqs| == |outcomes|
  {
    reqs == [] ||
    var last := |reqs| - 1;
    && WellTyped(entries, f, reqs[..last], outcomes[..last])
    && (reqs[last].RemoveStaticRequest? && outcomes[last].Done? ==>
          KindAfterAll(entries, f, reqs[..last], outcomes[..last], reqs[last].name) == Some(TypeStatic))
  }

  class Agent {
    const server: Server
    const hasFile: bool
    var cfg: AgentConfig
    /** The configuration file, as its last successful save left it. */
    var disk: AgentConfig

    constructor (server: Server, hasFile: bool, cfg: AgentConfig)
      ensures this.server == server && this.hasFile == hasFile && this.cfg == cfg && disk == cfg
    {
      this.server, this.hasFile, this.cfg, disk := server, hasFile, cfg, cfg;
    }

    function Memory(): Sections
      reads this
    {
      SectionsOf(cfg)
    }

    /** The service sections that a restart would find. */
    function Stored(): Sections
      reads this
    {
      if hasFile then SectionsOf(disk) else SectionsOf(cfg)
    }

    function FilesNow(): Files
      reads this
    {
      Files(Memory(), Stored())
    }

    /** Memory and stores agree on the services. */
    ghost predicate InStores()
      reads this, server.reg, server.hc, server.buckets, server.proxies
    {
      forall n :: Synced(server.At(n), n, WantedAt(cfg, n), server.hc.started)
    }

    /** So does the file. */
    ghost predicate InSync()
      reads this, server.reg, server.hc, server.buckets, server.proxies
    {
      Stored() == Memory() && InStores()
    }

    /** A save may fail, and then leaves the file as it was. */
    method SaveConfig(next: AgentConfig) returns (ok: bool)
      modifies `disk
      ensures !hasFile ==> ok && disk == old(disk)
      ensures hasFile ==> disk == if ok then next else old(disk)
    {
      if !hasFile {
        return true;
      }
      ok := *;
      if ok {
        disk := next;
      }
    }

    /** Anything that runs between two locked sections and only moves the listen address. */
    method ListenMayChange()
      modifies `cfg
      ensures cfg == old(cfg).(listen := cfg.listen)
    {
      var listen: string := *;
      cfg := cfg.(listen := listen);
    }

    /** All sections, or none: `next` are the sections asked for. */
    twostate predicate AllOrNone(outcome: Outcome, next: Sections)
      reads this
    {
      && cfg.settings == old(cfg.settings)
      && (hasFile && outcome.Done? ==> disk == cfg)
      && (!hasFile || !Tried(outcome) ==> disk == old(disk))
      && match outcome
         case Done => Memory() == next && Stored() == next
         case BadRequest => Memory() == old(Memory())
         case SaveFailed => Memory() == old(Memory())
         case Refused => Memory() == old(Memory()) && Stored() == old(Memory())
         case RollbackFailed => Memory() == old(Memory()) && Stored() == next
         case NotReloaded => false
    }

    /** The stores change only if the request is carried out, and then only at one name. */
    twostate predicate OnlyIfDone(outcome: Outcome, name: string, new s: Slot)
      reads server.reg, server.hc, server.buckets, server.proxies
    {
      && server.hc.started == old(server.hc.started)
      && forall n :: server.At(n) == if n == name && outcome.Done? then s else old(server.At(n))
    }

    /** Removals act on the stores even if they are then refused: `s` says what they do. */
    twostate predicate OnlyIfSaved(outcome: Outcome, name: string, new s: Slot)
      reads server.reg, server.hc, server.buckets, server.proxies
    {
      && server.hc.started == old(server.hc.started)
      && forall n :: server.At(n) == if n == name && Tried(outcome) then s else old(server.At(n))
    }

    /** The save, with the listen address free to change around it. */
    method Prepare(next: AgentConfig) returns (outcome: Outcome)
      modifies this
      ensures cfg == old(cfg).(listen := cfg.listen)
      ensures outcome.Done? || outcome.SaveFailed?
      ensures outcome.SaveFailed? ==> hasFile
      ensures disk == if hasFile && outcome.Done? then next else old(disk)
    {
      ListenMayChange();
      var ok := SaveConfig(next);
      ListenMayChange();
      outcome := if ok then Done else SaveFailed;
    }

    /** The second half: publish on success, else put the old file back. */
    method Finish(applied: bool, oldCfg: AgentConfig, next: AgentConfig) returns (outcome: Outcome)
      requires cfg == oldCfg.(listen := cfg.listen)
      requires hasFile ==> disk == next
      modifies this
      ensures outcome.Done? <==> applied
      ensures !outcome.Done? ==> outcome.Refused? || outcome.RollbackFailed?
      ensures if outcome.Done? then cfg == next else cfg == oldCfg.(listen := cfg.listen)
      ensures !hasFile ==> disk == old(disk) && !outcome.RollbackFailed?
      ensures hasFile ==> disk == if outcome.Refused? then oldCfg else next
    {
      ListenMayChange();
      if applied {
        cfg := next;
        return Done;
      }
      var ok := SaveConfig(oldCfg);
      outcome := if ok then Refused else RollbackFailed;
    }

    method AddStatic(name: string, targets: seq<string>, labels: map<string, string>, healthcheckURL: string)
      returns (outcome: Outcome, ghost c: StaticService)
      requires server.Wired()
      modifies this, server.reg, server.hc
      ensures c == StaticService(name, targets, labels, RequestedCheck(healthcheckURL))
      ensures c.healthcheck == if healthcheckURL == "" then None else Some(Healthcheck(healthcheckURL, 0, 0))
      ensures outcome.Done? ==> cfg.statics == old(cfg.statics) + [c]
      ensures outcome.Done? ==> AnnouncesStatic(server.At(name).entry, name, targets, labels)
      ensures outcome.Done? && old(server.At(name)).check.None? ==>
                CheckedAs(server.At(name),
                          if healthcheckURL == "" then None else Some(Healthcheck(healthcheckURL, 0, 0)),
                          server.hc.started)
      ensures AllOrNone(outcome, old(Memory()).(statics := old(cfg.statics) + [c]))
      ensures outcome.Done? ==> old(server.At(name)).entry.None?
      ensures OnlyIfDone(outcome, name, StaticAdded(old(server.At(name)), c, server.hc.started))
    {
      var hc := RequestedCheck(healthcheckURL);
      var oldCfg := CloneAgentConfig(cfg);
      var nextCfg := CloneAgentConfig(cfg);
      nextCfg := nextCfg.(statics := nextCfg.statics + [StaticService(name, targets, labels, hc)]);
      c := StaticService(name, targets, labels, RequestedCheck(healthcheckURL));
      outcome := Prepare(nextCfg);
      if outcome.SaveFailed? {
        return;
      }
      var ok := server.AddStatic(name, targets, labels, hc);
      outcome := Finish(ok, oldCfg, nextCfg);
    }

    method RemoveStatic(name: string) returns (outcome: Outcome)
      requires server.Wired()
      modifies this, server.reg, server.hc
      ensures AllOrNone(outcome, old(Memory()).(statics := Without(old(cfg.statics), StaticName, name)))
      ensures Tried(outcome) ==> (outcome.Done? <==> old(server.At(name)).entry.Some?)
      ensures OnlyIfSaved(outcome, name, StaticRemoved(old(server.At(name))))
    {
      var oldCfg := CloneAgentConfig(cfg);
      var nextCfg := CloneAgentConfig(cfg);
      var kept := FilterSlice(nextCfg.statics, StaticName, name);
      nextCfg := nextCfg.(statics := kept);
      outcome := Prepare(nextCfg);
      if outcome.SaveFailed? {
        return;
      }
      var ok := server.RemoveStatic(name);
      outcome := Finish(ok, oldCfg, nextCfg);
    }

    method RemoveBucket(name: string) returns (outcome: Outcome)
      requires server.Wired()
      modifies this, server.reg, server.hc, server.buckets
      ensures AllOrNone(outcome, old(Memory()).(buckets := Without(old(cfg.buckets), BucketName, name)))
      ensures Tried(outcome) ==>
                 (outcome.Done? <==> old(server.At(name)).entry.Some? && old(server.At(name)).bucket.Some?)
      ensures OnlyIfSaved(outcome, name, BucketRemoved(old(server.At(name))))
    {
      var oldCfg := CloneAgentConfig(cfg);
      var nextCfg := CloneAgentConfig(cfg);
      var kept := FilterSlice(nextCfg.buckets, BucketName, name);
      nextCfg := nextCfg.(buckets := kept);
      outcome := Prepare(nextCfg);
      if outcome.SaveFailed? {
        return;
      }
      var ok := server.RemoveBucket(name);
      outcome := Finish(ok, oldCfg, nextCfg);
    }

    method RemoveProxy(name: string) returns (outcome: Outcome)
      requires server.Wired()
      modifies this, server.reg, server.hc, server.proxies
      ensures AllOrNone(outcome, old(Memory()).(proxies := Without(old(cfg.proxies), ProxyName, name)))
      ensures Tried(outcome) ==>
                 (outcome.Done? <==> old(server.At(name)).entry.Some? && old(server.At(name)).proxy.Some?)
      ensures OnlyIfSaved(outcome, name, ProxyRemoved(old(server.At(name))))
    {
      var oldCfg := CloneAgentConfig(cfg);
      var nextCfg := CloneAgentConfig(cfg);
      var kept := FilterSlice(nextCfg.proxies, ProxyName, name);
      nextCfg := nextCfg.(proxies := kept);
      outcome := Prepare(nextCfg);
      if outcome.SaveFailed? {
        return;
      }
      var ok := server.RemoveProxy(name);
      outcome := Finish(ok, oldCfg, nextCfg);
    }

    method AddBucket(name: string, labels: map<string, string>, healthcheckURL: string)
      returns (outcome: Outcome, ghost c: BucketService, ghost made: Option<PushBucket.Bucket>)
      requires server.Wired()
      modifies this, server.reg, server.hc, server.buckets
      ensures c == BucketService(name, labels, RequestedCheck(healthcheckURL))
      ensures c.healthcheck == if healthcheckURL == "" then None else Some(Healthcheck(healthcheckURL, 0, 0))
      ensures outcome.Done? ==> cfg.buckets == old(cfg.buckets) + [c]
      ensures outcome.Done? ==> AnnouncesBucket(server.At(name).entry, name, labels)
      ensures outcome.Done? && old(server.At(name)).check.None? ==>
                CheckedAs(server.At(name),
                          if healthcheckURL == "" then None else Some(Healthcheck(healthcheckURL, 0, 0)),
                          server.hc.started)
      ensures AllOrNone(outcome, old(Memory()).(buckets := old(cfg.buckets) + [c]))
      ensures outcome.Done? ==> old(server.At(name)).entry.None?
      ensures outcome.Done? ==> made.Some? && fresh(made.value) && made.value.Blank()
      ensures OnlyIfDone(outcome, name, BucketAdded(old(server.At(name)), c, made, server.hc.started))
    {
      made := None;
      var hc := RequestedCheck(healthcheckURL);
      c := BucketService(name, labels, hc);
      var oldCfg := CloneAgentConfig(cfg);
      var nextCfg := CloneAgentConfig(cfg);
      nextCfg := nextCfg.(buckets := nextCfg.buckets + [BucketService(name, labels, hc)]);
      outcome := Prepare(nextCfg);
      if outcome.SaveFailed? {
        return;
      }
      var ok, b := server.AddBucket(name, labels, hc);
      made := Some(b);
      outcome := Finish(ok, oldCfg, nextCfg);
    }

    method AddProxy(req: ProxyRequest) returns (outcome: Outcome, ghost c: ProxyService)
      requires server.Wired()
      modifies this, server.reg, server.hc, server.proxies
      ensures outcome.BadRequest? <==> DetectAuth(req).None?
      ensures outcome.BadRequest? <==>
                (req.authType == "" || req.authType == "none") && req.token != "" &&
                (req.username != "" || req.password != "")
      ensures DetectAuth(req).Some? ==> c == RequestedProxy(req, DetectAuth(req).value)
      ensures DetectAuth(req).Some? ==>
                && c.target == req.target && c.labels == req.labels
                && c.healthcheck == (if req.healthcheckURL == "" then None
                                     else Some(Healthcheck(req.healthcheckURL, 0, 0)))
                && c.auth.token == req.token && c.auth.username == req.username && c.auth.password == req.password
                && c.auth.kind == if req.authType != "" && req.authType != "none" then req.authType
                                  else if req.token != "" then "bearer"
                                  else if req.username != "" || req.password != "" then "basic"
                                  else req.authType
      ensures outcome.Done? ==> cfg.proxies == old(cfg.proxies) + [c]
      ensures outcome.Done? ==> AnnouncesProxy(server.At(req.name).entry, req.name, req.labels)
      ensures outcome.Done? && old(server.At(req.name)).check.None? ==>
                CheckedAs(server.At(req.name),
                          if req.healthcheckURL == "" then None else Some(Healthcheck(req.healthcheckURL, 0, 0)),
                          server.hc.started)
      ensures AllOrNone(outcome, old(Memory()).(proxies := old(cfg.proxies) + [c]))
      ensures outcome.Done? ==> old(server.At(req.name)).entry.None? && c.name == req.name
      ensures OnlyIfDone(outcome, req.name, ProxyAdded(old(server.At(req.name)), c, server.hc.started))
    {
      var auth := DetectAuth(req);
      if auth.None? {
        c := ProxyService(req.name, req.target, ProxyAuth("", "", "", ""), req.labels, None);
        return BadRequest, c;
      }
      var hc := RequestedCheck(req.healthcheckURL);
      c := ProxyService(req.name, req.target, auth.value, req.labels, hc);
      var oldCfg := CloneAgentConfig(cfg);
      var nextCfg := CloneAgentConfig(cfg);
      var added := ProxyService(req.name, req.target, auth.value, req.labels, hc);
      nextCfg := nextCfg.(proxies := nextCfg.proxies + [added]);
      outcome := Prepare(nextCfg);
      if outcome.SaveFailed? {
        return;
      }
      var ok := server.AddProxy(req.name, req.target, auth.value, req.labels, hc);
      outcome := Finish(ok, oldCfg, nextCfg);
    }

    // What a request leaves in step

    /** Where one name has changed at most, that name decides. */
    twostate lemma OneNameDecides(new name: string)
      requires server.hc.started == old(server.hc.started)
      requires forall n :: n != name ==> server.At(n) == old(server.At(n))
      requires forall n :: n != name ==> WantedAt(cfg, n) == WantedAt(old(cfg), n)
      ensures old(server.AllWeak()) && Weak(server.At(name), name, server.hc.started) ==> server.AllWeak()
      ensures old(server.AllConsistent()) ==>
                (server.AllConsistent() <==> Consistent(server.At(name), name, server.hc.started))
      ensures old(InStores()) ==>
                (InStores() <==> Synced(server.At(name), name, WantedAt(cfg, name), server.hc.started))
    {
      if old(server.AllWeak()) && Weak(server.At(name), name, server.hc.started) {
        forall n
          ensures Weak(server.At(n), n, server.hc.started)
        {
          assert old(Weak(server.At(n), n, server.hc.started));
        }
      }
      if old(server.AllConsistent()) && Consistent(server.At(name), name, server.hc.started) {
        forall n
          ensures Consistent(server.At(n), n, server.hc.started)
        {
          assert old(Consistent(server.At(n), n, server.hc.started));
        }
      }
      if old(InStores()) && Synced(server.At(name), name, WantedAt(cfg, name), server.hc.started) {
        forall n
          ensures Synced(server.At(n), n, WantedAt(cfg, n), server.hc.started)
        {
          assert old(Synced(server.At(n), n, WantedAt(cfg, n), server.hc.started));
        }
      }
    }

    /** What every request but a mistyped static removal keeps. */
    twostate predicate KeepsAgreement()
      reads this, server.reg, server.hc, server.buckets, server.proxies
    {
      && (old(server.AllWeak()) ==> server.AllWeak())
      && (old(server.AllConsistent()) ==> server.AllConsistent())
      && (old(InStores()) ==> InStores())
    }

    twostate lemma AfterAddStatic(new outcome: Outcome, new c: StaticService)
      requires AllOrNone(outcome, old(Memory()).(statics := old(cfg.statics) + [c]))
      requires outcome.Done? ==> old(server.At(c.name)).entry.None?
      requires OnlyIfDone(outcome, c.name, StaticAdded(old(server.At(c.name)), c, server.hc.started))
      ensures KeepsAgreement()
    {
      var n, started, s, w := c.name, server.hc.started, old(server.At(c.name)), WantedAt(old(cfg), c.name);
      var next := old(cfg).(statics := old(cfg.statics) + [c]);
      forall m
        ensures WantedAt(cfg, m) == if outcome.Done? then WantedAt(next, m) else WantedAt(old(cfg), m)
        ensures m != n ==> WantedAt(next, m) == WantedAt(old(cfg), m)
      {
        WantedFollowsSections(cfg, if outcome.Done? then next else old(cfg), m);
        StaticAppended(old(cfg), c, m);
      }
      if outcome.Done? {
        if Weak(s, n, started) { OpKeepsWeak(s, n, Slots.AddStatic(c), started); }
        if Consistent(s, n, started) { OpKeepsConsistent(s, n, Slots.AddStatic(c), started); }
        if Synced(s, n, w, started) {
          StaticStaysSynced(s, n, w, c, started);
          StaticAppended(old(cfg), c, n);
        }
      }
      OneNameDecides(n);
    }
  
    twostate lemma AfterAddBucket(new outcome: Outcome, new c: BucketService, new made: Option<PushBucket.Bucket>)
      requires AllOrNone(outcome, old(Memory()).(buckets := old(cfg.buckets) + [c]))
      requires outcome.Done? ==> old(server.At(c.name)).entry.None? && made.Some?
      requires OnlyIfDone(outcome, c.name, BucketAdded(old(server.At(c.name)), c, made, server.hc.started))
      ensures KeepsAgreement()
    {
      var n, started, s, w := c.name, server.hc.started, old(server.At(c.name)), WantedAt(old(cfg), c.name);
      var next := old(cfg).(buckets := old(cfg.buckets) + [c]);
      forall m
        ensures WantedAt(cfg, m) == if outcome.Done? then WantedAt(next, m) else WantedAt(old(cfg), m)
        ensures m != n ==> WantedAt(next, m) == WantedAt(old(cfg), m)
      {
        WantedFollowsSections(cfg, if outcome.Done? then next else old(cfg), m);
        BucketAppended(old(cfg), c, m);
      }
      if outcome.Done? {
        if Weak(s, n, started) { OpKeepsWeak(s, n, Slots.AddBucket(c, made.value), started); }
        if Consistent(s, n, started) { OpKeepsConsistent(s, n, Slots.AddBucket(c, made.value), started); }
        if Synced(s, n, w, started) {
          BucketStaysSynced(s, n, w, c, made.value, started);
          BucketAppended(old(cfg), c, n);
        }
      }
      OneNameDecides(n);
    }

    twostate lemma AfterAddProxy(new outcome: Outcome, new c: ProxyService)
      requires AllOrNone(outcome, old(Memory()).(proxies := old(cfg.proxies) + [c]))
      requires outcome.Done? ==> old(server.At(c.name)).entry.None?
      requires OnlyIfDone(outcome, c.name, ProxyAdded(old(server.At(c.name)), c, server.hc.started))
      ensures KeepsAgreement()
    {
      var n, started, s, w := c.name, server.hc.started, old(server.At(c.name)), WantedAt(old(cfg), c.name);
      var next := old(cfg).(proxies := old(cfg.proxies) + [c]);
      forall m
        ensures WantedAt(cfg, m) == if outcome.Done? then WantedAt(next, m) else WantedAt(old(cfg), m)
        ensures m != n ==> WantedAt(next, m) == WantedAt(old(cfg), m)
      {
        WantedFollowsSections(cfg, if outcome.Done? then next else old(cfg), m);
        ProxyAppended(old(cfg), c, m);
      }
      if outcome.Done? {
        if Weak(s, n, started) { OpKeepsWeak(s, n, Slots.AddProxy(c), started); }
        if Consistent(s, n, started) { OpKeepsConsistent(s, n, Slots.AddProxy(c), started); }
        if Synced(s, n, w, started) {
          ProxyStaysSynced(s, n, w, c, started);
          ProxyAppended(old(cfg), c, n);
        }
      }
      OneNameDecides(n);
    }

    /** A static removal that is done breaks the agreement exactly when the name is not that of a
        static service: for the stores among themselves, and for stores and configuration. */
    twostate lemma AfterRemoveStatic(new outcome: Outcome, new name: string)
      requires AllOrNone(outcome, old(Memory()).(statics := Without(old(cfg.statics), StaticName, name)))
      requires Tried(outcome) ==> (outcome.Done? <==> old(server.At(name)).entry.Some?)
      requires OnlyIfSaved(outcome, name, StaticRemoved(old(server.At(name))))
      ensures old(server.AllWeak()) ==> server.AllWeak()
      ensures old(server.AllConsistent()) ==>
                (server.AllConsistent() <==> !outcome.Done? || IsKind(old(server.At(name)), TypeStatic))
      ensures old(InStores()) ==>
                (InStores() <==> !outcome.Done? || First(old(cfg.statics), StaticName, name).Some?)
    {
      var started, s, w := server.hc.started, old(server.At(name)), WantedAt(old(cfg), name);
      var next := old(cfg).(statics := Without(old(cfg.statics), StaticName, name));
      forall m
        ensures WantedAt(cfg, m) == if outcome.Done? then WantedAt(next, m) else WantedAt(old(cfg), m)
        ensures m != name ==> WantedAt(next, m) == WantedAt(old(cfg), m)
      {
        WantedFollowsSections(cfg, if outcome.Done? then next else old(cfg), m);
        StaticDropped(old(cfg), name, m);
      }
      if Tried(outcome) {
        if Weak(s, name, started) { OpKeepsWeak(s, name, Slots.RemoveStatic, started); }
        if Consistent(s, name, started) { OpKeepsConsistent(s, name, Slots.RemoveStatic, started); }
      }
      if outcome.Done? && Synced(s, name, w, started) {
        RemovedStaysSynced(s, name, w, started);
        StaticDropped(old(cfg), name, name);
      }
      OneNameDecides(name);
    }

    twostate lemma AfterRemoveBucket(new outcome: Outcome, new name: string)
      requires AllOrNone(outcome, old(Memory()).(buckets := Without(old(cfg.buckets), BucketName, name)))
      requires Tried(outcome) ==>
                 (outcome.Done? <==> old(server.At(name)).entry.Some? && old(server.At(name)).bucket.Some?)
      requires OnlyIfSaved(outcome, name, BucketRemoved(old(server.At(name))))
      ensures KeepsAgreement()
    {
      var started, s, w := server.hc.started, old(server.At(name)), WantedAt(old(cfg), name);
      var next := old(cfg).(buckets := Without(old(cfg.buckets), BucketName, name));
      forall m
        ensures WantedAt(cfg, m) == if outcome.Done? then WantedAt(next, m) else WantedAt(old(cfg), m)
        ensures m != name ==> WantedAt(next, m) == WantedAt(old(cfg), m)
      {
        WantedFollowsSections(cfg, if outcome.Done? then next else old(cfg), m);
        BucketDropped(old(cfg), name, m);
      }
      if Tried(outcome) {
        if Weak(s, name, started) { OpKeepsWeak(s, name, Slots.RemoveBucket, started); }
        if Consistent(s, name, started) { OpKeepsConsistent(s, name, Slots.RemoveBucket, started); }
      }
      if outcome.Done? && Synced(s, name, w, started) {
        RemovedStaysSynced(s, name, w, started);
        BucketDropped(old(cfg), name, name);
      }
      OneNameDecides(name);
    }

    twostate lemma AfterRemoveProxy(new outcome: Outcome, new name: string)
      requires AllOrNone(outcome, old(Memory()).(proxies := Without(old(cfg.proxies), ProxyName, name)))
      requires Tried(outcome) ==>
                 (outcome.Done? <==> old(server.At(name)).entry.Some? && old(server.At(name)).proxy.Some?)
      requires OnlyIfSaved(outcome, name, ProxyRemoved(old(server.At(name))))
      ensures KeepsAgreement()
    {
      var started, s, w := server.hc.started, old(server.At(name)), WantedAt(old(cfg), name);
      var next := old(cfg).(proxies := Without(old(cfg.proxies), ProxyName, name));
      forall m
        ensures WantedAt(cfg, m) == if outcome.Done? then WantedAt(next, m) else WantedAt(old(cfg), m)
        ensures m != name ==> WantedAt(next, m) == WantedAt(old(cfg), m)
      {
        WantedFollowsSections(cfg, if outcome.Done? then next else old(cfg), m);
        ProxyDropped(old(cfg), name, m);
      }
      if Tried(outcome) {
        if Weak(s, name, started) { OpKeepsWeak(s, name, Slots.RemoveProxy, started); }
        if Consistent(s, name, started) { OpKeepsConsistent(s, name, Slots.RemoveProxy, started); }
      }
      if outcome.Done? && Synced(s, name, w, started) {
        RemovedStaysSynced(s, name, w, started);
        ProxyDropped(old(cfg), name, name);
      }
      OneNameDecides(name);
    }

    /** Reads the file again and reloads. Memory follows the file, whoever wrote it; each name is
        reloaded as `SlotReloaded` says; all agree afterwards exactly if the stores were consistent
        and the file uses no name in two sections. A file that cannot be read, or an address that
        cannot be listened on, changes nothing but perhaps the address. */
    method Reload(readable: bool, rebound: bool) returns (ok: bool)
      requires server.Wired() && server.AllWeak()
      modifies this, server.reg, server.hc, server.buckets, server.proxies
      ensures server.AllWeak() && (old(server.AllConsistent()) ==> server.AllConsistent())
      ensures disk == old(disk) && server.hc.started == old(server.hc.started)
      ensures ok <==> hasFile && readable && rebound
      ensures ok ==> cfg == disk.(listen := cfg.listen)
      ensures ok ==> forall n :: server.SlotReloaded(n, WantedAt(disk, n))
      ensures ok ==> (InSync() <==> old(server.AllConsistent()) && forall n :: OneSection(WantedAt(disk, n)))
      ensures !ok ==> cfg == old(cfg).(listen := cfg.listen) && forall n :: server.At(n) == old(server.At(n))
    {
      if !hasFile || !readable {
        return false;
      }
      var listen: string := *;
      var nextCfg := disk.(listen := listen);
      ListenMayChange();
      if !rebound {
        return false;
      }
      cfg := nextCfg;
      server.ReloadConfigServices(nextCfg);
      forall n
        ensures WantedAt(cfg, n) == WantedAt(disk, n)
      {
        WantedFollowsSections(cfg, disk, n);
      }
      ReloadAgreesIff();
      return true;
    }

    twostate lemma ReloadAgreesIff()
      requires old(server.AllWeak()) && server.hc.started == old(server.hc.started)
      requires Stored() == Memory() && (old(server.AllConsistent()) ==> server.AllConsistent())
      requires forall n :: server.SlotReloaded(n, WantedAt(cfg, n))
      ensures InSync() <==> old(server.AllConsistent()) && forall n :: OneSection(WantedAt(cfg, n))
    {
      forall n
        ensures OneSection(WantedAt(cfg, n)) && Consistent(old(server.At(n)), n, server.hc.started) ==>
                  InStep(server.At(n), WantedAt(cfg, n))
        ensures Synced(server.At(n), n, WantedAt(cfg, n), server.hc.started) ==>
                  Consistent(old(server.At(n)), n, server.hc.started)
      {
        assert server.SlotReloaded(n, WantedAt(cfg, n));
        assert Weak(old(server.At(n)), n, server.hc.started);
        WeakWithoutStray(old(server.At(n)), n, server.hc.started);
      }
      if old(server.AllConsistent()) && forall n :: OneSection(WantedAt(cfg, n)) {
        forall n
          ensures Synced(server.At(n), n, WantedAt(cfg, n), server.hc.started)
        {
          assert old(Consistent(server.At(n), n, server.hc.started)) && Consistent(server.At(n), n, server.hc.started);
        }
      }
      if InSync() {
        forall n
          ensures Consistent(old(server.At(n)), n, server.hc.started) && OneSection(WantedAt(cfg, n))
        {
          assert Synced(server.At(n), n, WantedAt(cfg, n), server.hc.started);
        }
      }
    }

    twostate lemma AfterReload(new ok: bool, new outcome: Outcome)
      requires outcome == if ok then Done else NotReloaded
      requires disk == old(disk) && server.hc.started == old(server.hc.started)
      requires server.AllWeak() && (old(server.AllConsistent()) ==> server.AllConsistent())
      requires ok ==> hasFile && cfg == disk.(listen := cfg.listen)
      requires ok ==> forall n :: server.SlotReloaded(n, WantedAt(disk, n))
      requires ok ==> (InSync() <==> old(server.AllConsistent()) && forall n :: OneSection(WantedAt(disk, n)))
      requires !ok ==> cfg == old(cfg).(listen := cfg.listen) && forall n :: server.At(n) == old(server.At(n))
      ensures Served(ReloadRequest, outcome)
    {
      if ok {
        ReloadKinds();
        ReloadAims();
      } else {
        forall n
          ensures WantedAt(cfg, n) == WantedAt(old(cfg), n)
          ensures old(InStores()) ==> old(Synced(server.At(n), n, WantedAt(cfg, n), server.hc.started))
        {
          WantedFollowsSections(cfg, old(cfg), n);
        }
      }
    }

    twostate lemma ReloadKinds()
      requires hasFile && disk == old(disk) && server.hc.started == old(server.hc.started)
      requires forall n :: server.SlotReloaded(n, WantedAt(disk, n))
      ensures old(server.AllConsistent()) ==>
                forall n :: EntryKind(server.At(n).entry) ==
                  KindAfter(old(EntryKind(server.At(n).entry)), n, old(FilesNow()), ReloadRequest, Done)
    {
      if old(server.AllConsistent()) {
        forall n
          ensures EntryKind(server.At(n).entry) ==
                  KindAfter(old(EntryKind(server.At(n).entry)), n, old(FilesNow()), ReloadRequest, Done)
        {
          var m := SectionsOf(disk);
          WantedFollowsSections(disk, AsConfig(m), n);
          assert server.SlotReloaded(n, WantedAt(disk, n));
          assert Consistent(old(server.At(n)), n, server.hc.started);
        }
      }
    }

    twostate lemma ReloadAims()
      requires hasFile && disk == old(disk) && Stored() == Memory() == SectionsOf(disk)
      requires InSync() <==> old(server.AllConsistent()) && forall n :: OneSection(WantedAt(disk, n))
      ensures old(InStores()) ==> (InStores() <==> Aims(old(FilesNow()), ReloadRequest, Done))
    {
      if old(InStores()) {
        var m, mm := SectionsOf(disk), old(Memory());
        forall n
          ensures WantedIn(m, n) == WantedAt(disk, n)
          ensures old(Consistent(server.At(n), n, server.hc.started))
          ensures m == mm ==> OneSection(WantedAt(disk, n))
        {
          WantedFollowsSections(disk, AsConfig(m), n);
          assert old(Synced(server.At(n), n, WantedAt(cfg, n), server.hc.started));
          if m == mm { WantedFollowsSections(disk, old(cfg), n); }
        }
      }
    }

    /** What any request does: file and memory after it; of what kind each service is; and the
        agreement it keeps, exactly if it is well typed and well aimed. */
    twostate predicate Served(new req: Request, new outcome: Outcome)
      reads this, server.reg, server.hc, server.buckets, server.proxies
    {
      && FilesNow() == FilesAfter(old(FilesNow()), req, outcome)
      && (old(server.AllWeak()) ==> server.AllWeak())
      && (old(server.AllConsistent()) ==>
            && (server.AllConsistent() <==>
                (req.RemoveStaticRequest? && outcome.Done? ==> IsKind(old(server.At(req.name)), TypeStatic)))
            && (forall n :: EntryKind(server.At(n).entry) ==
                  KindAfter(old(EntryKind(server.At(n).entry)), n, old(FilesNow()), req, outcome)))
      && (old(InStores()) ==> (InStores() <==> Aims(old(FilesNow()), req, outcome)))
    }

    method ServeAddStatic(name: string, targets: seq<string>, labels: map<string, string>, url: string)
      returns (outcome: Outcome)
      requires server.Wired()
      modifies this, server.reg, server.hc, server.buckets, server.proxies
      ensures Served(AddStaticRequest(name, targets, labels, url), outcome)
    {
      ghost var c;
      outcome, c := AddStatic(name, targets, labels, url);
      AfterAddStatic(outcome, c);
    }

    method ServeAddBucket(name: string, labels: map<string, string>, url: string) returns (outcome: Outcome)
      requires server.Wired()
      modifies this, server.reg, server.hc, server.buckets, server.proxies
      ensures Served(AddBucketRequest(name, labels, url), outcome)
    {
      ghost var c, made;
      outcome, c, made := AddBucket(name, labels, url);
      AfterAddBucket(outcome, c, made);
    }

    method ServeAddProxy(proxy: ProxyRequest) returns (outcome: Outcome)
      requires server.Wired()
      modifies this, server.reg, server.hc, server.buckets, server.proxies
      ensures Served(AddProxyRequest(proxy), outcome)
    {
      ghost var c;
      outcome, c := AddProxy(proxy);
      AfterAddProxy(outcome, c);
    }

    method ServeRemoveStatic(name: string) returns (outcome: Outcome)
      requires server.Wired()
      modifies this, server.reg, server.hc, server.buckets, server.proxies
      ensures Served(RemoveStaticRequest(name), outcome)
    {
      outcome := RemoveStatic(name);
      AfterRemoveStatic(outcome, name);
    }

    method ServeRemoveBucket(name: string) returns (outcome: Outcome)
      requires server.Wired()
      modifies this, server.reg, server.hc, server.buckets, server.proxies
      ensures Served(RemoveBucketRequest(name), outcome)
    {
      outcome := RemoveBucket(name);
      AfterRemoveBucket(outcome, name);
    }

    method ServeRemoveProxy(name: string) returns (outcome: Outcome)
      requires server.Wired()
      modifies this, server.reg, server.hc, server.buckets, server.proxies
      ensures Served(RemoveProxyRequest(name), outcome)
    {
      outcome := RemoveProxy(name);
      AfterRemoveProxy(outcome, name);
    }

    method ServeReload() returns (outcome: Outcome)
      requires server.Wired() && server.AllWeak()
      modifies this, server.reg, server.hc, server.buckets, server.proxies
      ensures server.AllWeak() && Served(ReloadRequest, outcome)
    {
      var readable: bool, rebound: bool := *, *;
      var ok := Reload(readable, rebound);
      outcome := if ok then Done else NotReloaded;
      AfterReload(ok, outcome);
    }

    /** One request of any kind. */
    method Serve(req: Request) returns (outcome: Outcome)
      requires server.Wired() && server.AllWeak()
      modifies this, server.reg, server.hc, server.buckets, server.proxies
      ensures server.AllWeak() && Served(req, outcome)
    {
      match req
      case AddStaticRequest(name, targets, labels, url) => outcome := ServeAddStatic(name, targets, labels, url);
      case AddBucketRequest(name, labels, url) => outcome := ServeAddBucket(name, labels, url);
      case AddProxyRequest(proxy) => outcome := ServeAddProxy(proxy);
      case RemoveStaticRequest(name) => outcome := ServeRemoveStatic(name);
      case RemoveBucketRequest(name) => outcome := ServeRemoveBucket(name);
      case RemoveProxyRequest(name) => outcome := ServeRemoveProxy(name);
      case ReloadRequest => outcome := ServeReload();
    }

    /** Any run of requests and reloads, with saves that fail as they like, rollbacks included: what
        is in memory and in the file; memory and stores agree if every static removal that is done
        names a configured static service and no reload brings in a file that uses a name twice;
        the stores are consistent among themselves if every such removal hits a static service.
        The first request to break either rule breaks the agreement. Without failed rollbacks,
        file, memory and stores agree on the sections that the requests done add up to. */
    method ServeAll(reqs: seq<Request>) returns (outcomes: seq<Outcome>)
      requires server.Wired() && server.AllWeak()
      modifies this, server.reg, server.hc, server.buckets, server.proxies
      ensures server.AllWeak() && |outcomes| == |reqs|
      ensures RunSoFar(old(InStores()), old(server.AllConsistent()), old(server.reg.entries), old(FilesNow()),
                       reqs, outcomes)
      ensures LastDecides(old(InStores()), old(server.AllConsistent()), old(server.reg.entries), old(FilesNow()),
                          reqs, outcomes)
      ensures old(InSync()) && RollbackFailed !in outcomes && WellAimed(old(FilesNow()), reqs, outcomes) ==>
                InSync() && Memory() == AfterRequests(old(Memory()), reqs, outcomes)
      ensures ReloadRequest !in reqs ==> Memory() == AfterRequests(old(Memory()), reqs, outcomes)
    {
      outcomes := [];
      for i := 0 to |reqs|
        invariant server.AllWeak() && |outcomes| == i
        invariant RunSoFar(old(InStores()), old(server.AllConsistent()), old(server.reg.entries), old(FilesNow()),
                           reqs[..i], outcomes)
        invariant LastDecides(old(InStores()), old(server.AllConsistent()), old(server.reg.entries), old(FilesNow()),
                              reqs[..i], outcomes)
      {
        label before:
        var outcome := Serve(reqs[i]);
        RunNext@before(old(InStores()), old(server.AllConsistent()), old(server.reg.entries), old(FilesNow()),
                       reqs, i, outcomes, outcome);
        outcomes := outcomes + [outcome];
      }
      assert reqs[..|reqs|] == reqs;
      DoneRequestsAddUp(old(FilesNow()), reqs, outcomes);
    }

    /** After a run: the files, and the agreements if the run kept to the rules. */
    ghost predicate RunSoFar(inStores: bool, consistent: bool, entries: map<string, ServiceEntry>, f: Files,
                             reqs: seq<Request>, outcomes: seq<Outcome>)
      requires |reqs| == |outcomes|
      reads this, server.reg, server.hc, server.buckets, server.proxies
    {
      && FilesNow() == FilesAfterAll(f, reqs, outcomes)
      && (inStores && WellAimed(f, reqs, outcomes) ==> InStores())
      && (consistent && WellTyped(entries, f, reqs, outcomes) ==>
            && server.AllConsistent()
            && forall n :: EntryKind(server.At(n).entry) == KindAfterAll(entries, f, reqs, outcomes, n))
    }

    /** If all requests but the last kept to the rules, the agreements hold exactly if it did too. */
    ghost predicate LastDecides(inStores: bool, consistent: bool, entries: map<string, ServiceEntry>, f: Files,
                                reqs: seq<Request>, outcomes: seq<Outcome>)
      requires |reqs| == |outcomes|
      reads this, server.reg, server.hc, server.buckets, server.proxies
    {
      reqs != [] ==>
        var last := |reqs| - 1;
        && (inStores && WellAimed(f, reqs[..last], outcomes[..last]) ==>
              (InStores() <==> WellAimed(f, reqs, outcomes)))
        && (consistent && WellTyped(entries, f, reqs[..last], outcomes[..last]) ==>
              (server.AllConsistent() <==> WellTyped(entries, f, reqs, outcomes)))
    }

    twostate lemma RunNext(new inStores: bool, new consistent: bool, new entries: map<string, ServiceEntry>,
                           new f: Files, new reqs: seq<Request>, new i: nat, new outcomes: seq<Outcome>,
                           new outcome: Outcome)
      requires i < |reqs| && |outcomes| == i
      requires old(RunSoFar(inStores, consistent, entries, f, reqs[..i], outcomes))
      requires Served(reqs[i], outcome)
      ensures RunSoFar(inStores, consistent, entries, f, reqs[..i + 1], outcomes + [outcome])
      ensures LastDecides(inStores, consistent, entries, f, reqs[..i + 1], outcomes + [outcome])
    {
      RunSnoc(entries, f, reqs, i, outcomes, outcome);
    }
  }

  /** A run of one request more. */
  lemma RunSnoc(entries: map<string, ServiceEntry>, f: Files, reqs: seq<Request>, i: nat, outcomes: seq<Outcome>,
                outcome: Outcome)
    requires i < |reqs| && |outcomes| == i
    ensures reqs[..i + 1][..i] == reqs[..i] && (outcomes + [outcome])[..i] == outcomes
    ensures
      var rs, os, now := reqs[..i + 1], outcomes + [outcome], FilesAfterAll(f, reqs[..i], outcomes);
      && FilesAfterAll(f, rs, os) == FilesAfter(now, reqs[i], outcome)
      && (WellAimed(f, rs, os) <==> WellAimed(f, reqs[..i], outcomes) && Aims(now, reqs[i], outcome))
      && (forall n :: KindAfterAll(entries, f, rs, os, n) ==
            KindAfter(KindAfterAll(entries, f, reqs[..i], outcomes, n), n, now, reqs[i], outcome))
      && (WellTyped(entries, f, rs, os) <==>
          && WellTyped(entries, f, reqs[..i], outcomes)
          && (reqs[i].RemoveStaticRequest? && outcome.Done? ==>
                KindAfterAll(entries, f, reqs[..i], outcomes, reqs[i].name) == Some(TypeStatic)))
  {
    assert reqs[..i + 1][..i] == reqs[..i] && (outcomes + [outcome])[..i] == outcomes;
  }
}
