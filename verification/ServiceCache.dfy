/**
 Central's per-peer service cache: how the two answers of one refresh are read, merged
 into the cached services and expired. Pure functions with the loops that compute them.
 */
module ServiceCache {
  import opened Types
  import opened AgentRegistry
  import opened ServicesApi

  /** How long Central keeps the services of a peer it cannot reach: 72 hours. */
  const SERVICE_HISTORY_TTL: int := 72 * 3600 * SECOND

  datatype CachedServices = CachedServices(services: seq<ServiceEntry>, fetchedAt: int)

  datatype AgentHealth = AgentOK | AgentUnknown | AgentTimeout | AgentUnauthorized | AgentOffline

  /** What comes back from `/api/v1/services`; `body` is `None` when it does not decode. */
  datatype ServicesReply =
    | ServicesUnchanged
    | ServicesFull(lastModified: Option<nat>, body: Option<seq<ServiceEntry>>)
    | ServicesDenied
    | ServicesOtherStatus
    | ServicesUnreachable

  /** What comes back from `/api/v1/services/health`; 404 is an Agent without the endpoint. */
  datatype HealthReply =
    | HealthUnchanged
    | HealthReplyFull(lastModified: Option<nat>, table: HealthBody)
    | HealthNotFound
    | HealthDenied
    | HealthOtherStatus
    | HealthUnreachable

  datatype HealthBody = Undecodable | NullTable | Table(table: HealthTable)

  /** The outcome of querying one Agent. */
  datatype PeerResult = PeerResult(
    services: seq<ServiceEntry>,
    svc304: bool,
    healthTable: Option<HealthTable>,
    health304: bool,
    health: AgentHealth)

  function Rank(h: AgentHealth): nat {
    match h
    case AgentOK => 0
    case AgentUnknown => 1
    case AgentTimeout => 2
    case AgentUnauthorized => 3
    case AgentOffline => 4
  }

  function WorseHealth(a: AgentHealth, b: AgentHealth): (r: AgentHealth)
    ensures r == AgentOK <==> a == AgentOK && b == AgentOK
    ensures Rank(r) >= Rank(a) && Rank(r) >= Rank(b)
  {
    if Rank(b) > Rank(a) then b else a
  }

  function ServicesHealth(r: ServicesReply): AgentHealth {
    match r
    case ServicesUnchanged => AgentOK
    case ServicesFull(_, body) => if body.Some? then AgentOK else AgentTimeout
    case ServicesDenied => AgentUnauthorized
    case ServicesOtherStatus => AgentTimeout
    case ServicesUnreachable => AgentTimeout
  }

  function HealthHealth(r: HealthReply): AgentHealth {
    match r
    case HealthUnchanged => AgentOK
    case HealthReplyFull(_, table) => if table.Undecodable? then AgentTimeout else AgentOK
    case HealthNotFound => AgentOK
    case HealthDenied => AgentUnauthorized
    case HealthOtherStatus => AgentTimeout
    case HealthUnreachable => AgentTimeout
  }

  function ResultOf(sr: ServicesReply, hr: HealthReply): PeerResult {
    PeerResult(
      if sr.ServicesFull? && sr.body.Some? then sr.body.value else [],
      sr.ServicesUnchanged?,
      if hr.HealthReplyFull? && hr.table.Table? then Some(hr.table.table) else None,
      hr.HealthUnchanged?,
      WorseHealth(ServicesHealth(sr), HealthHealth(hr)))
  }

  // Merging health into services

  function OverlaidEntry(e: ServiceEntry, table: HealthTable): ServiceEntry {
    if e.name in table then e.(health := table[e.name]) else e
  }

  function Overlay(es: seq<ServiceEntry>, table: HealthTable): (r: seq<ServiceEntry>)
    ensures |r| == |es| && forall i :: 0 <= i < |es| ==> r[i] == OverlaidEntry(es[i], table)
  {
    seq(|es|, i requires 0 <= i < |es| => OverlaidEntry(es[i], table))
  }

  /** The health of each name; the last entry that has one decides. */
  function HealthByName(es: seq<ServiceEntry>): map<string, HealthStatus> {
    if es == [] then map[]
    else
      var last := |es| - 1;
      if es[last].health.Some? then HealthByName(es[..last])[es[last].name := es[last].health.value]
      else HealthByName(es[..last])
  }

  function InheritedEntry(e: ServiceEntry, byName: map<string, HealthStatus>): ServiceEntry {
    if e.health.None? && e.name in byName then e.(health := Some(byName[e.name])) else e
  }

  function Inherit(cached: seq<ServiceEntry>, es: seq<ServiceEntry>): (r: seq<ServiceEntry>)
    ensures |r| == |es| && forall i :: 0 <= i < |es| ==> r[i] == InheritedEntry(es[i], HealthByName(cached))
  {
    seq(|es|, i requires 0 <= i < |es| => InheritedEntry(es[i], HealthByName(cached)))
  }

  function CachedList(cached: Option<CachedServices>): seq<ServiceEntry> {
    if cached.Some? then cached.value.services else []
  }

  /** The services a committed refresh stores, for each of the 200/304 combinations. */
  function Merged(cached: Option<CachedServices>, r: PeerResult): seq<ServiceEntry> {
    var base := if r.svc304 then CachedList(cached) else r.services;
    if !r.health304 && r.healthTable.Some? then Overlay(base, r.healthTable.value)
    else if r.health304 && !r.svc304 then Inherit(CachedList(cached), base)
    else base
  }

  /** `h` is the last health that the list has under the name. */
  predicate LastHealthIs(es: seq<ServiceEntry>, n: string, h: HealthStatus) {
    exists i :: 0 <= i < |es| && es[i].name == n && es[i].health == Some(h)
                && forall j :: i < j < |es| && es[j].name == n ==> es[j].health == None
  }

  lemma {:induction false} HealthByNameIs(es: seq<ServiceEntry>, n: string, h: HealthStatus)
    ensures n in HealthByName(es) && HealthByName(es)[n] == h <==> LastHealthIs(es, n, h)
    decreases |es|
  {
    if es != [] {
      var last := |es| - 1;
      var before := es[..last];
      HealthByNameIs(before, n, h);
      if es[last].name != n || es[last].health.None? {
        LastHealthBefore(es, n, h);
      } else if es[last].health == Some(h) {
        assert LastHealthIs(es, n, h);
      }
    }
  }

  lemma LastHealthBefore(es: seq<ServiceEntry>, n: string, h: HealthStatus)
    requires es != [] && (es[|es| - 1].name != n || es[|es| - 1].health.None?)
    ensures LastHealthIs(es, n, h) <==> LastHealthIs(es[..|es| - 1], n, h)
  {
    var before := es[..|es| - 1];
    if LastHealthIs(before, n, h) {
      var i :| 0 <= i < |before| && before[i].name == n && before[i].health == Some(h)
               && forall j :: i < j < |before| && before[j].name == n ==> before[j].health == None;
      forall j | i < j < |es| && es[j].name == n
        ensures es[j].health == None
      {
        if j < |before| { assert es[j] == before[j]; }
      }
      assert es[i] == before[i];
    }
    if LastHealthIs(es, n, h) {
      var i :| 0 <= i < |es| && es[i].name == n && es[i].health == Some(h)
               && forall j :: i < j < |es| && es[j].name == n ==> es[j].health == None;
      assert before[i] == es[i] && forall j :: i < j < |before| ==> before[j] == es[j];
    }
  }

  /** What is stored for the answers of a refresh that commits. The services are those that came, or
      the cached ones after a 304. A health table decides for the names it has, null included; after
      a health 304, services that came without health have the last cached one of their name. */
  lemma MergedIs(cached: Option<CachedServices>, sr: ServicesReply, hr: HealthReply)
    requires ResultOf(sr, hr).health == AgentOK
    ensures
      var base := if sr.ServicesFull? then sr.body.value else CachedList(cached);
      var r := Merged(cached, ResultOf(sr, hr));
      && |r| == |base|
      && forall i :: 0 <= i < |base| ==>
           && r[i] == base[i].(health := r[i].health)
           && (hr.HealthReplyFull? && hr.table.Table? && base[i].name in hr.table.table ==>
                 r[i].health == hr.table.table[base[i].name])
           && (hr.HealthUnchanged? && sr.ServicesFull? && base[i].health == None ==>
                 forall h :: r[i].health == Some(h) <==> LastHealthIs(CachedList(cached), base[i].name, h))
           && (!(hr.HealthReplyFull? && hr.table.Table? && base[i].name in hr.table.table)
               && !(hr.HealthUnchanged? && sr.ServicesFull? && base[i].health == None) ==>
                 r[i].health == base[i].health)
  {
    var base := if sr.ServicesFull? then sr.body.value else CachedList(cached);
    var r := Merged(cached, ResultOf(sr, hr));
    if hr.HealthUnchanged? && sr.ServicesFull? {
      assert r == Inherit(CachedList(cached), base);
      forall i, h | 0 <= i < |base| && base[i].health == None
        ensures r[i].health == Some(h) <==> LastHealthIs(CachedList(cached), base[i].name, h)
      {
        HealthByNameIs(CachedList(cached), base[i].name, h);
      }
    }
  }

  method OverlayHealth(es: seq<ServiceEntry>, table: HealthTable) returns (r: seq<ServiceEntry>)
    ensures r == Overlay(es, table)
  {
    r := es;
    for i := 0 to |es|
      invariant |r| == |es|
      invariant forall j :: 0 <= j < i ==> r[j] == OverlaidEntry(es[j], table)
      invariant forall j :: i <= j < |es| ==> r[j] == es[j]
    {
      if r[i].name in table {
        r := r[i := r[i].(health := table[r[i].name])];
      }
    }
  }

  method InheritCachedHealth(cached: Option<CachedServices>, es: seq<ServiceEntry>) returns (r: seq<ServiceEntry>)
    ensures r == Inherit(CachedList(cached), es)
  {
    if cached.None? || cached.value.services == [] {
      return es;
    }
    var list := cached.value.services;
    var byName: map<string, HealthStatus> := map[];
    for i := 0 to |list|
      invariant byName == HealthByName(list[..i])
    {
      assert list[..i + 1][..i] == list[..i];
      if list[i].health.Some? {
        byName := byName[list[i].name := list[i].health.value];
      }
    }
    assert list[..|list|] == list;
    r := es;
    for i := 0 to |es|
      invariant |r| == |es|
      invariant forall j :: 0 <= j < i ==> r[j] == InheritedEntry(es[j], byName)
      invariant forall j :: i <= j < |es| ==> r[j] == es[j]
    {
      if r[i].health.Some? {
        continue;
      }
      if r[i].name in byName {
        r := r[i := r[i].(health := Some(byName[r[i].name]))];
      }
    }
  }

  // What merging keeps

  predicate HealthIs(es: seq<ServiceEntry>, n: string, core: HealthCore) {
    && Names(es, n)
    && forall i :: 0 <= i < |es| && es[i].name == n ==> es[i].health.Some? && Core(es[i].health.value) == core
  }

  /** Merging changes no entry except for its health. */
  lemma MergedKeepsServices(cached: Option<CachedServices>, r: PeerResult)
    ensures StripHealth(Merged(cached, r)) == StripHealth(if r.svc304 then CachedList(cached) else r.services)
  {
  }

  lemma OverlayHealthIs(es: seq<ServiceEntry>, table: HealthTable, n: string)
    requires n in table && table[n].Some? && Names(es, n)
    ensures HealthIs(Overlay(es, table), n, Core(table[n].value))
  {
    var i :| 0 <= i < |es| && es[i].name == n;
    assert Overlay(es, table)[i].name == n;
  }

  lemma {:induction false} HealthByNameOf(es: seq<ServiceEntry>, n: string, core: HealthCore)
    requires forall i :: 0 <= i < |es| && es[i].name == n ==> es[i].health.Some? && Core(es[i].health.value) == core
    ensures Names(es, n) ==> n in HealthByName(es)
    ensures n in HealthByName(es) ==> Core(HealthByName(es)[n]) == core
    decreases |es|
  {
    if es != [] {
      var last := |es| - 1;
      HealthByNameOf(es[..last], n, core);
      if Names(es, n) && es[last].name != n {
        var i :| 0 <= i < |es| && es[i].name == n;
        assert es[..last][i].name == n;
      }
    }
  }

  lemma InheritHealthIs(cached: seq<ServiceEntry>, es: seq<ServiceEntry>, n: string, core: HealthCore)
    requires HealthIs(cached, n, core) && Names(es, n) && NoHealth(es)
    ensures HealthIs(Inherit(cached, es), n, core)
  {
    HealthByNameOf(cached, n, core);
    var i :| 0 <= i < |es| && es[i].name == n;
    assert Inherit(cached, es)[i].name == n;
  }

  lemma NamesOfStripped(a: seq<ServiceEntry>, b: seq<ServiceEntry>, n: string)
    requires StripHealth(a) == StripHealth(b)
    ensures Names(a, n) <==> Names(b, n)
  {
    assert |a| == |b|;
    forall i | 0 <= i < |a|
      ensures a[i].name == b[i].name
    {
      assert StripHealth(a)[i] == StripHealth(b)[i];
    }
  }

  // What Central knows of one peer, and what one refresh makes of it

  /** A validator is sent only while there are cached services. */
  function ValidatorSent(cached: Option<CachedServices>, validator: Option<nat>): Option<nat> {
    if cached.Some? then validator else None
  }

  /** A 200 leaves its Last-Modified, if it has one, whether or not its body decodes. */
  function ServicesStamp(before: Option<nat>, r: ServicesReply): Option<nat> {
    if r.ServicesFull? && r.lastModified.Some? then r.lastModified else before
  }

  function HealthStamp(before: Option<nat>, r: HealthReply): Option<nat> {
    if r.HealthReplyFull? && r.lastModified.Some? then r.lastModified else before
  }

  function CacheAfter(before: Option<CachedServices>, r: PeerResult, now: int): Option<CachedServices> {
    if r.health == AgentOK then Some(CachedServices(Merged(before, r), now)) else before
  }

  predicate Expired(c: Option<CachedServices>, now: int) {
    c.Some? && now - c.value.fetchedAt > SERVICE_HISTORY_TTL
  }

  /** What eviction leaves of a cache entry. */
  function Kept(c: Option<CachedServices>, now: int): Option<CachedServices> {
    if Expired(c, now) then None else c
  }

  datatype Knowledge = Knowledge(cache: Option<CachedServices>, svc: Option<nat>, health: Option<nat>)

  /** Eviction takes the validators with the services. */
  function Evicted(k: Knowledge, now: int): Knowledge {
    if Expired(k.cache, now) then Knowledge(None, None, None) else k
  }

  /** One refresh of a peer that is asked: validators stored, services committed if both answers
      were well, old services evicted. */
  function Stepped(k: Knowledge, sr: ServicesReply, hr: HealthReply, now: int): Knowledge {
    Evicted(
      Knowledge(CacheAfter(k.cache, ResultOf(sr, hr), now), ServicesStamp(k.svc, sr), HealthStamp(k.health, hr)), now)
  }
}
