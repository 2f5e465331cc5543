/**
 Central's collector as it updates its maps in place: the manual peers, the service cache with
 its validators, and a whole refresh.
 */
module PeerCollector {
  import opened Types
  import opened Bags
  import opened ServiceCache
  import opened PeerMerge
  import opened PeerRefresh

  /** An entry for a peer in Central's configuration file. */
  datatype ConfigPeer = ConfigPeer(name: string, address: string, port: int)

  function ToManual(p: ConfigPeer, fromConfig: bool): ManualPeer {
    ManualPeer(p.name, p.address, p.port, fromConfig)
  }

  /** The entry that counts for an address: the last one. */
  function LastPeer(ps: seq<ConfigPeer>, address: string): Option<ConfigPeer> {
    if ps == [] then None
    else if ps[|ps| - 1].address == address then Some(ps[|ps| - 1])
    else LastPeer(ps[..|ps| - 1], address)
  }

  /** It is there if the address is named at all, and no later entry names it. */
  lemma {:induction false} LastPeerIsLast(ps: seq<ConfigPeer>, address: string)
    ensures LastPeer(ps, address).None? <==> forall i :: 0 <= i < |ps| ==> ps[i].address != address
    ensures LastPeer(ps, address).Some? ==>
              exists i :: 0 <= i < |ps| && ps[i] == LastPeer(ps, address).value && ps[i].address == address &&
                          forall j :: i < j < |ps| ==> ps[j].address != address
    decreases |ps|
  {
    if ps != [] && ps[|ps| - 1].address != address {
      var before := ps[..|ps| - 1];
      LastPeerIsLast(before, address);
      if LastPeer(before, address).Some? {
        var i :| 0 <= i < |before| && before[i] == LastPeer(before, address).value && before[i].address == address &&
                 forall j :: i < j < |before| ==> before[j].address != address;
        assert ps[i] == before[i];
        assert forall j :: i < j < |before| ==> ps[j] == before[j];
      } else {
        assert forall i :: 0 <= i < |before| ==> ps[i] == before[i];
      }
    }
  }

  /** What is left of a manual peer when those from the file are forgotten. */
  function ByHand(mp: Option<ManualPeer>): Option<ManualPeer> {
    if mp.Some? && mp.value.fromConfig then None else mp
  }

  /** The merge, in some order of the manual peers. */
  ghost predicate MergeOf(c: Setting, merged: seq<PeerInfo>) {
    exists order :: Enumerates(order, c.manual.Keys) && merged == PeerMerge.Merged(c, order)
  }

  class Collector {
    const isIP: string -> bool
    var defaultPort: int
    var tsDown: bool
    var peers: seq<PeerInfo>
    var targets: seq<SDTarget>
    var cache: map<string, CachedServices>
    var lastModifiedSvc: map<string, nat>
    var lastModifiedHealth: map<string, nat>
    var manualPeers: map<string, ManualPeer>

    constructor (isIP: string -> bool, defaultPort: int)
      ensures peers == [] && targets == [] && cache == map[] && manualPeers == map[]
      ensures lastModifiedSvc == map[] && lastModifiedHealth == map[]
    {
      this.isIP, this.defaultPort := isIP, defaultPort;
      tsDown, peers, targets := false, [], [];
      cache, lastModifiedSvc, lastModifiedHealth, manualPeers := map[], map[], map[], map[];
    }

    // Manual peers

    /** The peers from the configuration file are replaced; those added by hand stay, unless the
        file names their address too. Of several entries for an address the last counts. */
    method ReplaceConfigPeers(ps: seq<ConfigPeer>)
      modifies `manualPeers
      ensures forall addr :: Find(manualPeers, addr) ==
                if LastPeer(ps, addr).Some? then Some(ToManual(LastPeer(ps, addr).value, true))
                else ByHand(Find(old(manualPeers), addr))
      ensures KeyedByAddress(old(manualPeers)) ==> KeyedByAddress(manualPeers)
    {
      ForgetConfigPeers();
      label forgotten:
      for i := 0 to |ps|
        invariant forall addr :: Find(manualPeers, addr) ==
                    if LastPeer(ps[..i], addr).Some? then Some(ToManual(LastPeer(ps[..i], addr).value, true))
                    else Find(old@forgotten(manualPeers), addr)
        invariant KeyedByAddress(old(manualPeers)) ==> KeyedByAddress(manualPeers)
      {
        assert ps[..i + 1][..i] == ps[..i];
        manualPeers := manualPeers[ps[i].address := ToManual(ps[i], true)];
      }
      assert ps[..|ps|] == ps;
    }

    method ForgetConfigPeers()
      modifies `manualPeers
      ensures forall addr :: Find(manualPeers, addr) == ByHand(Find(old(manualPeers), addr))
      ensures KeyedByAddress(old(manualPeers)) ==> KeyedByAddress(manualPeers)
    {
      var todo := manualPeers.Keys;
      while todo != {}
        invariant todo <= old(manualPeers).Keys
        invariant forall addr :: Find(manualPeers, addr) ==
                    if addr in todo then Find(old(manualPeers), addr) else ByHand(Find(old(manualPeers), addr))
        invariant forall addr :: addr in manualPeers ==>
                    addr in old(manualPeers) && manualPeers[addr] == old(manualPeers)[addr]
        decreases |todo|
      {
        var addr :| addr in todo;
        assert Find(manualPeers, addr) == Find(old(manualPeers), addr);
        if manualPeers[addr].fromConfig {
          manualPeers := manualPeers - {addr};
        }
        todo := todo - {addr};
      }
    }

    method AddManualPeer(mp: ManualPeer)
      modifies `manualPeers
      ensures manualPeers == old(manualPeers)[mp.address := mp]
      ensures KeyedByAddress(old(manualPeers)) ==> KeyedByAddress(manualPeers)
    {
      manualPeers := manualPeers[mp.address := mp];
    }

    method RemoveManualPeer(address: string) returns (ok: bool)
      modifies `manualPeers
      ensures ok <==> address in old(manualPeers)
      ensures manualPeers == old(manualPeers) - {address}
      ensures KeyedByAddress(old(manualPeers)) ==> KeyedByAddress(manualPeers)
    {
      if address !in manualPeers {
        return false;
      }
      manualPeers := manualPeers - {address};
      return true;
    }

    // Merging

    function Circumstances(auto: seq<PeerInfo>): Setting
      reads this
    {
      Setting(auto, manualPeers, defaultPort, isIP)
    }

    /** Files peer `i` under its keys, over any earlier one. */
    method IndexPeer(index: map<string, nat>, auto: seq<PeerInfo>, i: nat) returns (r: map<string, nat>)
      requires i < |auto|
      requires forall key :: Find(index, key) == LastMatch(auto[..i], key, isIP)
      ensures forall key :: Find(r, key) == LastMatch(auto[..i + 1], key, isIP)
    {
      var keys := PeerMatchKeys(auto[i], isIP);
      r := index;
      for j := 0 to |keys|
        invariant forall key :: Find(r, key) == if key in keys[..j] then Some(i) else Find(index, key)
      {
        assert keys[..j + 1] == keys[..j] + [keys[j]];
        r := r[keys[j] := i];
      }
      assert keys[..|keys|] == keys && auto[..i + 1][..i] == auto[..i];
    }

    method IndexPeers(auto: seq<PeerInfo>) returns (index: map<string, nat>)
      ensures forall key :: Find(index, key) == LastMatch(auto, key, isIP)
    {
      index := map[];
      for i := 0 to |auto|
        invariant forall key :: Find(index, key) == LastMatch(auto[..i], key, isIP)
      {
        index := IndexPeer(index, auto, i);
      }
      assert auto[..|auto|] == auto;
    }

    /** The manual peers are taken in some order, `order`. */
    method MergePeers(auto: seq<PeerInfo>) returns (r: seq<PeerInfo>, ghost order: seq<string>)
      ensures Enumerates(order, manualPeers.Keys)
      ensures r == PeerMerge.Merged(Circumstances(auto), order)
      ensures MergeOf(Circumstances(auto), r)
    {
      ghost var c := Circumstances(auto);
      var index := IndexPeers(auto);
      r, order := auto, [];
      var todo := manualPeers.Keys;
      assert Overridden(c, order) == auto;
      while todo != {}
        invariant todo <= manualPeers.Keys
        invariant Enumerates(order, manualPeers.Keys - todo)
        invariant r == PeerMerge.Merged(c, order)
        decreases |todo|
      {
        var k :| k in todo;
        var mp := manualPeers[k];
        var key := Normalize(mp.address);
        assert Find(index, key) == Target(c, k);
        MergedSnoc(c, order, k);
        if key in index {
          r := r[index[key] := r[index[key]].(url := AgentURL(mp, defaultPort))];
        } else {
          r := r + [ManualOnly(mp, defaultPort)];
        }
        order, todo := order + [k], todo - {k};
      }
    }

    // Queries

    method QueryAgentServices(p: PeerInfo, net: Net) returns (r: ServicesReply)
      modifies `lastModifiedSvc
      ensures r == net.services(p.url, p.ip, Validator(cache, old(lastModifiedSvc), p.ip))
      ensures Find(lastModifiedSvc, p.ip) == ServicesStamp(Find(old(lastModifiedSvc), p.ip), r)
      ensures forall ip :: ip != p.ip ==> Find(lastModifiedSvc, ip) == Find(old(lastModifiedSvc), ip)
    {
      var ims := None;
      if p.ip in cache {
        if p.ip in lastModifiedSvc {
          ims := Some(lastModifiedSvc[p.ip]);
        }
      }
      r := net.services(p.url, p.ip, ims);
      if r.ServicesFull? && r.lastModified.Some? {
        lastModifiedSvc := lastModifiedSvc[p.ip := r.lastModified.value];
      }
    }

    method QueryAgentHealth(p: PeerInfo, net: Net) returns (r: HealthReply)
      modifies `lastModifiedHealth
      ensures r == net.health(p.url, p.ip, Validator(cache, old(lastModifiedHealth), p.ip))
      ensures Find(lastModifiedHealth, p.ip) == HealthStamp(Find(old(lastModifiedHealth), p.ip), r)
      ensures forall ip :: ip != p.ip ==> Find(lastModifiedHealth, ip) == Find(old(lastModifiedHealth), ip)
    {
      var ims := None;
      if p.ip in cache {
        if p.ip in lastModifiedHealth {
          ims := Some(lastModifiedHealth[p.ip]);
        }
      }
      r := net.health(p.url, p.ip, ims);
      if r.HealthReplyFull? && r.lastModified.Some? {
        lastModifiedHealth := lastModifiedHealth[p.ip := r.lastModified.value];
      }
    }

    ghost function PastWith(net: Net): Past
      reads this
    {
      Past(cache, lastModifiedSvc, lastModifiedHealth, net)
    }

    /** The validators of the peers in `done` are renewed, all others as they were. */
    ghost predicate StampsRenewed(past: Past, ps: seq<PeerInfo>, done: set<nat>)
      reads this
    {
      && Renewed(past.svc, lastModifiedSvc, ps, done, NewServicesStamp(past, ps))
      && Renewed(past.health, lastModifiedHealth, ps, done, NewHealthStamp(past, ps))
    }

    lemma NothingRenewed(past: Past, ps: seq<PeerInfo>)
      requires past.svc == lastModifiedSvc && past.health == lastModifiedHealth
      ensures StampsRenewed(past, ps, {})
    {
    }

    method QueryPeer(ghost past: Past, ps: seq<PeerInfo>, ghost done: set<nat>, i: nat, net: Net)
      returns (r: PeerResult)
      requires i < |ps| && i !in done && past.cache == cache && past.net == net
      requires DistinctIps(ps) ==> StampsRenewed(past, ps, done)
      modifies `lastModifiedSvc, `lastModifiedHealth
      ensures DistinctIps(ps) ==> r == ResultFor(past, ps[i]) && StampsRenewed(past, ps, done + {i})
    {
      ghost var newS, newH := NewServicesStamp(past, ps), NewHealthStamp(past, ps);
      if DistinctIps(ps) {
        NotYetRenewed(past.svc, lastModifiedSvc, ps, done, i, newS);
        NotYetRenewed(past.health, lastModifiedHealth, ps, done, i, newH);
      }
      var sr := QueryAgentServices(ps[i], net);
      var hr := QueryAgentHealth(ps[i], net);
      if DistinctIps(ps) {
        RenewNext(past.svc, old(lastModifiedSvc), lastModifiedSvc, ps, done, i, newS);
        RenewNext(past.health, old(lastModifiedHealth), lastModifiedHealth, ps, done, i, newH);
      }
      r := ResultOf(sr, hr);
    }

    ghost predicate Queried(past: Past, ps: seq<PeerInfo>, results: map<nat, PeerResult>)
      reads this
    {
      && StampsRenewed(past, ps, results.Keys)
      && forall i :: i in results ==> i < |ps| && results[i] == ResultFor(past, ps[i])
    }

    method QueryNext(ghost past: Past, ps: seq<PeerInfo>, results: map<nat, PeerResult>, i: nat, net: Net)
      returns (more: map<nat, PeerResult>)
      requires i < |ps| && i !in results && past.cache == cache && past.net == net
      requires DistinctIps(ps) ==> Queried(past, ps, results)
      modifies `lastModifiedSvc, `lastModifiedHealth
      ensures more.Keys == results.Keys + {i}
      ensures DistinctIps(ps) ==> Queried(past, ps, more)
    {
      var r := QueryPeer(past, ps, results.Keys, i, net);
      more := results[i := r];
      assert more.Keys == results.Keys + {i};
    }

    /** The queries of the peers in `asked`, in any order. */
    method QueryAll(ps: seq<PeerInfo>, asked: set<nat>, net: Net) returns (results: map<nat, PeerResult>)
      requires forall i :: i in asked ==> i < |ps|
      modifies `lastModifiedSvc, `lastModifiedHealth
      ensures results.Keys == asked
      ensures DistinctIps(ps) ==> Queried(old(PastWith(net)), ps, results)
    {
      ghost var past := PastWith(net);
      results := map[];
      NothingRenewed(past, ps);
      var todo := asked;
      while todo != {}
        invariant todo <= asked && results.Keys == asked - todo
        invariant DistinctIps(ps) ==> Queried(past, ps, results)
        decreases |todo|
      {
        var i :| i in todo;
        results := QueryNext(past, ps, results, i, net);
        TakeOne(asked, todo, i);
        todo := todo - {i};
      }
    }
  
    // Applying the results

    /** The cached services of peers that are not asked, if recent. */
    method RestoreOffline(ps: seq<PeerInfo>, now: int) returns (r: seq<PeerInfo>)
      ensures |r| == |ps|
      ensures forall i :: 0 <= i < |ps| ==>
                r[i] == if IsAsked(ps[i]) then ps[i] else Restored(ps[i], Find(cache, ps[i].ip), now)
    {
      r := ps;
      for i := 0 to |ps|
        invariant |r| == |ps|
        invariant forall j :: 0 <= j < i ==>
                    r[j] == if IsAsked(ps[j]) then ps[j] else Restored(ps[j], Find(cache, ps[j].ip), now)
        invariant forall j :: i <= j < |ps| ==> r[j] == ps[j]
      {
        if ps[i].health != AgentOffline {
          continue;
        }
        if ps[i].ip in cache {
          var cached := cache[ps[i].ip];
          if now - cached.fetchedAt <= SERVICE_HISTORY_TTL {
            r := r[i := r[i].(services := cached.services, updatedAt := Some(cached.fetchedAt))];
          }
        }
      }
    }

    /** One result: the cache, the peer and the targets follow it. */
    method ApplyResult(p: PeerInfo, r: PeerResult, now: int) returns (q: PeerInfo, added: seq<SDTarget>)
      modifies `cache
      ensures Find(cache, p.ip) == CacheAfter(Find(old(cache), p.ip), r, now)
      ensures forall ip :: ip != p.ip ==> Find(cache, ip) == Find(old(cache), ip)
      ensures q == PeerAfter(p, Find(old(cache), p.ip), r, now)
      ensures added == TargetsAfter(Find(old(cache), p.ip), r)
    {
      q, added := p.(health := r.health), [];
      if r.health == AgentOK {
        var services := r.services;
        if r.svc304 {
          services := if p.ip in cache then cache[p.ip].services else [];
        }
        if !r.health304 && r.healthTable.Some? {
          services := OverlayHealth(services, r.healthTable.value);
        } else if r.health304 && !r.svc304 {
          services := InheritCachedHealth(Find(cache, p.ip), services);
        }
        assert services == ServiceCache.Merged(Find(cache, p.ip), r);
        cache := cache[p.ip := CachedServices(services, now)];
        q := q.(services := services, updatedAt := Some(now));
        for i := 0 to |services|
          invariant added == TargetsOf(services)[..i]
        {
          added := added + [services[i].target];
        }
      } else if p.ip in cache {
        var cached := cache[p.ip];
        if now - cached.fetchedAt <= SERVICE_HISTORY_TTL {
          q := q.(services := cached.services, updatedAt := Some(cached.fetchedAt));
        }
      }
    }
  
    /** The results of the peers in `order` have been applied, in that order. */
    ghost predicate Applied(past: Past, ps: seq<PeerInfo>, now: int, out: seq<PeerInfo>, found: seq<SDTarget>,
                            order: seq<nat>, done: set<nat>)
      reads this
    {
      && Enumerates(order, done)
      && Renewed(past.cache, cache, ps, done, NewCache(past, ps, now))
      && multiset(found) == Gathered(order, Contribution(past, ps))
      && |out| == |ps|
      && forall i :: 0 <= i < |ps| ==>
           out[i] == if IsAsked(ps[i]) && i !in done then ps[i] else Refreshed(past, ps[i], now)
    }

    method ApplyNext(ghost past: Past, ps: seq<PeerInfo>, now: int, r: PeerResult, i: nat,
                     out: seq<PeerInfo>, found: seq<SDTarget>, ghost order: seq<nat>, ghost done: set<nat>)
      returns (out': seq<PeerInfo>, found': seq<SDTarget>)
      requires i < |ps| == |out| && i !in done && IsAsked(ps[i]) && Enumerates(order, done)
      requires DistinctIps(ps) ==> r == ResultFor(past, ps[i]) && Applied(past, ps, now, out, found, order, done)
      modifies `cache
      ensures |out'| == |ps| && Enumerates(order + [i], done + {i})
      ensures DistinctIps(ps) ==> Applied(past, ps, now, out', found', order + [i], done + {i})
    {
      if DistinctIps(ps) { NotYetRenewed(past.cache, cache, ps, done, i, NewCache(past, ps, now)); }
      var q, added := ApplyResult(out[i], r, now);
      if DistinctIps(ps) { RenewNext(past.cache, old(cache), cache, ps, done, i, NewCache(past, ps, now)); }
      out', found' := out[i := q], found + added;
      GatheredSnoc(order, i, Contribution(past, ps));
      EnumeratesSnoc(order, done, i);
    }

    /** The results are applied in the order in which they happen to come in. */
    method ApplyAll(ghost past: Past, ps: seq<PeerInfo>, asked: set<nat>, results: map<nat, PeerResult>, now: int,
                    restored: seq<PeerInfo>)
      returns (out: seq<PeerInfo>, found: seq<SDTarget>, ghost order: seq<nat>)
      requires results.Keys == asked && |restored| == |ps|
      requires forall i :: i in asked ==> i < |ps| && IsAsked(ps[i])
      requires DistinctIps(ps) ==> forall i :: i in results ==> i < |ps| && results[i] == ResultFor(past, ps[i])
      requires DistinctIps(ps) ==> Applied(past, ps, now, restored, [], [], {})
      modifies `cache
      ensures |out| == |ps| && Enumerates(order, asked)
      ensures DistinctIps(ps) ==> Applied(past, ps, now, out, found, order, asked)
    {
      out, found, order := restored, [], [];
      var todo := asked;
      TakeNone(asked);
      while todo != {}
        invariant todo <= asked && |out| == |ps| && Enumerates(order, asked - todo)
        invariant DistinctIps(ps) ==> Applied(past, ps, now, out, found, order, asked - todo)
        decreases |todo|
      {
        var i :| i in todo;
        out, found := ApplyNext(past, ps, now, results[i], i, out, found, order, asked - todo);
        TakeOne(asked, todo, i);
        order, todo := order + [i], todo - {i};
      }
      TakeAll(asked, todo);
    }

    method DropExpired(now: int) returns (expired: seq<string>)
      modifies `cache
      ensures forall ip :: ip in expired <==> Expired(Find(old(cache), ip), now)
      ensures forall ip :: Find(cache, ip) == Kept(Find(old(cache), ip), now)
    {
      expired := [];
      var todo := cache.Keys;
      while todo != {}
        invariant todo <= old(cache).Keys
        invariant forall ip :: ip in expired <==> ip !in todo && Expired(Find(old(cache), ip), now)
        invariant forall ip :: Find(cache, ip) == if ip in expired then None else Find(old(cache), ip)
        decreases |todo|
      {
        var ip :| ip in todo;
        assert Find(cache, ip) == Find(old(cache), ip);
        if now - cache[ip].fetchedAt > SERVICE_HISTORY_TTL {
          cache := cache - {ip};
          expired := expired + [ip];
        }
        todo := todo - {ip};
      }
    }

    method DropValidators(expired: seq<string>)
      modifies `lastModifiedSvc, `lastModifiedHealth
      ensures forall ip :: Find(lastModifiedSvc, ip) == if ip in expired then None else Find(old(lastModifiedSvc), ip)
      ensures forall ip :: Find(lastModifiedHealth, ip) ==
                if ip in expired then None else Find(old(lastModifiedHealth), ip)
    {
      for i := 0 to |expired|
        invariant forall ip :: Find(lastModifiedSvc, ip) ==
                    if ip in expired[..i] then None else Find(old(lastModifiedSvc), ip)
        invariant forall ip :: Find(lastModifiedHealth, ip) ==
                    if ip in expired[..i] then None else Find(old(lastModifiedHealth), ip)
      {
        assert expired[..i + 1] == expired[..i] + [expired[i]];
        lastModifiedSvc := lastModifiedSvc - {expired[i]};
        lastModifiedHealth := lastModifiedHealth - {expired[i]};
      }
      assert expired[..|expired|] == expired;
    }

    /** Forgets services older than the time limit, and their validators with them. */
    method EvictExpiredServiceCache(now: int)
      modifies `cache, `lastModifiedSvc, `lastModifiedHealth
      ensures forall ip :: Find(cache, ip) == Kept(Find(old(cache), ip), now)
      ensures forall ip :: Find(lastModifiedSvc, ip) ==
                if Expired(Find(old(cache), ip), now) then None else Find(old(lastModifiedSvc), ip)
      ensures forall ip :: Find(lastModifiedHealth, ip) ==
                if Expired(Find(old(cache), ip), now) then None else Find(old(lastModifiedHealth), ip)
    {
      var expired := DropExpired(now);
      if expired == [] {
        forall ip
          ensures !Expired(Find(old(cache), ip), now)
        {
          assert ip !in expired;
        }
        return;
      }
      DropValidators(expired);
    }

    /** Everything of a refresh up to eviction and publication. */
    method GatherPeers(ps: seq<PeerInfo>, net: Net, now: int)
      returns (out: seq<PeerInfo>, found: seq<SDTarget>, ghost order: seq<nat>)
      modifies `cache, `lastModifiedSvc, `lastModifiedHealth
      ensures |out| == |ps| && Enumerates(order, Asked(ps))
      ensures DistinctIps(ps) ==> Applied(old(PastWith(net)), ps, now, out, found, order, Asked(ps))
      ensures DistinctIps(ps) ==> StampsRenewed(old(PastWith(net)), ps, Asked(ps))
    {
      ghost var past := PastWith(net);
      var restored := RestoreOffline(ps, now);
      var results := QueryAll(ps, Asked(ps), net);
      NothingApplied(past, ps, now, restored);
      out, found, order := ApplyAll(past, ps, Asked(ps), results, now, restored);
    }

    /** The refresh of a list of peers. What it publishes is stated for distinct addresses. */
    method RefreshPeers(ps: seq<PeerInfo>, net: Net, now: int) returns (ghost order: seq<nat>)
      modifies `peers, `targets, `cache, `lastModifiedSvc, `lastModifiedHealth
      ensures |peers| == |ps| && Enumerates(order, Asked(ps))
      ensures DistinctIps(ps) ==> PublishedAs(old(PastWith(net)), ps, now, order)
      ensures DistinctIps(ps) ==> KnownAs(old(PastWith(net)), ps, now)
      ensures DistinctIps(ps) ==> TargetsShown()
      ensures DistinctIps(ps) && (forall p :: p in ps ==> Unfilled(p)) ==> CacheShown()
    {
      ghost var past := PastWith(net);
      var out, found;
      out, found, order := GatherPeers(ps, net, now);
      ghost var filled, svc, health := cache, lastModifiedSvc, lastModifiedHealth;
      EvictExpiredServiceCache(now);
      peers, targets := out, found;
      if DistinctIps(ps) {
        EvictedAs(past, ps, now, filled, svc, health);
        PublishedTargets(past, ps, now, order);
        if forall p :: p in ps ==> Unfilled(p) { PublishedCache(past, ps, now, order); }
      }
    }

    /** The published targets are those of the services of the published peers that are OK. */
    ghost predicate TargetsShown()
      reads this
    {
      && multiset(targets) == OkTargets(peers)
      && forall t :: t in targets <==>
           exists p, e :: p in peers && p.health == AgentOK && e in p.services && e.target == t
    }

    /** Every published peer shows what the cache has for it. */
    ghost predicate CacheShown()
      reads this
    {
      forall i :: 0 <= i < |peers| ==> Shows(peers[i], Find(cache, peers[i].ip))
    }

    lemma PublishedTargets(past: Past, merged: seq<PeerInfo>, now: int, order: seq<nat>)
      requires PublishedAs(past, merged, now, order)
      ensures TargetsShown()
    {
      GatheredIsShown(past, merged, now, peers, order);
      forall t
        ensures t in targets <==>
                exists p, e :: p in peers && p.health == AgentOK && e in p.services && e.target == t
      {
        OkTargetsMembers(peers, t);
        assert t in targets <==> t in multiset(targets);
      }
    }

    lemma PublishedCache(past: Past, merged: seq<PeerInfo>, now: int, order: seq<nat>)
      requires PublishedAs(past, merged, now, order) && KnownAs(past, merged, now) && DistinctIps(merged)
      requires forall p :: p in merged ==> Unfilled(p)
      ensures CacheShown()
    {
      forall i | 0 <= i < |peers|
        ensures Shows(peers[i], Find(cache, peers[i].ip))
      {
        assert Unfilled(merged[i]) && peers[i] == Refreshed(past, merged[i], now);
        KnownAt(past, merged, now, i);
        RefreshedShowsCache(past, merged[i], now);
        RefreshedIsRecent(past, merged[i], now);
      }
    }

    lemma KnownAt(past: Past, merged: seq<PeerInfo>, now: int, i: nat)
      requires KnownAs(past, merged, now) && DistinctIps(merged) && i < |merged|
      ensures
        var p := merged[i];
        KnownOf(p.ip) ==
        if IsAsked(p) then Stepped(PastOf(past, p.ip), ServicesAnswer(past, p), HealthAnswer(past, p), now)
        else Evicted(PastOf(past, p.ip), now)
    {
      if IsAsked(merged[i]) {
        assert i in Asked(merged);
      } else {
        assert !IpAmong(merged, Asked(merged), merged[i].ip);
      }
    }

    /** A whole refresh. A failed discovery changes nothing but `tsDown`. Otherwise, if discovered
        peers have addresses of their own, every peer of the merged list is published as
        `Refreshed` says, in whatever order the results came in; the published targets are those of
        the services that the peers are published with, where these are OK; and every peer shows
        what the cache has for it. */
    method Refresh(discovered: Option<seq<PeerInfo>>, net: Net, now: int)
      returns (ghost merged: seq<PeerInfo>, ghost order: seq<nat>)
      requires KeyedByAddress(manualPeers)
      modifies `tsDown, `peers, `targets, `cache, `lastModifiedSvc, `lastModifiedHealth
      ensures tsDown == discovered.None?
      ensures discovered.None? ==> peers == old(peers) && targets == old(targets) && PastWith(net) == old(PastWith(net))
      ensures discovered.Some? ==> MergeOf(old(Circumstances(discovered.value)), merged) && |peers| == |merged|
      ensures discovered.Some? && Addressed(discovered.value) ==> DistinctIps(merged)
      ensures discovered.Some? && DistinctIps(merged) ==>
                && PublishedAs(old(PastWith(net)), merged, now, order)
                && KnownAs(old(PastWith(net)), merged, now)
      ensures discovered.Some? && DistinctIps(merged) ==> TargetsShown()
      ensures discovered.Some? && DistinctIps(merged) && (forall p :: p in discovered.value ==> Unfilled(p)) ==>
                CacheShown()
    {
      merged, order := [], [];
      if discovered.None? {
        tsDown := true;
        return;
      }
      tsDown := false;
      var ps := MergeDistinct(discovered.value);
      merged := ps;
      if forall p :: p in discovered.value ==> Unfilled(p) {
        MergedUnfilled(Circumstances(discovered.value), ps);
      }
      order := RefreshPeers(ps, net, now);
    }

    method MergeDistinct(auto: seq<PeerInfo>) returns (ps: seq<PeerInfo>)
      requires KeyedByAddress(manualPeers)
      ensures MergeOf(Circumstances(auto), ps) && (Addressed(auto) ==> DistinctIps(ps))
    {
      ghost var order;
      ps, order := MergePeers(auto);
      if Addressed(auto) { MergedIpsDistinct(Circumstances(auto), order); }
    }

    /** What is known of the peer at an address. */
    ghost function KnownOf(ip: string): Knowledge
      reads this
    {
      Knowledge(Find(cache, ip), Find(lastModifiedSvc, ip), Find(lastModifiedHealth, ip))
    }

    /** Cache and validators after the refresh: one step for each peer that was asked, eviction for
        every other address. */
    ghost predicate KnownAs(past: Past, merged: seq<PeerInfo>, now: int)
      reads this
    {
      && (forall i :: i in Asked(merged) ==>
            KnownOf(merged[i].ip) ==
            Stepped(PastOf(past, merged[i].ip), ServicesAnswer(past, merged[i]), HealthAnswer(past, merged[i]), now))
      && (forall ip :: !IpAmong(merged, Asked(merged), ip) ==> KnownOf(ip) == Evicted(PastOf(past, ip), now))
    }

    lemma EvictedAs(past: Past, merged: seq<PeerInfo>, now: int, filled: map<string, CachedServices>,
                    svc: map<string, nat>, health: map<string, nat>)
      requires Renewed(past.cache, filled, merged, Asked(merged), NewCache(past, merged, now))
      requires Renewed(past.svc, svc, merged, Asked(merged), NewServicesStamp(past, merged))
      requires Renewed(past.health, health, merged, Asked(merged), NewHealthStamp(past, merged))
      requires forall ip :: KnownOf(ip) == Evicted(Knowledge(Find(filled, ip), Find(svc, ip), Find(health, ip)), now)
      ensures KnownAs(past, merged, now)
    {
      forall i | i in Asked(merged)
        ensures KnownOf(merged[i].ip) ==
                Stepped(PastOf(past, merged[i].ip), ServicesAnswer(past, merged[i]), HealthAnswer(past, merged[i]), now)
      {
        assert Find(filled, merged[i].ip) == NewCache(past, merged, now)(i);
      }
    }

    /** Peers and targets as the refresh publishes them. */
    ghost predicate PublishedAs(past: Past, merged: seq<PeerInfo>, now: int, order: seq<nat>)
      reads this
    {
      && |peers| == |merged|
      && (forall i :: 0 <= i < |merged| ==> peers[i] == Refreshed(past, merged[i], now))
      && Enumerates(order, Asked(merged))
      && multiset(targets) == Gathered(order, Contribution(past, merged))
    }

    lemma NothingApplied(past: Past, ps: seq<PeerInfo>, now: int, restored: seq<PeerInfo>)
      requires past.cache == cache && |restored| == |ps|
      requires forall i :: 0 <= i < |ps| ==>
                 restored[i] == if IsAsked(ps[i]) then ps[i] else Restored(ps[i], Find(cache, ps[i].ip), now)
      ensures Applied(past, ps, now, restored, [], [], {})
    {
    }
  }

  /** The cache entry that peer number `i` leaves behind. */
  function NewCache(past: Past, ps: seq<PeerInfo>, now: int): nat -> Option<CachedServices> {
    (i: nat) => if i < |ps| then CacheAfter(Find(past.cache, ps[i].ip), ResultFor(past, ps[i]), now) else None
  }

  lemma EnumeratesSnoc(order: seq<nat>, done: set<nat>, i: nat)
    requires Enumerates(order, done) && i !in done
    ensures Enumerates(order + [i], done + {i})
  {
  }

  lemma TakeNone(all: set<nat>)
    ensures all - all == {}
  {
  }

  lemma TakeAll(all: set<nat>, todo: set<nat>)
    requires todo == {}
    ensures all - todo == all
  {
  }

  lemma TakeOne(all: set<nat>, todo: set<nat>, i: nat)
    requires todo <= all && i in todo
    ensures all - todo + {i} == all - (todo - {i})
  {
  }

  lemma MergedUnfilled(c: Setting, merged: seq<PeerInfo>)
    requires MergeOf(c, merged) && forall p :: p in c.auto ==> Unfilled(p)
    ensures forall p :: p in merged ==> Unfilled(p)
  {
    var order :| Enumerates(order, c.manual.Keys) && merged == PeerMerge.Merged(c, order);
    AppendedUnfilled(c, order);
    forall i | 0 <= i < |c.auto|
      ensures Unfilled(Overridden(c, order)[i])
    {
      assert c.auto[i] in c.auto;
    }
  }

  lemma {:induction false} AppendedUnfilled(c: Setting, order: seq<string>)
    requires Known(c, order)
    ensures forall p :: p in Appended(c, order) ==> Unfilled(p)
    decreases |order|
  {
    if order != [] {
      AppendedUnfilled(c, order[..|order| - 1]);
    }
  }

  /** The validator that peer number `i` leaves behind. */
  function NewServicesStamp(past: Past, ps: seq<PeerInfo>): nat -> Option<nat> {
    (i: nat) => if i < |ps| then ServicesStamp(Find(past.svc, ps[i].ip), ServicesAnswer(past, ps[i])) else None
  }

  function NewHealthStamp(past: Past, ps: seq<PeerInfo>): nat -> Option<nat> {
    (i: nat) => if i < |ps| then HealthStamp(Find(past.health, ps[i].ip), HealthAnswer(past, ps[i])) else None
  }

  lemma MergedSnoc(c: Setting, order: seq<string>, k: string)
    requires Known(c, order) && k in c.manual
    ensures PeerMerge.Merged(c, order + [k]) ==
            MergeOne(PeerMerge.Merged(c, order), Target(c, k), c.manual[k], c.defaultPort)
  {
    MergedNext(c, order + [k], |order|);
    assert (order + [k])[..|order| + 1] == order + [k] && (order + [k])[..|order|] == order;
  }
}
