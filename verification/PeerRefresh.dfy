/**
 What one refresh of Central makes of each peer: a pure account, peer by peer, from what
 Central knew before and what the network answers.
 */
module PeerRefresh {
  import opened Types
  import opened Bags
  import opened ServiceCache
  import opened PeerMerge

  function Find<T>(m: map<string, T>, k: string): Option<T> {
    if k in m then Some(m[k]) else None
  }

  /** The answers of all Agents: to a request at a URL, for a peer, with or without a validator. */
  datatype Net = Net(
    services: (string, string, Option<nat>) -> ServicesReply,
    health: (string, string, Option<nat>) -> HealthReply)

  /** What Central knows when a refresh starts, and what it will be answered. */
  datatype Past = Past(
    cache: map<string, CachedServices>,
    svc: map<string, nat>,
    health: map<string, nat>,
    net: Net)

  /** The validator sent for the peer at an address. */
  function Validator(cache: map<string, CachedServices>, lm: map<string, nat>, ip: string): Option<nat> {
    ValidatorSent(Find(cache, ip), Find(lm, ip))
  }

  function PastOf(past: Past, ip: string): Knowledge {
    Knowledge(Find(past.cache, ip), Find(past.svc, ip), Find(past.health, ip))
  }

  function ServicesAnswer(past: Past, p: PeerInfo): ServicesReply {
    past.net.services(p.url, p.ip, Validator(past.cache, past.svc, p.ip))
  }

  function HealthAnswer(past: Past, p: PeerInfo): HealthReply {
    past.net.health(p.url, p.ip, Validator(past.cache, past.health, p.ip))
  }

  function ResultFor(past: Past, p: PeerInfo): PeerResult {
    ResultOf(ServicesAnswer(past, p), HealthAnswer(past, p))
  }

  predicate IsAsked(p: PeerInfo) {
    p.health != AgentOffline
  }

  function Asked(peers: seq<PeerInfo>): set<nat> {
    set i | 0 <= i < |peers| && IsAsked(peers[i])
  }

  predicate Recent(c: Option<CachedServices>, now: int) {
    c.Some? && now - c.value.fetchedAt <= SERVICE_HISTORY_TTL
  }

  function Restored(p: PeerInfo, c: Option<CachedServices>, now: int): PeerInfo {
    if Recent(c, now) then p.(services := c.value.services, updatedAt := Some(c.value.fetchedAt)) else p
  }

  /** A peer that was asked, once its result is in. */
  function PeerAfter(p: PeerInfo, before: Option<CachedServices>, r: PeerResult, now: int): PeerInfo {
    if r.health == AgentOK
    then p.(health := AgentOK, services := ServiceCache.Merged(before, r), updatedAt := Some(now))
    else Restored(p.(health := r.health), before, now)
  }

  /** A peer as the refresh publishes it. */
  function Refreshed(past: Past, p: PeerInfo, now: int): PeerInfo {
    if IsAsked(p) then PeerAfter(p, Find(past.cache, p.ip), ResultFor(past, p), now)
    else Restored(p, Find(past.cache, p.ip), now)
  }

  function TargetsOf(es: seq<ServiceEntry>): (r: seq<SDTarget>)
    ensures |r| == |es| && forall i :: 0 <= i < |es| ==> r[i] == es[i].target
  {
    seq(|es|, i requires 0 <= i < |es| => es[i].target)
  }

  function TargetsAfter(before: Option<CachedServices>, r: PeerResult): seq<SDTarget> {
    if r.health == AgentOK then TargetsOf(ServiceCache.Merged(before, r)) else []
  }

  /** What peer number `i` adds to the published targets. */
  function Contribution(past: Past, peers: seq<PeerInfo>): nat -> multiset<SDTarget> {
    (i: nat) =>
      if i < |peers| then multiset(TargetsAfter(Find(past.cache, peers[i].ip), ResultFor(past, peers[i])))
      else multiset{}
  }

  /** A peer that was asked is OK exactly when both its queries were; whatever services a peer is
      left with are at most 72 hours old. */
  lemma RefreshedIsRecent(past: Past, p: PeerInfo, now: int)
    requires p.services == [] && p.updatedAt.None?
    ensures
      var q := Refreshed(past, p, now);
      && (q.updatedAt.Some? ==> now - q.updatedAt.value <= SERVICE_HISTORY_TTL)
      && (q.updatedAt.None? ==> q.services == [])
      && (IsAsked(p) ==> (q.health == AgentOK <==>
            ServicesHealth(ServicesAnswer(past, p)) == AgentOK && HealthHealth(HealthAnswer(past, p)) == AgentOK))
      && q == p.(health := q.health, services := q.services, updatedAt := q.updatedAt)
  {
  }

  /** A services answer that is worth something. */
  predicate GoodServices(r: ServicesReply) {
    r == ServicesUnchanged || (r.ServicesFull? && r.body.Some?)
  }

  /** So is a health answer of an Agent without the endpoint. */
  predicate GoodHealth(r: HealthReply) {
    r == HealthUnchanged || r == HealthNotFound || (r.HealthReplyFull? && r.table != Undecodable)
  }

  /** What a peer is published as: offline peers stay so; of the others, one query that was denied
      makes it unauthorized, else one that went wrong makes it timed out. */
  lemma PublishedHealth(past: Past, p: PeerInfo, now: int)
    ensures
      var sr, hr := ServicesAnswer(past, p), HealthAnswer(past, p);
      Refreshed(past, p, now).health ==
      if p.health == AgentOffline then AgentOffline
      else if sr == ServicesDenied || hr == HealthDenied then AgentUnauthorized
      else if GoodServices(sr) && GoodHealth(hr) then AgentOK
      else AgentTimeout
  {
  }

  /** The peer shows the cached services, or none. */
  predicate Shows(p: PeerInfo, c: Option<CachedServices>) {
    if c.Some? then p.services == c.value.services && p.updatedAt == Some(c.value.fetchedAt)
    else p.services == [] && p.updatedAt == None
  }

  /** As it comes from discovery. */
  predicate Unfilled(p: PeerInfo) {
    Shows(p, None)
  }

  /** Whatever the answers, a published peer shows what the cache keeps for it. */
  lemma RefreshedShowsCache(past: Past, p: PeerInfo, now: int)
    requires Unfilled(p)
    ensures Shows(Refreshed(past, p, now),
              if IsAsked(p) then Stepped(PastOf(past, p.ip), ServicesAnswer(past, p), HealthAnswer(past, p), now).cache
              else Evicted(PastOf(past, p.ip), now).cache)
  {
  }

  // The published targets

  /** The targets of a peer that is OK. */
  function OkTargetsOf(q: PeerInfo): multiset<SDTarget> {
    if q.health == AgentOK then multiset(TargetsOf(q.services)) else multiset{}
  }

  /** The same for a list of peers. */
  function OkTargets(peers: seq<PeerInfo>): multiset<SDTarget> {
    if peers == [] then multiset{}
    else OkTargets(peers[..|peers| - 1]) + OkTargetsOf(peers[|peers| - 1])
  }

  lemma {:induction false} OkTargetsMembers(peers: seq<PeerInfo>, t: SDTarget)
    ensures t in OkTargets(peers) <==>
            exists p, e :: p in peers && p.health == AgentOK && e in p.services && e.target == t
    decreases |peers|
  {
    if peers != [] {
      var before, last := peers[..|peers| - 1], peers[|peers| - 1];
      OkTargetsMembers(before, t);
      assert peers == before + [last];
      TargetsMembers(last.services, t);
    }
  }

  lemma TargetsMembers(es: seq<ServiceEntry>, t: SDTarget)
    ensures t in TargetsOf(es) <==> exists e :: e in es && e.target == t
  {
    if t in TargetsOf(es) {
      var i :| 0 <= i < |es| && TargetsOf(es)[i] == t;
      assert es[i] in es;
    }
    if e :| e in es && e.target == t {
      var i :| 0 <= i < |es| && es[i] == e;
      assert TargetsOf(es)[i] == t;
    }
  }

  /** The first `k` peers that are asked, in order. */
  function AskedUpTo(peers: seq<PeerInfo>, k: nat): seq<nat>
    requires k <= |peers|
  {
    if k == 0 then [] else AskedUpTo(peers, k - 1) + (if IsAsked(peers[k - 1]) then [k - 1] else [])
  }

  lemma {:induction false} AskedUpToEnumerates(peers: seq<PeerInfo>, k: nat)
    requires k <= |peers|
    ensures Distinct(AskedUpTo(peers, k))
    ensures forall i: nat :: i in AskedUpTo(peers, k) <==> i < k && IsAsked(peers[i])
    decreases k
  {
    if k > 0 {
      AskedUpToEnumerates(peers, k - 1);
      assert AskedUpTo(peers, k) == AskedUpTo(peers, k - 1) + (if IsAsked(peers[k - 1]) then [k - 1] else []);
    }
  }

  lemma OkTargetsSnoc(peers: seq<PeerInfo>, q: PeerInfo)
    ensures OkTargets(peers + [q]) == OkTargets(peers) + OkTargetsOf(q)
  {
    assert (peers + [q])[..|peers|] == peers;
  }

  lemma {:induction false} GatheredUpTo(ps: seq<PeerInfo>, out: seq<PeerInfo>, k: nat, f: nat -> multiset<SDTarget>)
    requires k <= |ps| == |out|
    requires forall i: nat :: i < |ps| ==> OkTargetsOf(out[i]) == if IsAsked(ps[i]) then f(i) else multiset{}
    ensures Gathered(AskedUpTo(ps, k), f) == OkTargets(out[..k])
    decreases k
  {
    if k > 0 {
      GatheredUpTo(ps, out, k - 1, f);
      assert OkTargets(out[..k]) == OkTargets(out[..k - 1]) + OkTargetsOf(out[k - 1]) by {
        assert out[..k] == out[..k - 1] + [out[k - 1]];
        OkTargetsSnoc(out[..k - 1], out[k - 1]);
      }
      AskedNext(ps, k, f);
    }
  }

  lemma AskedNext(ps: seq<PeerInfo>, k: nat, f: nat -> multiset<SDTarget>)
    requires 0 < k <= |ps|
    ensures Gathered(AskedUpTo(ps, k), f) ==
            Gathered(AskedUpTo(ps, k - 1), f) + (if IsAsked(ps[k - 1]) then f(k - 1) else multiset{})
  {
    if IsAsked(ps[k - 1]) {
      GatheredSnoc<nat, SDTarget>(AskedUpTo(ps, k - 1), k - 1, f);
    } else {
      assert AskedUpTo(ps, k - 1) + [] == AskedUpTo(ps, k - 1);
    }
  }

  /** What the peers add in any order is what the published peers show. */
  lemma GatheredIsShown(past: Past, ps: seq<PeerInfo>, now: int, out: seq<PeerInfo>, order: seq<nat>)
    requires |ps| == |out| && forall i :: 0 <= i < |ps| ==> out[i] == Refreshed(past, ps[i], now)
    requires Enumerates(order, Asked(ps))
    ensures Gathered(order, Contribution(past, ps)) == OkTargets(out)
  {
    AskedUpToEnumerates(ps, |ps|);
    AnyOrderGathersTheSame(order, AskedUpTo(ps, |ps|), Asked(ps), Contribution(past, ps));
    GatheredUpTo(ps, out, |ps|, Contribution(past, ps));
    assert out[..|ps|] == out;
  }

  // Peers by address

  predicate IpAmong(peers: seq<PeerInfo>, some_: set<nat>, ip: string) {
    exists i :: i in some_ && i < |peers| && peers[i].ip == ip
  }

  /** Of a map from addresses: the entries of peers in `done` are renewed, all others kept. */
  ghost predicate Renewed<T(!new)>(before: map<string, T>, now: map<string, T>, peers: seq<PeerInfo>, done: set<nat>,
                             renew: nat -> Option<T>)
  {
    && (forall i :: i in done && i < |peers| ==> Find(now, peers[i].ip) == renew(i))
    && (forall ip :: !IpAmong(peers, done, ip) ==> Find(now, ip) == Find(before, ip))
  }

  lemma RenewNext<T(!new)>(before: map<string, T>, now: map<string, T>, then_: map<string, T>, peers: seq<PeerInfo>,
                           done: set<nat>, i: nat, renew: nat -> Option<T>)
    requires DistinctIps(peers) && i < |peers| && i !in done
    requires Renewed(before, now, peers, done, renew)
    requires Find(then_, peers[i].ip) == renew(i)
    requires forall ip :: ip != peers[i].ip ==> Find(then_, ip) == Find(now, ip)
    ensures Renewed(before, then_, peers, done + {i}, renew)
  {
    forall j | j in done && j < |peers|
      ensures Find(then_, peers[j].ip) == renew(j)
    {
      assert peers[j].ip != peers[i].ip;
    }
    forall ip | !IpAmong(peers, done + {i}, ip)
      ensures Find(then_, ip) == Find(before, ip)
    {
      assert i in done + {i};
      assert !IpAmong(peers, done, ip);
    }
  }

  /** A peer whose turn has not come finds its entry as it was. */
  lemma NotYetRenewed<T(!new)>(before: map<string, T>, now: map<string, T>, peers: seq<PeerInfo>, done: set<nat>,
                               i: nat, renew: nat -> Option<T>)
    requires DistinctIps(peers) && i < |peers| && i !in done
    requires Renewed(before, now, peers, done, renew)
    ensures Find(now, peers[i].ip) == Find(before, peers[i].ip)
  {
    if IpAmong(peers, done, peers[i].ip) {
      var j :| j in done && j < |peers| && peers[j].ip == peers[i].ip;
      assert j != i;
    }
  }

  /** The targets do not depend on the order in which the results come in. */
  lemma RefreshIsConfluent(past: Past, peers: seq<PeerInfo>, order: seq<nat>, other: seq<nat>)
    requires Enumerates(order, Asked(peers)) && Enumerates(other, Asked(peers))
    ensures Gathered(order, Contribution(past, peers)) == Gathered(other, Contribution(past, peers))
  {
    AnyOrderGathersTheSame(order, other, Asked(peers), Contribution(past, peers));
  }
}
