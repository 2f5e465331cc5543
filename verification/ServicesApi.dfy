/**
 The Agent's answers to `/api/v1/services` and `/api/v1/services/health`: the conditional
 test, the resolved service list with the self-metrics entries appended, and the health map.
 */
module ServicesApi {
  import opened Types
  import opened Ordering
  import opened AgentRegistry
  import R = Resolve

  /** What a request sees besides the registry: substitution values and self-metrics targets. */
  datatype Net = Net(rc: R.Context, extras: seq<SDTarget>)

  datatype ServicesAnswer = NotModified | Full(lastModified: nat, body: seq<ServiceEntry>)

  datatype HealthAnswer = HealthNotModified | HealthFull(lastModified: nat, table: HealthTable)

  const EXTRA_NAME := "tsd-agent-metrics"

  function ExtraEntry(t: SDTarget): ServiceEntry {
    ServiceEntry(EXTRA_NAME, TypeStatic, t, None)
  }

  function ExtraEntries(extras: seq<SDTarget>): seq<ServiceEntry> {
    seq(|extras|, i requires 0 <= i < |extras| => ExtraEntry(extras[i]))
  }

  ghost function Resolved(target: string, rc: R.Context): Option<string> {
    R.Expand(R.Tokens(target), rc)
  }

  /** The targets that resolve, in order. */
  ghost function ResolvedTargets(targets: seq<string>, rc: R.Context): seq<string> {
    if targets == [] then []
    else
      var last := |targets| - 1;
      ResolvedTargets(targets[..last], rc) + Kept(Resolved(targets[last], rc))
  }

  function Kept<T>(o: Option<T>): seq<T> {
    if o.Some? then [o.value] else []
  }

  ghost function ResolvedEntry(e: ServiceEntry, rc: R.Context): Option<ServiceEntry> {
    var targets := ResolvedTargets(e.target.targets, rc);
    if targets == [] then None else Some(e.(target := e.target.(targets := targets)))
  }

  ghost function ResolvedEntries(es: seq<ServiceEntry>, rc: R.Context): seq<ServiceEntry> {
    if es == [] then []
    else
      var last := |es| - 1;
      ResolvedEntries(es[..last], rc) + Kept(ResolvedEntry(es[last], rc))
  }

  /** The body of a full services answer built from a list read in one critical section. */
  ghost function Serve(list: seq<ServiceEntry>, net: Net): seq<ServiceEntry> {
    ResolvedEntries(list + ExtraEntries(net.extras), net.rc)
  }

  method ResolveEntry(e: ServiceEntry, rc: R.Context) returns (r: Option<ServiceEntry>)
    ensures r == ResolvedEntry(e, rc)
  {
    var targets := e.target.targets;
    var resolved := [];
    for i := 0 to |targets|
      invariant resolved == ResolvedTargets(targets[..i], rc)
    {
      assert targets[..i + 1][..i] == targets[..i];
      var t := R.ResolveTarget(targets[i], rc);
      if t.None? {
        continue;
      }
      resolved := resolved + [t.value];
    }
    assert targets[..|targets|] == targets;
    if resolved == [] {
      return None;
    }
    return Some(e.(target := e.target.(targets := resolved)));
  }

  method ResolveEntries(entries: seq<ServiceEntry>, rc: R.Context) returns (resolved: seq<ServiceEntry>)
    ensures resolved == ResolvedEntries(entries, rc)
  {
    resolved := [];
    for i := 0 to |entries|
      invariant resolved == ResolvedEntries(entries[..i], rc)
    {
      assert entries[..i + 1][..i] == entries[..i];
      var re := ResolveEntry(entries[i], rc);
      if re.Some? {
        resolved := resolved + [re.value];
      }
    }
    assert entries[..|entries|] == entries;
  }

  method AppendExtras(listed: seq<ServiceEntry>, extras: seq<SDTarget>) returns (entries: seq<ServiceEntry>)
    ensures entries == listed + ExtraEntries(extras)
  {
    entries := listed;
    for i := 0 to |extras|
      invariant entries == listed + ExtraEntries(extras[..i])
    {
      entries := entries + [ExtraEntry(extras[i])];
      assert ExtraEntries(extras[..i + 1]) == ExtraEntries(extras[..i]) + [ExtraEntry(extras[i])];
    }
    assert extras[..|extras|] == extras;
  }

  /** The answer with the stamp of one state and the list of a later one. */
  ghost function ServicesAnswerFrom(stamped: State, ims: Option<nat>, listed: State, net: Net): ServicesAnswer {
    if AgentRegistry.NotModified(stamped.svcModifiedAt, ims) then NotModified
    else Full(HttpDate(stamped.svcModifiedAt), Serve(ListWithoutHealth(listed), net))
  }

  ghost function HealthAnswerFrom(stamped: State, ims: Option<nat>, tabled: State): HealthAnswer {
    if AgentRegistry.NotModified(stamped.healthModifiedAt, ims) then HealthNotModified
    else HealthFull(HttpDate(stamped.healthModifiedAt), HealthMap(tabled))
  }

  /** Stamp and list are read in separate critical sections; `between` is what the registry goes
      through from one to the other. */
  method HandleServices(reg: Registry, ims: Option<nat>, net: Net)
    returns (r: ServicesAnswer, ghost between: seq<Event>)
    requires ValidState(reg.Model())
    modifies reg
    ensures ValidState(reg.Model()) && reg.Model() == Run(old(reg.Model()), between)
    ensures r == ServicesAnswerFrom(old(reg.Model()), ims, reg.Model(), net)
  {
    var modTime := reg.svcModifiedAt;
    if AgentRegistry.NotModified(modTime, ims) {
      return NotModified, [];
    }
    between := OthersRun(reg);
    var listed := reg.SortedEntries(false);
    var entries := AppendExtras(listed, net.extras);
    var resolved := ResolveEntries(entries, net.rc);
    return Full(HttpDate(modTime), resolved), between;
  }

  method HandleServicesHealth(reg: Registry, ims: Option<nat>)
    returns (r: HealthAnswer, ghost between: seq<Event>)
    requires ValidState(reg.Model())
    modifies reg
    ensures ValidState(reg.Model()) && reg.Model() == Run(old(reg.Model()), between)
    ensures r == HealthAnswerFrom(old(reg.Model()), ims, reg.Model())
  {
    var modTime := reg.healthModifiedAt;
    if AgentRegistry.NotModified(modTime, ims) {
      return HealthNotModified, [];
    }
    between := OthersRun(reg);
    var health := reg.ListHealth();
    return HealthFull(HttpDate(modTime), health), between;
  }

  // What a served list contains.

  /** At least one target of the entry resolves, so the entry is served. */
  ghost predicate Servable(e: ServiceEntry, rc: R.Context) {
    SomeResolves(e.target.targets, rc)
  }

  predicate Names(es: seq<ServiceEntry>, n: string) {
    exists i :: 0 <= i < |es| && es[i].name == n
  }

  predicate NoHealth(es: seq<ServiceEntry>) {
    forall i :: 0 <= i < |es| ==> es[i].health.None?
  }

  ghost predicate SomeResolves(targets: seq<string>, rc: R.Context) {
    exists i :: 0 <= i < |targets| && Resolved(targets[i], rc).Some?
  }

  lemma SomeResolvesSnoc(targets: seq<string>, t: string, rc: R.Context)
    ensures SomeResolves(targets + [t], rc) <==> SomeResolves(targets, rc) || Resolved(t, rc).Some?
  {
    var all := targets + [t];
    if SomeResolves(targets, rc) {
      var i :| 0 <= i < |targets| && Resolved(targets[i], rc).Some?;
      assert all[i] == targets[i];
    }
    assert all[|targets|] == t;
  }

  lemma {:induction false} ResolvedTargetsNonEmpty(targets: seq<string>, rc: R.Context)
    ensures ResolvedTargets(targets, rc) != [] <==> SomeResolves(targets, rc)
    decreases |targets|
  {
    if targets != [] {
      var last := |targets| - 1;
      ResolvedTargetsNonEmpty(targets[..last], rc);
      SomeResolvesSnoc(targets[..last], targets[last], rc);
      assert targets == targets[..last] + [targets[last]];
    }
  }

  lemma NamesConcat(a: seq<ServiceEntry>, b: seq<ServiceEntry>, n: string)
    ensures Names(a + b, n) <==> Names(a, n) || Names(b, n)
    ensures NoHealth(a + b) <==> NoHealth(a) && NoHealth(b)
  {
    forall i | 0 <= i < |b|
      ensures (a + b)[|a| + i] == b[i]
    {
    }
    forall i | 0 <= i < |a|
      ensures (a + b)[i] == a[i]
    {
    }
  }

  lemma KeptEntry(e: ServiceEntry, rc: R.Context, n: string)
    ensures Names(Kept(ResolvedEntry(e, rc)), n) <==> e.name == n && Servable(e, rc)
    ensures e.health.None? ==> NoHealth(Kept(ResolvedEntry(e, rc)))
  {
    ResolvedTargetsNonEmpty(e.target.targets, rc);
    if Servable(e, rc) {
      assert Kept(ResolvedEntry(e, rc))[0].name == e.name;
    }
  }

  /** An entry of that name can be resolved. */
  ghost predicate NamesServable(es: seq<ServiceEntry>, rc: R.Context, n: string) {
    exists i :: 0 <= i < |es| && es[i].name == n && Servable(es[i], rc)
  }

  lemma {:induction false} ResolvedEntriesContent(es: seq<ServiceEntry>, rc: R.Context, n: string)
    ensures Names(ResolvedEntries(es, rc), n) <==> NamesServable(es, rc, n)
    ensures NoHealth(es) ==> NoHealth(ResolvedEntries(es, rc))
    decreases |es|
  {
    if es != [] {
      var last := |es| - 1;
      var head, kept := ResolvedEntries(es[..last], rc), Kept(ResolvedEntry(es[last], rc));
      ResolvedEntriesContent(es[..last], rc, n);
      NamesConcat(head, kept, n);
      KeptEntry(es[last], rc, n);
      NamesServableSnoc(es, rc, n);
    }
  }

  lemma NamesServableSnoc(es: seq<ServiceEntry>, rc: R.Context, n: string)
    requires es != []
    ensures NamesServable(es, rc, n) <==>
            NamesServable(es[..|es| - 1], rc, n) || (es[|es| - 1].name == n && Servable(es[|es| - 1], rc))
  {
    var last := |es| - 1;
    if i :| 0 <= i < last && es[i].name == n && Servable(es[i], rc) {
      assert es[..last][i] == es[i];
    }
    if i :| 0 <= i < last && es[..last][i].name == n && Servable(es[..last][i], rc) {
      assert es[..last][i] == es[i];
    }
  }

  /** A registered entry that can be resolved is named in the served list. */
  lemma ServeNames(list: seq<ServiceEntry>, net: Net, e: ServiceEntry)
    requires e in list && Servable(e, net.rc)
    ensures Names(Serve(list, net), e.name)
  {
    var all := list + ExtraEntries(net.extras);
    ResolvedEntriesContent(all, net.rc, e.name);
    var i :| 0 <= i < |list| && list[i] == e;
    assert all[i] == e;
  }

  lemma ServeNoHealth(list: seq<ServiceEntry>, net: Net)
    requires NoHealth(list)
    ensures NoHealth(Serve(list, net))
  {
    ResolvedEntriesContent(list + ExtraEntries(net.extras), net.rc, "");
  }

  lemma ListWithoutHealthContent(s: State, n: string)
    requires ValidState(s)
    ensures n in s.entries ==> WithoutHealth(s.entries[n]) in ListWithoutHealth(s)
    ensures NoHealth(ListWithoutHealth(s))
  {
    var m := Stripped(s.entries);
    if n in s.entries {
      assert n in m && m[n] == WithoutHealth(s.entries[n]);
      ListingMembers(m, m[n]);
    }
    forall i | 0 <= i < |ListWithoutHealth(s)|
      ensures ListWithoutHealth(s)[i].health.None?
    {
      ListingMembers(m, ListWithoutHealth(s)[i]);
    }
  }

  /** Buckets and proxies are served exactly while the Agent has an address to announce. */
  lemma SelfServedIff(e: ServiceEntry, rc: R.Context, requesterIsIPv6: bool, port: string)
    requires e.target.targets == ["{self}"]
    requires rc.selfAddr == R.SelfAddrForRequest(requesterIsIPv6, rc.tsIPv4, rc.tsIPv6, port)
    ensures Servable(e, rc) <==> rc.tsIPv4 != "" || rc.tsIPv6 != ""
  {
    R.SelfTargetResolves(rc);
    R.SelfAddrKnownIff(requesterIsIPv6, rc.tsIPv4, rc.tsIPv6, port);
    assert e.target.targets[0] == "{self}";
  }

  // Nothing that resolves is left out, and nothing is changed but the targets

  lemma {:induction false} ResolvedTargetsMembers(targets: seq<string>, rc: R.Context, v: string)
    ensures v in ResolvedTargets(targets, rc) <==> exists t :: t in targets && Resolved(t, rc) == Some(v)
    decreases |targets|
  {
    if targets != [] {
      var before, last := targets[..|targets| - 1], targets[|targets| - 1];
      ResolvedTargetsMembers(before, rc, v);
      assert targets == before + [last];
    }
  }

  /** The order is kept: lists are resolved part by part. */
  lemma {:induction false} ResolvedTargetsJoin(a: seq<string>, b: seq<string>, rc: R.Context)
    ensures ResolvedTargets(a + b, rc) == ResolvedTargets(a, rc) + ResolvedTargets(b, rc)
    decreases |b|
  {
    if b == [] {
      assert a + b == a && ResolvedTargets(a, rc) + [] == ResolvedTargets(a, rc);
    } else {
      var before, last := b[..|b| - 1], b[|b| - 1];
      ResolvedTargetsJoin(a, before, rc);
      assert (a + b)[..|a + b| - 1] == a + before;
    }
  }

  lemma {:induction false} ResolvedEntriesJoin(a: seq<ServiceEntry>, b: seq<ServiceEntry>, rc: R.Context)
    ensures ResolvedEntries(a + b, rc) == ResolvedEntries(a, rc) + ResolvedEntries(b, rc)
    decreases |b|
  {
    if b == [] {
      assert a + b == a && ResolvedEntries(a, rc) + [] == ResolvedEntries(a, rc);
    } else {
      var before, last := b[..|b| - 1], b[|b| - 1];
      ResolvedEntriesJoin(a, before, rc);
      assert (a + b)[..|a + b| - 1] == a + before;
    }
  }

  /** `f` is `e` as it is served: with the targets that resolve, resolved, and nothing else changed. */
  ghost predicate ServedAs(e: ServiceEntry, f: ServiceEntry, rc: R.Context) {
    && f.name == e.name && f.kind == e.kind && f.health == e.health && f.target.labels == e.target.labels
    && f.target.targets == ResolvedTargets(e.target.targets, rc) && f.target.targets != []
  }

  lemma {:induction false} ResolvedEntriesMembers(es: seq<ServiceEntry>, rc: R.Context, f: ServiceEntry)
    ensures f in ResolvedEntries(es, rc) <==> exists e :: e in es && ServedAs(e, f, rc)
    decreases |es|
  {
    if es != [] {
      var before, last := es[..|es| - 1], es[|es| - 1];
      ResolvedEntriesMembers(before, rc, f);
      assert es == before + [last];
      assert f in Kept(ResolvedEntry(last, rc)) <==> ServedAs(last, f, rc);
    }
  }

  /** What is served: every listed entry with a target that resolves, and so every self-metrics
      target. */
  lemma ServedIff(list: seq<ServiceEntry>, net: Net, f: ServiceEntry)
    ensures f in Serve(list, net) <==>
            || (exists e :: e in list && ServedAs(e, f, net.rc))
            || exists t :: t in net.extras &&
                           ServedAs(ServiceEntry("tsd-agent-metrics", TypeStatic, t, None), f, net.rc)
  {
    var extras := ExtraEntries(net.extras);
    ResolvedEntriesJoin(list, extras, net.rc);
    ResolvedEntriesMembers(list, net.rc, f);
    ResolvedEntriesMembers(extras, net.rc, f);
    if e :| e in extras && ServedAs(e, f, net.rc) {
      var i :| 0 <= i < |extras| && extras[i] == e;
      assert net.extras[i] in net.extras;
    }
    if t :| t in net.extras && ServedAs(ServiceEntry("tsd-agent-metrics", TypeStatic, t, None), f, net.rc) {
      var i :| 0 <= i < |net.extras| && net.extras[i] == t;
      assert extras[i] in extras;
    }
  }
}
