/**
 Runs in which agreement fails, one for each condition of the results in `RefreshTheorems`:
 a torn refresh, a service added between the two reads of one refresh, an address change
 before its touch, and a result dropped at the Agent.
 */
module RefreshLimits {
  import opened Types
  import opened Ordering
  import opened AgentRegistry
  import opened ServicesApi
  import opened ServiceCache
  import opened RefreshProtocol
  import opened RefreshInvariants
  import opened RefreshTheorems

  ghost predicate Reaches(s: System, t: System) {
    exists steps :: RunSteps(s, steps) == t
  }

  lemma {:induction false} RunAppend(s: System, steps: seq<Step>, last: Step)
    ensures RunSteps(s, steps + [last]) == Next(RunSteps(s, steps), last)
    decreases |steps|
  {
    if steps == [] {
      assert ([] + [last])[1..] == [];
    } else {
      assert (steps + [last])[1..] == steps[1..] + [last];
      RunAppend(Next(s, steps[0]), steps[1..], last);
    }
  }

  lemma Go(s0: System, s: System, step: Step) returns (t: System)
    requires Reaches(s0, s)
    ensures t == Next(s, step) && Reaches(s0, t)
  {
    var steps :| RunSteps(s0, steps) == s;
    RunAppend(s0, steps, step);
    t := Next(s, step);
  }

  /** A services query answered in full, with the Agent still. */
  lemma FullServices(s0: System, s: System) returns (t: System)
    requires Reaches(s0, s) && s.central.refresh.Running? && s.central.refresh.svc.ServicesUnsent?
    requires !AgentRegistry.NotModified(
               s.agent.reg.svcModifiedAt, ValidatorSent(s.central.cache, s.central.svcValidator))
    ensures Reaches(s0, t)
    ensures var lm, body := Some(HttpDate(s.agent.reg.svcModifiedAt)), ServeNow(s.agent);
            t == s.(central := s.central.(
                      svcValidator := lm, lastBody := body, bodyNet := s.agent.net, svcCommitted := false,
                      refresh := s.central.refresh.(
                        svc := ServicesDone(ServicesFull(lm, Some(body))), seen := s.agent.net)))
  {
    t := Go(s0, s, OnServices(Send));
    t := Go(s0, t, OnServices(Stamp));
    t := Go(s0, t, OnServices(Read));
    t := Go(s0, t, OnServices(Resolve));
    t := Go(s0, t, OnServices(Receive(true)));
  }

  /** A health query answered in full, with the Agent still. */
  lemma FullHealth(s0: System, s: System) returns (t: System)
    requires Reaches(s0, s) && s.central.refresh.Running? && s.central.refresh.hlth.HealthUnsent?
    requires !AgentRegistry.NotModified(
               s.agent.reg.healthModifiedAt, ValidatorSent(s.central.cache, s.central.healthValidator))
    ensures Reaches(s0, t)
    ensures var lm, table := Some(HttpDate(s.agent.reg.healthModifiedAt)), HealthMap(s.agent.reg);
            t == s.(central := s.central.(healthValidator := lm, healthClean := false,
                      refresh := s.central.refresh.(hlth := HealthDone(HealthReplyFull(lm, Table(table))))))
  {
    t := Go(s0, s, OnHealth(Send));
    t := Go(s0, t, OnHealth(Stamp));
    t := Go(s0, t, OnHealth(Read));
    t := Go(s0, t, OnHealth(Receive(true)));
  }

  /** A health query answered 304. */
  lemma UnchangedHealth(s0: System, s: System) returns (t: System)
    requires Reaches(s0, s) && s.central.refresh.Running? && s.central.refresh.hlth.HealthUnsent?
    requires AgentRegistry.NotModified(
               s.agent.reg.healthModifiedAt, ValidatorSent(s.central.cache, s.central.healthValidator))
    ensures Reaches(s0, t)
    ensures t == s.(central := s.central.(refresh := s.central.refresh.(hlth := HealthDone(HealthUnchanged))))
  {
    t := Go(s0, s, OnHealth(Send));
    t := Go(s0, t, OnHealth(Stamp));
    t := Go(s0, t, OnHealth(Receive(true)));
  }

  lemma Commit(s0: System, s: System) returns (t: System)
    requires Reaches(s0, s) && ReadyToFinish(s.central) && OutcomeOf(s.central).health == AgentOK
    ensures Reaches(s0, t)
    ensures t == s.(central := Committed(s.central).(refresh := Idle))
  {
    t := Go(s0, s, Finish);
  }

  lemma BeginAt(s0: System, s: System, now: int) returns (t: System)
    requires Reaches(s0, s) && s.central.refresh.Idle?
    ensures Reaches(s0, t)
    ensures t == s.(central := s.central.(
                   refresh := Running(now, ServicesUnsent, HealthUnsent, false, true, s.agent.net)))
  {
    t := Go(s0, s, Begin(now));
  }

  /** A first refresh, answered in full. */
  lemma FullRefresh(s0: System, s: System, now: int) returns (t: System)
    requires Reaches(s0, s) && s.central.refresh.Idle? && s.central.cache.None?
    ensures Reaches(s0, t) && t.agent == s.agent && t.central.refresh.Idle?
    ensures t.central.cache == Some(CachedServices(Overlay(ServeNow(s.agent), HealthMap(s.agent.reg)), now))
    ensures t.central.svcValidator == Some(HttpDate(s.agent.reg.svcModifiedAt)) && t.central.svcCommitted
    ensures t.central.healthValidator == Some(HttpDate(s.agent.reg.healthModifiedAt)) && t.central.healthClean
  {
    t := BeginAt(s0, s, now);
    t := FullServices(s0, t);
    t := FullHealth(s0, t);
    t := Commit(s0, t);
  }

  /** The services query is sent, with the stored validator. */
  lemma AskServices(s0: System, s: System, now: int) returns (t: System)
    requires Reaches(s0, s) && s.central.refresh.Idle? && s.central.cache.Some?
    ensures Reaches(s0, t)
    ensures t == s.(central := s.central.(
                   refresh := Running(now, ServicesSent(s.central.svcValidator), HealthUnsent, false, true,
                                      s.agent.net)))
  {
    t := BeginAt(s0, s, now);
    t := Go(s0, t, OnServices(Send));
  }

  /** A services answer in full whose refresh fails on the health query. */
  lemma TornRefresh(s0: System, s: System, now: int) returns (t: System)
    requires Reaches(s0, s) && s.central.refresh.Idle? && s.central.cache.Some?
    requires now - s.central.cache.value.fetchedAt <= SERVICE_HISTORY_TTL
    requires !AgentRegistry.NotModified(s.agent.reg.svcModifiedAt, s.central.svcValidator)
    ensures Reaches(s0, t) && t.agent == s.agent && t.central.refresh.Idle?
    ensures t.central.cache == s.central.cache
    ensures t.central.svcValidator == Some(HttpDate(s.agent.reg.svcModifiedAt))
  {
    t := BeginAt(s0, s, now);
    t := FullServices(s0, t);
    t := Go(s0, t, OnHealth(Send));
    t := Go(s0, t, OnHealth(Fail(HealthUnreachable)));
    t := Go(s0, t, Finish);
  }

  /** Both answers are in: services in full, health 304. */
  lemma HealthUnchangedRefresh(s0: System, s: System, now: int) returns (t: System)
    requires Reaches(s0, s) && s.central.refresh.Idle? && s.central.cache.Some?
    requires !AgentRegistry.NotModified(s.agent.reg.svcModifiedAt, s.central.svcValidator)
    requires AgentRegistry.NotModified(s.agent.reg.healthModifiedAt, s.central.healthValidator)
    ensures Reaches(s0, t) && t.agent == s.agent && QuietCommit(t)
    ensures t.central.refresh.svc.reply.ServicesFull? && t.central.healthClean == s.central.healthClean
    ensures Next(t, Finish).central.cache ==
            Some(CachedServices(Inherit(CachedList(s.central.cache), ServeNow(s.agent)), now))
  {
    t := BeginAt(s0, s, now);
    t := FullServices(s0, t);
    t := UnchangedHealth(s0, t);
  }

  function EmptyCentral(net: Net): Central {
    Central(None, None, None, Idle, [], net, false, false)
  }

  function EmptySystem(net: Net): System {
    System(Agent(State(map[], 0, 0), net, false), EmptyCentral(net))
  }

  ghost predicate Reachable(s: System) {
    exists s0 :: Initial(s0) && !s0.agent.moved && Reaches(s0, s)
  }

  /** Only a registered or self-metrics service is served. */
  lemma ServedOnlyIfListed(a: Agent, n: string)
    requires ValidState(a.reg) && Names(ServeNow(a), n) && a.net.extras == []
    ensures n in a.reg.entries && Servable(a.reg.entries[n], a.net.rc)
  {
    var list := ListWithoutHealth(a.reg);
    assert list + ExtraEntries([]) == list;
    ResolvedEntriesContent(list, a.net.rc, n);
    var i :| 0 <= i < |list| && list[i].name == n && Servable(list[i], a.net.rc);
    ListingMembers(Stripped(a.reg.entries), list[i]);
  }

  lemma Start(net: Net) returns (s: System)
    ensures s == EmptySystem(net) && Initial(s) && Reaches(s, s)
  {
    s := EmptySystem(net);
    assert RunSteps(s, []) == s;
  }

  lemma OverlayNames(es: seq<ServiceEntry>, table: HealthTable, n: string)
    ensures Names(Overlay(es, table), n) <==> Names(es, n)
  {
    forall i | 0 <= i < |es|
      ensures Overlay(es, table)[i].name == es[i].name
    {
    }
  }

  lemma NotNamedAfterOverlay(a: Agent, n: string)
    requires ValidState(a.reg) && a.net.extras == []
    requires n !in a.reg.entries || !Servable(a.reg.entries[n], a.net.rc)
    ensures !Names(Overlay(ServeNow(a), HealthMap(a.reg)), n)
  {
    if Names(ServeNow(a), n) {
      ServedOnlyIfListed(a, n);
    }
    OverlayNames(ServeNow(a), HealthMap(a.reg), n);
  }

  /** A fresh registration, then its first health result. */
  lemma AddService(s0: System, s: System, e: ServiceEntry) returns (t: System)
    requires Reaches(s0, s) && ValidState(s.agent.reg) && e.health.None? && e.name !in s.agent.reg.entries
    ensures Reaches(s0, t) && ValidState(t.agent.reg)
    ensures t == AgentStep(s, Op.Add(e), 0)
    ensures t.agent.net == s.agent.net && !t.agent.moved
    ensures t.agent.reg == Apply(s.agent.reg, Op.Add(e), 0)
    ensures s.central.refresh.Idle? ==> t.central == s.central
  {
    t := Go(s0, s, AgentOp(Op.Add(e), 0));
    ApplyKeepsValid(s.agent.reg, Op.Add(e), 0);
  }

  /** The services body arrives but the health query fails, so the body is lost and its
      validator stays: the next services 304 vouches for a cache that misses a service. */
  lemma TornRefreshLosesAService(e: ServiceEntry, net: Net)
    requires e.health.None? && net.extras == [] && Servable(e, net.rc)
    ensures exists s :: Reachable(s) && !s.agent.moved && AboutToAnswer304(s) && s.central.cache.Some?
              && Names(ServeNow(s.agent), e.name) && !Names(s.central.cache.value.services, e.name)
  {
    var s0 := Start(net);
    var s := FullRefresh(s0, s0, 0);
    NotNamedAfterOverlay(s0.agent, e.name);
    s := AddService(s0, s, e);
    s := TornRefresh(s0, s, 1);
    s := AskServices(s0, s, 2);
    ServedNow(s.agent, e.name);
    assert Reachable(s) && AboutToAnswer304(s);
  }

  lemma {:induction false} HealthByNameNames(es: seq<ServiceEntry>, n: string)
    ensures n in HealthByName(es) ==> Names(es, n)
    decreases |es|
  {
    if es != [] {
      var last := |es| - 1;
      HealthByNameNames(es[..last], n);
      if Names(es[..last], n) {
        var i :| 0 <= i < last && es[..last][i].name == n;
        assert es[i].name == n;
      }
      if es[last].name == n { assert Names(es, n); }
    }
  }

  lemma NoResultToInherit(cached: seq<ServiceEntry>, es: seq<ServiceEntry>, n: string)
    requires !Names(cached, n)
    ensures forall i :: 0 <= i < |es| && es[i].name == n ==> Inherit(cached, es)[i] == es[i]
  {
    HealthByNameNames(cached, n);
  }

  /** A service is registered at an empty Agent and checked, whatever refresh is under way. */
  lemma RegisteredAndChecked(s0: System, s: System, e: ServiceEntry, h: HealthStatus) returns (t: System)
    requires Reaches(s0, s) && s.agent.reg == State(map[], 0, 0) && e.health.None?
    ensures Reaches(s0, t) && t.agent.net == s.agent.net && !t.agent.moved
    ensures t.agent.reg == State(map[e.name := e.(health := Some(h))], SECOND, SECOND)
    ensures t.central.(refresh := s.central.refresh) == s.central
    ensures s.central.refresh.Idle? ==> t.central.refresh == Idle
    ensures s.central.refresh.Running? ==>
              && t.central.refresh.Running?
              && t.central.refresh.svc == s.central.refresh.svc && t.central.refresh.hlth == s.central.refresh.hlth
  {
    t := Go(s0, s, AgentOp(Op.Add(e), 0));
    assert t.agent.reg == State(map[e.name := e], SECOND, 0);
    t := Go(s0, t, AgentOp(Op.UpdateHealth(e.name, h), 0));
    assert t.agent.reg.entries == map[e.name := e.(health := Some(h))];
  }

  /** The services answer misses a service that the health answer has. */
  lemma SkewedRefresh(s0: System, e: ServiceEntry, h: HealthStatus) returns (t: System)
    requires Reaches(s0, s0) && s0.central == EmptyCentral(s0.agent.net) && s0.agent.reg == State(map[], 0, 0)
    requires e.health.None? && s0.agent.net.extras == []
    ensures Reaches(s0, t) && ValidState(t.agent.reg) && t.central.refresh.Idle?
    ensures t.agent.net == s0.agent.net && !t.agent.moved
    ensures t.agent.reg == State(map[e.name := e.(health := Some(h))], SECOND, SECOND)
    ensures t.central.cache.Some? && !Names(t.central.cache.value.services, e.name)
    ensures t.central.svcValidator == Some(0) && t.central.healthValidator == Some(1)
  {
    var body := ServeNow(s0.agent);
    if Names(body, e.name) { ServedOnlyIfListed(s0.agent, e.name); }
    t := BeginAt(s0, s0, 0);
    t := FullServices(s0, t);
    t := RegisteredAndChecked(s0, t, e, h);
    t := FullHealth(s0, t);
    var table := HealthMap(t.agent.reg);
    t := Commit(s0, t);
    assert t.central.cache.value.services == Overlay(body, table);
    OverlayNames(body, table, e.name);
  }

  /** A service added, and checked, between the services answer and the health stamp of one
      refresh has no result in the cache after the next refresh either. */
  lemma SkewedRefreshLosesAResult(e: ServiceEntry, h: HealthStatus, net: Net)
    requires e.health.None? && net.extras == [] && Servable(e, net.rc)
    ensures exists s :: Reachable(s) && QuietCommit(s) && !s.agent.moved
              && HasHealth(s.agent, e.name) && !HealthCoherent(Next(s, Finish))
  {
    var s0 := Start(net);
    var t := SkewedRefresh(s0, e, h);
    var s := HealthUnchangedRefresh(s0, t, 1);
    var cached, body := CachedList(t.central.cache), ServeNow(t.agent);
    NoResultToInherit(cached, body, e.name);
    SameTargets(t.agent.reg.entries[e.name], e, net.rc);
    ListWithoutHealthContent(t.agent.reg, e.name);
    ServeNoHealth(ListWithoutHealth(t.agent.reg), net);
    assert !HealthIs(Inherit(cached, body), e.name, Core(h));
    assert Reachable(s) && QuietCommit(s);
  }

  /** Between an address change and its touch a services 304 vouches for the old addresses. */
  lemma AddressChangeBeforeTouch(e: ServiceEntry, net: Net, net': Net)
    requires e.health.None? && net.extras == [] && net'.extras == []
    requires !Servable(e, net.rc) && Servable(e, net'.rc)
    ensures exists s :: Reachable(s) && AboutToAnswer304(s) && s.central.cache.Some? && s.central.svcCommitted
              && Names(ServeNow(s.agent), e.name) && !Names(s.central.cache.value.services, e.name)
  {
    var s0 := Start(net);
    var s := AddService(s0, s0, e);
    s := FullRefresh(s0, s, 0);
    NotNamedAfterOverlay(s.agent, e.name);
    s := Go(s0, s, ChangeNet(net'));
    s := AskServices(s0, s, 1);
    ServedNow(s.agent, e.name);
    assert Reachable(s) && AboutToAnswer304(s);
  }

  /** A refresh after a service was registered and checked. */
  lemma CheckedService(s0: System, e: ServiceEntry, h: HealthStatus) returns (t: System)
    requires Reaches(s0, s0) && s0.central == EmptyCentral(s0.agent.net) && s0.agent.reg == State(map[], 0, 0)
    requires e.health.None? && s0.agent.net.extras == [] && Servable(e, s0.agent.net.rc)
    ensures Reaches(s0, t) && t.central.refresh.Idle? && t.agent.net == s0.agent.net
    ensures t.agent.reg == State(map[e.name := e.(health := Some(h))], SECOND, SECOND)
    ensures t.central.cache.Some? && HealthIs(t.central.cache.value.services, e.name, Core(h))
    ensures t.central.svcValidator == Some(1) && t.central.healthValidator == Some(1) && t.central.healthClean
  {
    t := RegisteredAndChecked(s0, s0, e, h);
    ServedResult(t.agent, e, h);
    t := FullRefresh(s0, t, 0);
  }

  lemma ServedResult(a: Agent, e: ServiceEntry, h: HealthStatus)
    requires ValidState(a.reg) && a.reg.entries == map[e.name := e.(health := Some(h))] && Servable(e, a.net.rc)
    ensures HealthIs(Overlay(ServeNow(a), HealthMap(a.reg)), e.name, Core(h))
  {
    SameTargets(a.reg.entries[e.name], e, a.net.rc);
    ServedNow(a, e.name);
    OverlayHealthIs(ServeNow(a), HealthMap(a.reg), e.name);
  }

  /** The service is updated, which drops its result. */
  lemma UpdateService(s0: System, s: System, e: ServiceEntry, h: HealthStatus) returns (t: System)
    requires Reaches(s0, s) && s.central.refresh.Idle? && e.health.None?
    requires s.agent.reg == State(map[e.name := e.(health := Some(h))], SECOND, SECOND)
    ensures Reaches(s0, t) && t.central == s.central && !t.agent.moved && t.agent.net == s.agent.net
    ensures t.agent.reg == State(map[e.name := e], 2 * SECOND, SECOND) && ValidState(t.agent.reg)
  {
    t := Go(s0, s, AgentOp(Op.Update(e), 0));
    ApplyKeepsValid(s.agent.reg, Op.Update(e), 0);
    assert t.agent.reg.entries == map[e.name := e];
  }

  /** A result is cached, dropped at the Agent, and inherited by the next refresh. */
  lemma InheritDropped(s0: System, e: ServiceEntry, h: HealthStatus) returns (s: System)
    requires Reaches(s0, s0) && s0.central == EmptyCentral(s0.agent.net) && s0.agent.reg == State(map[], 0, 0)
    requires e.health.None? && s0.agent.net.extras == [] && Servable(e, s0.agent.net.rc)
    ensures Reaches(s0, s) && QuietCommit(s) && !s.agent.moved && ServicesFullIn(s.central) && s.central.healthClean
    ensures s.agent.reg.entries == map[e.name := e]
    ensures HealthIs(CachedList(Next(s, Finish).central.cache), e.name, Core(h))
  {
    var t := CheckedService(s0, e, h);
    t := UpdateService(s0, t, e, h);
    s := HealthUnchangedRefresh(s0, t, 1);
    ServedInherits(t.agent, e, CachedList(t.central.cache), Core(h));
  }

  /** Health agreement is one-sided: a result dropped by an update at the Agent survives in the
      cache, because dropping it does not move the health stamp. */
  lemma DroppedResultSurvives(e: ServiceEntry, h: HealthStatus, net: Net)
    requires e.health.None? && net.extras == [] && Servable(e, net.rc)
    ensures exists s :: Reachable(s) && QuietCommit(s) && !s.agent.moved
              && ServicesFullIn(s.central) && s.central.healthClean
              && e.name in s.agent.reg.entries && !HasHealth(s.agent, e.name)
              && HealthIs(CachedList(Next(s, Finish).central.cache), e.name, Core(h))
  {
    var s0 := Start(net);
    var s := InheritDropped(s0, e, h);
    assert Reachable(s) && !HasHealth(s.agent, e.name);
  }

  lemma ServedInherits(a: Agent, e: ServiceEntry, cached: seq<ServiceEntry>, core: HealthCore)
    requires ValidState(a.reg) && e.name in a.reg.entries && a.reg.entries[e.name] == e && Servable(e, a.net.rc)
    requires HealthIs(cached, e.name, core)
    ensures HealthIs(Inherit(cached, ServeNow(a)), e.name, core)
  {
    ServedNow(a, e.name);
    ListWithoutHealthContent(a.reg, e.name);
    ServeNoHealth(ListWithoutHealth(a.reg), a.net);
    InheritHealthIs(cached, ServeNow(a), e.name, core);
  }
}
