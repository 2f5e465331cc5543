/**
 The inductive invariant of the refresh protocol, and its proof step by step.

 Services side: a stored services validator equal to the Agent's present stamp means that the
 body it came with is what the Agent would serve. Health side: a stored health validator equal
 to the present stamp, merged without skew, means that every result at the Agent is cached.
 */
module RefreshInvariants {
  import opened Types
  import opened AgentRegistry
  import opened ServicesApi
  import opened ServiceCache
  import opened RefreshProtocol
  import R = Resolve

  // Invariant, services side

  ghost predicate Dated(d: nat, stamp: nat) {
    d <= HttpDate(stamp)
  }

  /** The body came with date `d`, resolved with `net`: at the present date it is the present list
      so resolved, and these are the present addresses unless a change awaits its touch. */
  ghost predicate BodyCurrent(a: Agent, d: nat, body: seq<ServiceEntry>, net: Net) {
    && Dated(d, a.reg.svcModifiedAt)
    && NoHealth(body)
    && (d == HttpDate(a.reg.svcModifiedAt) ==>
          body == Serve(ListWithoutHealth(a.reg), net) && (!a.moved ==> net == a.net))
  }

  ghost predicate ServicesPhaseOk(a: Agent, c: Central) {
    match c.refresh
    case Idle => true
    case Running(_, svc, _, _, _, seen) =>
      match svc
      case ServicesUnsent => true
      case ServicesSent(ims) => ims.Some? ==> c.cache.Some? && c.svcValidator == ims
      case ServicesStamped(stamp) => stamp % SECOND == 0 && stamp <= a.reg.svcModifiedAt
      case ServicesListed(stamp, list) =>
        && stamp % SECOND == 0 && stamp <= a.reg.svcModifiedAt && NoHealth(list)
        && (stamp == a.reg.svcModifiedAt ==> list == ListWithoutHealth(a.reg))
      case ServicesAnswered(reply) =>
        && (reply.ServicesUnchanged? ==> c.cache.Some?)
        && (reply.ServicesFull? ==>
            && reply.lastModified.Some? && reply.body.Some?
            && BodyCurrent(a, reply.lastModified.value, reply.body.value, seen))
      case ServicesDone(reply) =>
        && (reply.ServicesUnchanged? ==> c.cache.Some?)
        && (reply.ServicesFull? && reply.body.Some? ==>
            c.svcValidator.Some? && reply.body.value == c.lastBody)
  }

  ghost predicate ServicesInv(s: System) {
    var a, c := s.agent, s.central;
    && ValidState(a.reg)
    && (c.svcValidator.Some? ==> BodyCurrent(a, c.svcValidator.value, c.lastBody, c.bodyNet))
    && (c.svcCommitted && c.cache.Some? && c.svcValidator.Some? ==>
        StripHealth(c.cache.value.services) == c.lastBody)
    && ServicesPhaseOk(a, c)
  }

  lemma BumpMovesDate(s: State, op: Op, now: nat)
    requires ValidState(s)
    ensures var t := Apply(s, op, now);
            && ValidState(t)
            && HttpDate(s.svcModifiedAt) <= HttpDate(t.svcModifiedAt)
            && HttpDate(s.healthModifiedAt) <= HttpDate(t.healthModifiedAt)
            && (BumpsServices(s, op) <==> HttpDate(s.svcModifiedAt) < HttpDate(t.svcModifiedAt))
            && (BumpsHealth(s, op) <==> HttpDate(s.healthModifiedAt) < HttpDate(t.healthModifiedAt))
            && (BumpsServices(s, op) <==> s.svcModifiedAt < t.svcModifiedAt)
            && (!BumpsServices(s, op) ==> t.svcModifiedAt == s.svcModifiedAt)
            && (!BumpsHealth(s, op) ==> t.healthModifiedAt == s.healthModifiedAt)
            && (!BumpsServices(s, op) ==> Stripped(t.entries) == Stripped(s.entries))
  {
    ApplyKeepsValid(s, op, now);
  }

  lemma AgentStepKeepsServicesInv(s: System, op: Op, clock: nat)
    requires ServicesInv(s) && CarriesNoHealth(op)
    ensures ServicesInv(AgentStep(s, op, clock))
  {
    BumpMovesDate(s.agent.reg, op, clock);
  }

  lemma NetStepKeepsServicesInv(s: System, net: Net)
    requires ServicesInv(s)
    ensures ServicesInv(NetStep(s, net))
  {
  }

  lemma AnswerKeepsServicesInv(s: System, step: QueryStep<ServicesReply>)
    requires ServicesInv(s) && s.central.refresh.Running? && (step.Read? || step.Resolve?)
    ensures ServicesInv(ServicesStep(s, step))
  {
    var a, svc := s.agent, s.central.refresh.svc;
    if step.Read? && svc.ServicesStamped? {
      ListWithoutHealthContent(a.reg, "");
    }
    if step.Resolve? && svc.ServicesListed? {
      ServeNoHealth(svc.list, a.net);
    }
  }

  lemma ExchangeKeepsServicesInv(s: System, step: QueryStep<ServicesReply>)
    requires ServicesInv(s) && s.central.refresh.Running? && (step.Send? || step.Stamp?)
    ensures ServicesInv(ServicesStep(s, step))
  {
  }

  lemma ArrivalKeepsServicesInv(s: System, step: QueryStep<ServicesReply>)
    requires ServicesInv(s) && s.central.refresh.Running? && (step.Receive? || step.Fail?)
    ensures ServicesInv(ServicesStep(s, step))
  {
  }

  lemma ServicesStepKeepsServicesInv(s: System, step: QueryStep<ServicesReply>)
    requires ServicesInv(s) && s.central.refresh.Running?
    ensures ServicesInv(ServicesStep(s, step))
  {
    if step.Read? || step.Resolve? {
      AnswerKeepsServicesInv(s, step);
    } else if step.Send? || step.Stamp? {
      ExchangeKeepsServicesInv(s, step);
    } else {
      ArrivalKeepsServicesInv(s, step);
    }
  }

  /** The health query leaves the cache and the services query alone. */
  lemma HealthStepFrame(s: System, step: QueryStep<HealthReply>)
    requires s.central.refresh.Running?
    ensures var c, t := s.central, HealthStep(s, step);
            && t.agent == s.agent && t.central.refresh.Running?
            && t.central.refresh.(hlth := c.refresh.hlth) == c.refresh
            && t.central.(refresh := c.refresh, healthValidator := c.healthValidator, healthClean := c.healthClean) == c
  {
  }

  lemma HealthStepKeepsServicesInv(s: System, step: QueryStep<HealthReply>)
    requires ServicesInv(s) && s.central.refresh.Running?
    ensures ServicesInv(HealthStep(s, step))
  {
    HealthStepFrame(s, step);
  }

  lemma StripOfNoHealth(es: seq<ServiceEntry>)
    requires NoHealth(es)
    ensures StripHealth(es) == es
  {
  }

  lemma FinishKeepsServicesInv(s: System)
    requires ServicesInv(s) && ReadyToFinish(s.central)
    ensures ServicesInv(s.(central := Finished(s.central)))
  {
    var c := s.central;
    MergedKeepsServices(c.cache, OutcomeOf(c));
    if c.svcValidator.Some? {
      StripOfNoHealth(c.lastBody);
    }
  }

  lemma NextKeepsServicesInv(s: System, step: Step)
    requires ServicesInv(s)
    ensures ServicesInv(Next(s, step))
  {
    match step
    case AgentOp(op, clock) => if CarriesNoHealth(op) { AgentStepKeepsServicesInv(s, op, clock); }
    case ChangeNet(net) => NetStepKeepsServicesInv(s, net);
    case Begin(_) =>
    case OnServices(q) => if s.central.refresh.Running? { ServicesStepKeepsServicesInv(s, q); }
    case OnHealth(q) => if s.central.refresh.Running? { HealthStepKeepsServicesInv(s, q); }
    case Finish => if ReadyToFinish(s.central) { FinishKeepsServicesInv(s); }
    case Expire(_) =>
  }

  // Invariant, health side

  ghost predicate HasHealth(a: Agent, n: string) {
    n in a.reg.entries && a.reg.entries[n].health.Some?
  }

  /** Every served service with a result at the Agent has that result in the list. */
  ghost predicate HealthAgrees(a: Agent, es: seq<ServiceEntry>) {
    forall n :: HasHealth(a, n) && Servable(a.reg.entries[n], a.net.rc) ==>
      HealthIs(es, n, Core(a.reg.entries[n].health.value))
  }

  ghost predicate TableAgrees(a: Agent, table: HealthTable) {
    forall n :: HasHealth(a, n) ==>
      n in table && table[n].Some? && Core(table[n].value) == Core(a.reg.entries[n].health.value)
  }

  /** The services answer of the running refresh accounts for service `n`. */
  ghost predicate Accounted(a: Agent, c: Central, svc: ServicesPhase, n: string)
    requires n in a.reg.entries
  {
    match svc
    case ServicesListed(_, list) => WithoutHealth(a.reg.entries[n]) in list
    case ServicesAnswered(reply) =>
      Servable(a.reg.entries[n], a.net.rc) ==> NamedBy(reply, c.cache, n)
    case ServicesDone(reply) =>
      Servable(a.reg.entries[n], a.net.rc) ==> NamedBy(reply, c.cache, n)
    case _ => true
  }

  predicate NamedBy(reply: ServicesReply, cache: Option<CachedServices>, n: string) {
    match reply
    case ServicesUnchanged => Names(CachedList(cache), n)
    case ServicesFull(_, body) => body.Some? ==> Names(body.value, n)
    case _ => true
  }

  function HealthDate(p: HealthPhase): Option<nat> {
    match p
    case HealthStamped(stamp) => Some(HttpDate(stamp))
    case HealthAnswered(reply) => if reply.HealthReplyFull? then reply.lastModified else None
    case HealthDone(reply) => if reply.HealthReplyFull? then reply.lastModified else None
    case _ => None
  }

  ghost predicate TableOk(a: Agent, reply: HealthReply, cache: Option<CachedServices>) {
    && (reply.HealthUnchanged? ==> cache.Some?)
    && (reply.HealthReplyFull? ==> reply.lastModified.Some?)
    && (reply.HealthReplyFull? && reply.table.Table? && reply.lastModified.value == HttpDate(a.reg.healthModifiedAt)
        ==> TableAgrees(a, reply.table.table))
    && !reply.HealthNotFound?
    && !(reply.HealthReplyFull? && reply.table.NullTable?)
  }

  ghost predicate HealthPhaseOk(a: Agent, c: Central, p: HealthPhase) {
    && (HealthDate(p).Some? ==> HealthDate(p).value <= HttpDate(a.reg.healthModifiedAt))
    && match p
       case HealthUnsent => true
       case HealthSent(ims) => ims.Some? ==> c.cache.Some? && c.healthValidator == ims
       case HealthStamped(stamp) => stamp % SECOND == 0
       case HealthAnswered(reply) =>
         TableOk(a, reply, c.cache) && (reply.HealthReplyFull? ==> reply.table.Table?)
       case HealthDone(reply) =>
         TableOk(a, reply, c.cache) && (reply.HealthReplyFull? ==> c.healthValidator == reply.lastModified)
  }

  ghost predicate AccountsForHealth(a: Agent, c: Central, svc: ServicesPhase) {
    forall n :: HasHealth(a, n) ==> Accounted(a, c, svc, n)
  }

  ghost predicate AccountsForAll(a: Agent, c: Central, svc: ServicesPhase) {
    forall n :: n in a.reg.entries ==> Accounted(a, c, svc, n)
  }

  ghost predicate SnapshotOk(a: Agent, c: Central)
    requires c.refresh.Running?
  {
    var Running(_, svc, hlth, skew, _, _) := c.refresh;
    SnapshotTaken(svc) ==>
      && (c.healthClean && c.healthValidator == Some(HttpDate(a.reg.healthModifiedAt)) ==>
          AccountsForHealth(a, c, svc))
      && (!skew && HealthDate(hlth) == Some(HttpDate(a.reg.healthModifiedAt)) ==> AccountsForHealth(a, c, svc))
      && (!skew && BeforeHealthStamp(hlth) ==>
          AccountsForAll(a, c, svc))
  }

  ghost predicate CachedHealthOk(a: Agent, c: Central) {
    c.healthValidator.Some? ==>
      && c.healthValidator.value <= HttpDate(a.reg.healthModifiedAt)
      && (c.healthClean && c.cache.Some? && c.healthValidator.value == HttpDate(a.reg.healthModifiedAt) ==>
          HealthAgrees(a, c.cache.value.services))
  }

  ghost predicate HealthInv(s: System) {
    var a, c := s.agent, s.central;
    && CachedHealthOk(a, c)
    && (c.refresh.Running? ==> HealthPhaseOk(a, c, c.refresh.hlth) && SnapshotOk(a, c))
  }

  ghost predicate Inv(s: System) {
    ServicesInv(s) && HealthInv(s)
  }

  /** Unless the health stamp moves, an operation changes no result and none appears. */
  lemma QuietOpKeepsHealth(a: Agent, op: Op, clock: nat)
    requires ValidState(a.reg) && CarriesNoHealth(op) && !BumpsHealth(a.reg, op)
    ensures var b := Agent(Apply(a.reg, op, clock), a.net, a.moved);
            forall n :: HasHealth(b, n) ==>
              && HasHealth(a, n)
              && Core(b.reg.entries[n].health.value) == Core(a.reg.entries[n].health.value)
              && WithoutHealth(b.reg.entries[n]) == WithoutHealth(a.reg.entries[n])
  {
  }

  /** Unless the service stamp moves, the services are the same. */
  lemma QuietOpKeepsServices(a: Agent, op: Op, clock: nat)
    requires ValidState(a.reg) && !BumpsServices(a.reg, op)
    ensures var t := Apply(a.reg, op, clock);
            && t.entries.Keys == a.reg.entries.Keys
            && forall n :: n in t.entries ==> WithoutHealth(t.entries[n]) == WithoutHealth(a.reg.entries[n])
  {
  }

  lemma SameTargets(e: ServiceEntry, f: ServiceEntry, rc: R.Context)
    requires WithoutHealth(e) == WithoutHealth(f)
    ensures Servable(e, rc) <==> Servable(f, rc)
  {
    assert e.target == WithoutHealth(e).target == WithoutHealth(f).target == f.target;
  }

  lemma AccountedSame(a: Agent, b: Agent, c: Central, svc: ServicesPhase, n: string)
    requires n in a.reg.entries && n in b.reg.entries && a.net == b.net
    requires WithoutHealth(a.reg.entries[n]) == WithoutHealth(b.reg.entries[n])
    requires Accounted(a, c, svc, n)
    ensures Accounted(b, c, svc, n)
  {
    SameTargets(a.reg.entries[n], b.reg.entries[n], a.net.rc);
  }

  lemma AgentStepKeepsCachedHealth(s: System, op: Op, clock: nat)
    requires Inv(s) && CarriesNoHealth(op)
    ensures CachedHealthOk(AgentStep(s, op, clock).agent, s.central)
  {
    var a, b, c := s.agent, AgentStep(s, op, clock).agent, s.central;
    BumpMovesDate(a.reg, op, clock);
    if !BumpsHealth(a.reg, op) && c.cache.Some? && HealthAgrees(a, c.cache.value.services) {
      QuietOpKeepsHealth(a, op, clock);
      forall n | HasHealth(b, n) && Servable(b.reg.entries[n], b.net.rc)
        ensures HealthIs(c.cache.value.services, n, Core(b.reg.entries[n].health.value))
      {
        SameTargets(a.reg.entries[n], b.reg.entries[n], a.net.rc);
      }
    }
  }

  lemma AgentStepKeepsHealthPhase(s: System, op: Op, clock: nat)
    requires Inv(s) && CarriesNoHealth(op) && s.central.refresh.Running?
    ensures HealthPhaseOk(AgentStep(s, op, clock).agent, s.central, s.central.refresh.hlth)
  {
    BumpMovesDate(s.agent.reg, op, clock);
    if !BumpsHealth(s.agent.reg, op) {
      QuietOpKeepsHealth(s.agent, op, clock);
    }
  }

  lemma AgentStepKeepsSnapshot(s: System, op: Op, clock: nat)
    requires Inv(s) && CarriesNoHealth(op) && s.central.refresh.Running?
    ensures SnapshotOk(AgentStep(s, op, clock).agent, AgentStep(s, op, clock).central)
  {
    var a, b, c := s.agent, AgentStep(s, op, clock).agent, s.central;
    var svc := c.refresh.svc;
    BumpMovesDate(a.reg, op, clock);
    if !BumpsHealth(a.reg, op) && AccountsForHealth(a, c, svc) {
      QuietOpKeepsHealth(a, op, clock);
      forall n | HasHealth(b, n)
        ensures Accounted(b, c, svc, n)
      {
        AccountedSame(a, b, c, svc, n);
      }
    }
    if !BumpsServices(a.reg, op) && AccountsForAll(a, c, svc) {
      QuietOpKeepsServices(a, op, clock);
      forall n | n in b.reg.entries
        ensures Accounted(b, c, svc, n)
      {
        AccountedSame(a, b, c, svc, n);
      }
    }
  }

  lemma AgentStepKeepsHealthInv(s: System, op: Op, clock: nat)
    requires Inv(s) && CarriesNoHealth(op)
    ensures HealthInv(AgentStep(s, op, clock))
  {
    AgentStepKeepsCachedHealth(s, op, clock);
    if s.central.refresh.Running? {
      AgentStepKeepsHealthPhase(s, op, clock);
      AgentStepKeepsSnapshot(s, op, clock);
    }
  }

  lemma NetStepKeepsHealthInv(s: System, net: Net)
    requires Inv(s)
    ensures HealthInv(NetStep(s, net))
  {
    var a, c := s.agent, s.central;
    var b := NetStep(s, net).agent;
    if !ServesMore(a, net) {
      forall n | n in a.reg.entries && Servable(a.reg.entries[n], net.rc)
        ensures Servable(a.reg.entries[n], a.net.rc)
      {
      }
      if c.refresh.Running? {
        var svc := c.refresh.svc;
        assert forall n :: n in a.reg.entries && Accounted(a, c, svc, n) ==> Accounted(b, c, svc, n);
        assert AccountsForHealth(a, c, svc) ==> AccountsForHealth(b, c, svc);
        assert AccountsForAll(a, c, svc) ==> AccountsForAll(b, c, svc);
      }
    }
  }

  /** A current, committed cache names every service the Agent would serve. */
  lemma CurrentCacheNames(s: System, n: string)
    requires ServicesInv(s) && n in s.agent.reg.entries
    requires Servable(s.agent.reg.entries[n], s.agent.net.rc)
    requires s.central.cache.Some? && s.central.svcCommitted && !s.agent.moved
    requires s.central.svcValidator == Some(HttpDate(s.agent.reg.svcModifiedAt))
    ensures Names(s.central.cache.value.services, n)
  {
    var a, c := s.agent, s.central;
    ServedNow(a, n);
    StripOfNoHealth(c.lastBody);
    NamesOfStripped(c.cache.value.services, c.lastBody, n);
  }

  lemma ServedNow(a: Agent, n: string)
    requires ValidState(a.reg) && n in a.reg.entries && Servable(a.reg.entries[n], a.net.rc)
    ensures Names(ServeNow(a), n)
  {
    var e := WithoutHealth(a.reg.entries[n]);
    ListWithoutHealthContent(a.reg, n);
    SameTargets(a.reg.entries[n], e, a.net.rc);
    ServeNames(ListWithoutHealth(a.reg), a.net, e);
  }

  lemma StampServicesKeepsSnapshot(s: System)
    requires Inv(s) && s.central.refresh.Running? && s.central.refresh.svc.ServicesSent?
    ensures SnapshotOk(s.agent, ServicesStep(s, Stamp).central)
  {
    var a, c := s.agent, s.central;
    var svc := ServicesStep(s, Stamp).central.refresh.svc;
    if svc.ServicesAnswered? {
      assert c.cache.Some? && c.svcValidator == Some(HttpDate(a.reg.svcModifiedAt));
      if HealthAgrees(a, c.cache.value.services) {
        assert AccountsForHealth(a, c, svc);
      }
      if !a.moved && c.svcCommitted {
        forall n | n in a.reg.entries && Servable(a.reg.entries[n], a.net.rc)
          ensures Names(CachedList(c.cache), n)
        {
          CurrentCacheNames(s, n);
        }
        assert AccountsForAll(a, c, svc);
        assert AccountsForHealth(a, c, svc);
      }
    }
  }

  lemma ReadServicesKeepsSnapshot(s: System)
    requires Inv(s) && s.central.refresh.Running? && s.central.refresh.svc.ServicesStamped?
    ensures SnapshotOk(s.agent, ServicesStep(s, Read).central)
  {
    var a, t := s.agent, ServicesStep(s, Read).central;
    forall n | n in a.reg.entries
      ensures Accounted(a, t, t.refresh.svc, n)
    {
      ListWithoutHealthContent(a.reg, n);
    }
    assert AccountsForAll(a, t, t.refresh.svc);
  }

  lemma ResolveServicesKeepsSnapshot(s: System)
    requires Inv(s) && s.central.refresh.Running? && s.central.refresh.svc.ServicesListed?
    ensures SnapshotOk(s.agent, ServicesStep(s, Resolve).central)
  {
    var a, c, t := s.agent, s.central, ServicesStep(s, Resolve).central;
    forall n | n in a.reg.entries && Accounted(a, c, c.refresh.svc, n)
      ensures Accounted(a, t, t.refresh.svc, n)
    {
      if Servable(a.reg.entries[n], a.net.rc) {
        SameTargets(a.reg.entries[n], WithoutHealth(a.reg.entries[n]), a.net.rc);
        ServeNames(c.refresh.svc.list, a.net, WithoutHealth(a.reg.entries[n]));
      }
    }
    assert AccountsForAll(a, c, c.refresh.svc) ==> AccountsForAll(a, t, t.refresh.svc);
    assert AccountsForHealth(a, c, c.refresh.svc) ==> AccountsForHealth(a, t, t.refresh.svc);
  }

  lemma ReceiveServicesKeepsSnapshot(s: System, step: QueryStep<ServicesReply>)
    requires Inv(s) && s.central.refresh.Running? && (step.Receive? || step.Fail?)
    ensures SnapshotOk(s.agent, ServicesStep(s, step).central)
  {
    var a, c, t := s.agent, s.central, ServicesStep(s, step).central;
    forall n | n in a.reg.entries && (SnapshotTaken(c.refresh.svc) ==> Accounted(a, c, c.refresh.svc, n))
      ensures Accounted(a, t, t.refresh.svc, n)
    {
    }
    assert AccountsForAll(a, c, c.refresh.svc) ==> AccountsForAll(a, t, t.refresh.svc);
    assert AccountsForHealth(a, c, c.refresh.svc) ==> AccountsForHealth(a, t, t.refresh.svc);
  }

  /** The services query leaves the cache and the health query alone. */
  lemma ServicesStepFrame(s: System, step: QueryStep<ServicesReply>)
    requires s.central.refresh.Running?
    ensures var c, t := s.central, ServicesStep(s, step);
            && t.agent == s.agent && t.central.refresh.Running? && t.central.refresh.hlth == c.refresh.hlth
            && t.central.cache == c.cache && t.central.healthValidator == c.healthValidator
            && t.central.healthClean == c.healthClean
  {
  }

  lemma ServicesStepKeepsPhase(s: System, step: QueryStep<ServicesReply>)
    requires Inv(s) && s.central.refresh.Running?
    ensures var t := ServicesStep(s, step);
            && t.agent == s.agent && t.central.refresh.Running?
            && CachedHealthOk(t.agent, t.central) && HealthPhaseOk(t.agent, t.central, t.central.refresh.hlth)
  {
    ServicesStepFrame(s, step);
  }

  lemma SendServicesKeepsSnapshot(s: System)
    requires Inv(s) && s.central.refresh.Running?
    ensures SnapshotOk(s.agent, ServicesStep(s, Send).central)
  {
  }

  lemma ServicesStepKeepsSnapshot(s: System, step: QueryStep<ServicesReply>)
    requires Inv(s) && s.central.refresh.Running?
    ensures SnapshotOk(s.agent, ServicesStep(s, step).central)
  {
    var svc := s.central.refresh.svc;
    match step
    case Send => SendServicesKeepsSnapshot(s);
    case Stamp => if svc.ServicesSent? { StampServicesKeepsSnapshot(s); }
    case Read => if svc.ServicesStamped? { ReadServicesKeepsSnapshot(s); }
    case Resolve => if svc.ServicesListed? { ResolveServicesKeepsSnapshot(s); }
    case Receive(_) => ReceiveServicesKeepsSnapshot(s, step);
    case Fail(_) => ReceiveServicesKeepsSnapshot(s, step);
  }

  lemma ServicesStepKeepsHealthInv(s: System, step: QueryStep<ServicesReply>)
    requires Inv(s) && s.central.refresh.Running?
    ensures HealthInv(ServicesStep(s, step))
  {
    ServicesStepKeepsPhase(s, step);
    ServicesStepKeepsSnapshot(s, step);
  }

  lemma HealthAnswerKeepsPhase(s: System, step: QueryStep<HealthReply>)
    requires Inv(s) && s.central.refresh.Running? && !step.Receive? && !step.Fail?
    ensures var t := HealthStep(s, step);
            CachedHealthOk(t.agent, t.central) && HealthPhaseOk(t.agent, t.central, t.central.refresh.hlth)
  {
  }

  lemma HealthArrivalKeepsPhase(s: System, step: QueryStep<HealthReply>)
    requires Inv(s) && s.central.refresh.Running? && (step.Receive? || step.Fail?)
    ensures var t := HealthStep(s, step);
            CachedHealthOk(t.agent, t.central) && HealthPhaseOk(t.agent, t.central, t.central.refresh.hlth)
  {
  }

  lemma HealthStepKeepsPhase(s: System, step: QueryStep<HealthReply>)
    requires Inv(s) && s.central.refresh.Running?
    ensures var t := HealthStep(s, step);
            CachedHealthOk(t.agent, t.central) && HealthPhaseOk(t.agent, t.central, t.central.refresh.hlth)
  {
    if step.Receive? || step.Fail? {
      HealthArrivalKeepsPhase(s, step);
    } else {
      HealthAnswerKeepsPhase(s, step);
    }
  }

  lemma SnapshotSame(a: Agent, c: Central, t: Central)
    requires c.refresh.Running? && t.refresh.Running? && t.refresh.svc == c.refresh.svc && t.cache == c.cache
    ensures AccountsForHealth(a, c, c.refresh.svc) <==> AccountsForHealth(a, t, t.refresh.svc)
    ensures AccountsForAll(a, c, c.refresh.svc) <==> AccountsForAll(a, t, t.refresh.svc)
    ensures AccountsForAll(a, c, c.refresh.svc) ==> AccountsForHealth(a, c, c.refresh.svc)
  {
    assert forall n :: n in a.reg.entries ==>
        (Accounted(a, c, c.refresh.svc, n) <==> Accounted(a, t, t.refresh.svc, n));
  }

  lemma HealthAnswerKeepsSnapshot(s: System, step: QueryStep<HealthReply>)
    requires Inv(s) && s.central.refresh.Running? && !step.Receive? && !step.Fail?
    ensures SnapshotOk(s.agent, HealthStep(s, step).central)
  {
    HealthStepFrame(s, step);
    SnapshotSame(s.agent, s.central, HealthStep(s, step).central);
  }

  lemma HealthArrivalKeepsSnapshot(s: System, step: QueryStep<HealthReply>)
    requires Inv(s) && s.central.refresh.Running? && (step.Receive? || step.Fail?)
    ensures SnapshotOk(s.agent, HealthStep(s, step).central)
  {
    HealthStepFrame(s, step);
    SnapshotSame(s.agent, s.central, HealthStep(s, step).central);
  }

  lemma HealthStepKeepsSnapshot(s: System, step: QueryStep<HealthReply>)
    requires Inv(s) && s.central.refresh.Running?
    ensures SnapshotOk(s.agent, HealthStep(s, step).central)
  {
    if step.Receive? || step.Fail? {
      HealthArrivalKeepsSnapshot(s, step);
    } else {
      HealthAnswerKeepsSnapshot(s, step);
    }
  }

  lemma FinishKeepsHealthInv(s: System)
    requires Inv(s) && ReadyToFinish(s.central)
    ensures HealthInv(s.(central := Finished(s.central)))
  {
    var a, c := s.agent, s.central;
    if OutcomeOf(c).health == AgentOK {
      var d := Committed(c);
      if d.healthClean && d.healthValidator == Some(HttpDate(a.reg.healthModifiedAt)) {
        forall n | HasHealth(a, n) && Servable(a.reg.entries[n], a.net.rc)
          ensures HealthIs(d.cache.value.services, n, Core(a.reg.entries[n].health.value))
        {
          MergeCoversHealth(s, n);
        }
      }
    }
  }

  /** The four 200/304 combinations all give a served service its current result. */
  lemma MergeCoversHealth(s: System, n: string)
    requires Inv(s) && ReadyToFinish(s.central) && OutcomeOf(s.central).health == AgentOK
    requires Committed(s.central).healthClean
    requires s.central.healthValidator == Some(HttpDate(s.agent.reg.healthModifiedAt))
    requires HasHealth(s.agent, n) && Servable(s.agent.reg.entries[n], s.agent.net.rc)
    ensures HealthIs(Merged(s.central.cache, OutcomeOf(s.central)), n, Core(s.agent.reg.entries[n].health.value))
  {
    var a, c := s.agent, s.central;
    var svc, hlth := c.refresh.svc.reply, c.refresh.hlth.reply;
    var core := Core(a.reg.entries[n].health.value);
    assert AccountsForHealth(a, c, c.refresh.svc);
    assert Accounted(a, c, c.refresh.svc, n);
    var base := if svc.ServicesUnchanged? then CachedList(c.cache) else svc.body.value;
    assert Names(base, n);
    if hlth.HealthReplyFull? {
      OverlayHealthIs(base, hlth.table.table, n);
    } else {
      assert HealthAgrees(a, c.cache.value.services);
      if !svc.ServicesUnchanged? {
        InheritHealthIs(c.cache.value.services, base, n, core);
      }
    }
  }

  lemma NextKeepsInv(s: System, step: Step)
    requires Inv(s)
    ensures Inv(Next(s, step))
  {
    NextKeepsServicesInv(s, step);
    match step
    case AgentOp(op, clock) => if CarriesNoHealth(op) { AgentStepKeepsHealthInv(s, op, clock); }
    case ChangeNet(net) => NetStepKeepsHealthInv(s, net);
    case Begin(_) =>
    case OnServices(q) => if s.central.refresh.Running? { ServicesStepKeepsHealthInv(s, q); }
    case OnHealth(q) =>
      if s.central.refresh.Running? {
        HealthStepKeepsPhase(s, q);
        HealthStepKeepsSnapshot(s, q);
      }
    case Finish => if ReadyToFinish(s.central) { FinishKeepsHealthInv(s); }
    case Expire(_) =>
  }

  lemma {:induction false} RunKeepsInv(s: System, steps: seq<Step>)
    requires Inv(s)
    ensures Inv(RunSteps(s, steps))
    decreases |steps|
  {
    if steps != [] {
      NextKeepsInv(s, steps[0]);
      RunKeepsInv(Next(s, steps[0]), steps[1..]);
    }
  }
}
