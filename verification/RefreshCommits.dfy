/**
 What a commit stores when the Agent changes during the refresh: in a calm run, the list that the
 Agent would serve at one instant of the refresh, with the results it had at another.
 */
module RefreshCommits {
  import opened Types
  import opened AgentRegistry
  import opened ServicesApi
  import opened ServiceCache
  import opened RefreshProtocol
  import opened RefreshInvariants
  import opened RefreshTheorems
  import opened RefreshRefinement

  /** The states the Agent goes through. */
  ghost function Visited(s: System, steps: seq<Step>): set<Agent>
    decreases |steps|
  {
    {s.agent} + if steps == [] then {} else Visited(Next(s, steps[0]), steps[1..])
  }

  ghost predicate ListedBy(seen: set<Agent>, list: seq<ServiceEntry>) {
    exists b :: b in seen && list == ListWithoutHealth(b.reg)
  }

  ghost predicate ServedBy(seen: set<Agent>, es: seq<ServiceEntry>) {
    exists b :: b in seen && StripHealth(es) == ServeNow(b)
  }

  ghost predicate TabledBy(seen: set<Agent>, table: HealthTable) {
    exists d :: d in seen && table == HealthMap(d.reg)
  }

  ghost predicate HealthOf(seen: set<Agent>, es: seq<ServiceEntry>) {
    exists d :: d in seen && HealthAgrees(d, es)
  }

  /** Every result of a served service that the list names is in the list. */
  ghost predicate ResultsOf(a: Agent, es: seq<ServiceEntry>) {
    forall n :: ServedResult(a, n) && Names(es, n) ==> HealthIs(es, n, ResultAt(a, n))
  }

  ghost predicate SeenServices(seen: set<Agent>, c: Central, svc: ServicesPhase) {
    match svc
    case ServicesListed(_, list) => ListedBy(seen, list)
    case ServicesAnswered(reply) => SeenServicesReply(seen, c, reply)
    case ServicesDone(reply) => SeenServicesReply(seen, c, reply)
    case _ => true
  }

  ghost predicate SeenServicesReply(seen: set<Agent>, c: Central, reply: ServicesReply) {
    && (reply.ServicesFull? && reply.body.Some? ==> NoHealth(reply.body.value) && ServedBy(seen, reply.body.value))
    && (reply.ServicesUnchanged? ==> c.cache.Some? && ServedBy(seen, c.cache.value.services))
  }

  ghost predicate SeenHealth(seen: set<Agent>, c: Central, hlth: HealthPhase) {
    match hlth
    case HealthAnswered(reply) => SeenHealthReply(seen, c, reply)
    case HealthDone(reply) => SeenHealthReply(seen, c, reply)
    case _ => true
  }

  ghost predicate SeenHealthReply(seen: set<Agent>, c: Central, reply: HealthReply) {
    && (reply.HealthReplyFull? && reply.table.Table? ==> TabledBy(seen, reply.table.table))
    && (reply.HealthUnchanged? ==> c.cache.Some? && HealthOf(seen, c.cache.value.services))
  }

  /** The answers of the running refresh are those of states in `seen`, at the present addresses. */
  ghost predicate SeenOk(s: System, seen: set<Agent>) {
    && s.agent in seen
    && (forall b :: b in seen ==> b.net == s.agent.net)
    && s.central.refresh.Running?
    && SeenServices(seen, s.central, s.central.refresh.svc)
    && SeenHealth(seen, s.central, s.central.refresh.hlth)
  }

  lemma SeenGrows(s: System, seen: set<Agent>, b: Agent)
    requires SeenOk(s, seen)
    ensures SeenServices(seen + {b}, s.central, s.central.refresh.svc)
    ensures SeenHealth(seen + {b}, s.central, s.central.refresh.hlth)
  {
    var c, more := s.central, seen + {b};
    forall list | ListedBy(seen, list)
      ensures ListedBy(more, list)
    {
      var x :| x in seen && list == ListWithoutHealth(x.reg);
      assert x in more;
    }
    forall es | ServedBy(seen, es)
      ensures ServedBy(more, es)
    {
      var x :| x in seen && StripHealth(es) == ServeNow(x);
      assert x in more;
    }
    forall table | TabledBy(seen, table)
      ensures TabledBy(more, table)
    {
      var x :| x in seen && table == HealthMap(x.reg);
      assert x in more;
    }
    forall es | HealthOf(seen, es)
      ensures HealthOf(more, es)
    {
      var x :| x in seen && HealthAgrees(x, es);
      assert x in more;
    }
  }

  lemma ServicesReadSeen(s: System, seen: set<Agent>, step: QueryStep<ServicesReply>)
    requires Inv(s) && CalmInv(s) && SeenOk(s, seen) && (step.Read? || step.Resolve?)
    ensures SeenOk(ServicesStep(s, step), seen)
  {
    var a, svc := s.agent, s.central.refresh.svc;
    if step.Resolve? && svc.ServicesListed? {
      var b :| b in seen && svc.list == ListWithoutHealth(b.reg);
      ServeNoHealth(svc.list, a.net);
      StripOfNoHealth(Serve(svc.list, a.net));
      assert ServeNow(b) == Serve(svc.list, a.net);
      assert ServedBy(seen, Serve(svc.list, a.net));
    }
  }

  lemma ServicesStampSeen(s: System, seen: set<Agent>)
    requires Inv(s) && CalmInv(s) && SeenOk(s, seen)
    ensures SeenOk(ServicesStep(s, Stamp), seen)
  {
    if AboutToAnswer304(s) {
      assert StripHealth(s.central.cache.value.services) == ServeNow(s.agent);
      assert ServedBy(seen, s.central.cache.value.services);
    }
  }

  lemma ServicesStepSeen(s: System, seen: set<Agent>, step: QueryStep<ServicesReply>)
    requires Inv(s) && CalmInv(s) && SeenOk(s, seen)
    ensures SeenOk(ServicesStep(s, step), seen)
  {
    match step
    case Send =>
    case Stamp => ServicesStampSeen(s, seen);
    case Read => ServicesReadSeen(s, seen, step);
    case Resolve => ServicesReadSeen(s, seen, step);
    case Receive(_) =>
    case Fail(_) =>
  }

  lemma HealthStepSeen(s: System, seen: set<Agent>, step: QueryStep<HealthReply>)
    requires Inv(s) && CalmInv(s) && SeenOk(s, seen)
    ensures SeenOk(HealthStep(s, step), seen)
  {
    var a, c, hlth := s.agent, s.central, s.central.refresh.hlth;
    if step.Stamp? && hlth.HealthSent? && AgentRegistry.NotModified(a.reg.healthModifiedAt, hlth.ims) {
      assert HealthAgrees(a, c.cache.value.services);
      assert HealthOf(seen, c.cache.value.services);
    }
    if step.Read? && hlth.HealthStamped? {
      assert TabledBy(seen, HealthMap(a.reg));
    }
  }

  lemma AgentStepSeen(s: System, seen: set<Agent>, op: Op, clock: nat)
    requires SeenOk(s, seen) && CarriesNoHealth(op)
    ensures SeenOk(AgentStep(s, op, clock), seen + {AgentStep(s, op, clock).agent})
  {
    SeenGrows(s, seen, AgentStep(s, op, clock).agent);
  }

  lemma StepSeen(s: System, seen: set<Agent>, step: Step)
    requires Inv(s) && CalmInv(s) && SeenOk(s, seen)
    requires CalmStep(s, step) && !(step.Finish? && ReadyToFinish(s.central))
    ensures SeenOk(Next(s, step), seen + {Next(s, step).agent})
  {
    assert seen + {s.agent} == seen;
    match step
    case AgentOp(op, clock) => if CarriesNoHealth(op) { AgentStepSeen(s, seen, op, clock); }
    case ChangeNet(_) =>
    case Begin(_) =>
    case OnServices(q) => ServicesStepSeen(s, seen, q);
    case OnHealth(q) => HealthStepSeen(s, seen, q);
    case Finish =>
    case Expire(_) =>
  }

  lemma {:induction false} StepsSeen(s: System, seen: set<Agent>, steps: seq<Step>)
    requires Inv(s) && CalmInv(s) && SeenOk(s, seen) && CalmRun(s, steps) && Unfinished(s, steps)
    ensures SeenOk(RunSteps(s, steps), seen + Visited(s, steps))
    decreases |steps|
  {
    if steps == [] {
      assert seen + Visited(s, steps) == seen;
    } else {
      var t := Next(s, steps[0]);
      StepSeen(s, seen, steps[0]);
      NextKeepsInv(s, steps[0]);
      CalmStepKeepsCalmInv(s, steps[0]);
      StepsSeen(t, seen + {t.agent}, steps[1..]);
      assert seen + {t.agent} + Visited(t, steps[1..]) == seen + Visited(s, steps);
    }
  }

  lemma CalmRefreshSeen(begun: System, during: seq<Step>)
    requires Inv(begun) && CalmInv(begun) && CalmRun(begun, during) && Unfinished(begun, during)
    requires var r := begun.central.refresh; r.Running? && r.svc.ServicesUnsent? && r.hlth.HealthUnsent?
    ensures SeenOk(RunSteps(begun, during), Visited(begun, during)) && HealthInv(RunSteps(begun, during))
  {
    RunKeepsInv(begun, during);
    StepsSeen(begun, {begun.agent}, during);
    assert {begun.agent} + Visited(begun, during) == Visited(begun, during);
  }

  lemma CommitServedBy(s: System, seen: set<Agent>)
    requires SeenOk(s, seen) && ReadyToFinish(s.central) && OutcomeOf(s.central).health == AgentOK
    ensures ServedBy(seen, Merged(s.central.cache, OutcomeOf(s.central)))
  {
    MergedKeepsServices(s.central.cache, OutcomeOf(s.central));
  }

  lemma SameNames(es: seq<ServiceEntry>, fs: seq<ServiceEntry>, n: string)
    requires |es| == |fs| && forall i :: 0 <= i < |es| ==> es[i].name == fs[i].name
    ensures Names(es, n) <==> Names(fs, n)
  {
  }

  lemma OverlaidResults(d: Agent, base: seq<ServiceEntry>)
    ensures ResultsOf(d, Overlay(base, HealthMap(d.reg)))
  {
    forall n | ServedResult(d, n) && Names(Overlay(base, HealthMap(d.reg)), n)
      ensures HealthIs(Overlay(base, HealthMap(d.reg)), n, ResultAt(d, n))
    {
      SameNames(Overlay(base, HealthMap(d.reg)), base, n);
      OverlayHealthIs(base, HealthMap(d.reg), n);
    }
  }

  lemma InheritedResults(d: Agent, cached: seq<ServiceEntry>, base: seq<ServiceEntry>)
    requires HealthAgrees(d, cached) && NoHealth(base)
    ensures ResultsOf(d, cached) && ResultsOf(d, Inherit(cached, base))
  {
    forall n | ServedResult(d, n) && Names(Inherit(cached, base), n)
      ensures HealthIs(Inherit(cached, base), n, ResultAt(d, n))
    {
      SameNames(Inherit(cached, base), base, n);
      InheritHealthIs(cached, base, n, ResultAt(d, n));
    }
  }

  /** The table, or the cache that a health 304 vouches for, brings every result of its instant. */
  lemma CommitResults(s: System, seen: set<Agent>)
    requires HealthInv(s) && SeenOk(s, seen) && ReadyToFinish(s.central) && OutcomeOf(s.central).health == AgentOK
    ensures exists d :: d in seen && ResultsOf(d, Merged(s.central.cache, OutcomeOf(s.central)))
  {
    var c := s.central;
    var svc, hlth := c.refresh.svc.reply, c.refresh.hlth.reply;
    if hlth.HealthReplyFull? {
      var d :| d in seen && hlth.table.table == HealthMap(d.reg);
      OverlaidResults(d, if svc.ServicesUnchanged? then CachedList(c.cache) else svc.body.value);
    } else {
      var d :| d in seen && HealthAgrees(d, c.cache.value.services);
      InheritedResults(d, c.cache.value.services, if svc.ServicesUnchanged? then [] else svc.body.value);
    }
  }

  lemma CommitStores(s: System)
    requires ReadyToFinish(s.central) && OutcomeOf(s.central).health == AgentOK
    ensures CachedList(Next(s, Finish).central.cache) == Merged(s.central.cache, OutcomeOf(s.central))
  {
  }

  /** What a commit in such a state stores. */
  lemma CommitOfSeen(s: System, seen: set<Agent>)
    requires HealthInv(s) && SeenOk(s, seen) && ReadyToFinish(s.central) && OutcomeOf(s.central).health == AgentOK
    ensures var es := CachedList(Next(s, Finish).central.cache);
            && (exists b :: b in seen && StripHealth(es) == ServeNow(b))
            && (exists d :: d in seen && ResultsOf(d, es))
  {
    var es := Merged(s.central.cache, OutcomeOf(s.central));
    CommitStores(s);
    CommitServedBy(s, seen);
    CommitResults(s, seen);
    assert exists b :: b in seen && StripHealth(es) == ServeNow(b);
  }

  /** In a calm run every commit stores, health apart, what the Agent would serve at an instant
      between the start of that refresh and its commit, and the results that the Agent had at such
      an instant of all the services it stores. */
  lemma CalmCommitsWhatWasServed(s0: System, before: seq<Step>, now: int, during: seq<Step>)
    requires Initial(s0) && !s0.agent.moved && CalmRun(s0, before) && RunSteps(s0, before).central.refresh.Idle?
    requires var begun := Next(RunSteps(s0, before), Begin(now));
             && CalmRun(begun, during) && Unfinished(begun, during)
             && ReadyToFinish(RunSteps(begun, during).central)
             && OutcomeOf(RunSteps(begun, during).central).health == AgentOK
    ensures
      var begun := Next(RunSteps(s0, before), Begin(now));
      var es := CachedList(Next(RunSteps(begun, during), Finish).central.cache);
      && (exists b :: b in Visited(begun, during) && StripHealth(es) == ServeNow(b))
      && (exists d :: d in Visited(begun, during) && ResultsOf(d, es))
  {
    var idle := RunSteps(s0, before);
    var begun := Next(idle, Begin(now));
    RunKeepsInv(s0, before);
    CalmRunKeepsCalmInv(s0, before);
    NextKeepsInv(idle, Begin(now));
    CalmRefreshSeen(begun, during);
    CommitOfSeen(RunSteps(begun, during), Visited(begun, during));
  }
}
