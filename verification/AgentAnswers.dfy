/**
 The Agent's steps of the refresh protocol give the answers that its two handlers are proved to
 give, whatever happens between their critical sections.
 */
module AgentAnswers {
  import opened Types
  import opened AgentRegistry
  import opened ServicesApi
  import opened ServiceCache
  import opened RefreshProtocol

  /** What the steps do to the registry. */
  function EventsOf(steps: seq<Step>): seq<Event> {
    if steps == [] then []
    else
      var later := EventsOf(steps[1..]);
      match steps[0]
      case AgentOp(op, clock) => if CarriesNoHealth(op) then [Event(op, clock)] + later else later
      case _ => later
  }

  lemma {:induction false} RegistryRuns(s: System, steps: seq<Step>)
    ensures RunSteps(s, steps).agent.reg == AgentRegistry.Run(s.agent.reg, EventsOf(steps))
    decreases |steps|
  {
    if steps != [] {
      RegistryRuns(Next(s, steps[0]), steps[1..]);
      assert EventsOf(steps) == EventsOf([steps[0]]) + EventsOf(steps[1..]);
      if EventsOf([steps[0]]) != [] {
        assert EventsOf(steps)[1..] == EventsOf(steps[1..]);
      }
    }
  }

  function ServicesReplyOf(r: ServicesAnswer): ServicesReply {
    match r
    case NotModified => ServicesUnchanged
    case Full(lm, body) => ServicesFull(Some(lm), Some(body))
  }

  function HealthReplyOf(r: HealthAnswer): HealthReply {
    match r
    case HealthNotModified => HealthUnchanged
    case HealthFull(lm, table) => HealthReplyFull(Some(lm), Table(table))
  }

  lemma OthersLeaveServices(s: System, step: Step)
    requires s.central.refresh.Running? && !s.central.refresh.svc.ServicesDone? && !step.OnServices?
    ensures Next(s, step).central.refresh.Running?
    ensures Next(s, step).central.refresh.svc == s.central.refresh.svc
  {
  }

  lemma OthersLeaveHealth(s: System, step: Step)
    requires s.central.refresh.Running? && !s.central.refresh.hlth.HealthDone? && !step.OnHealth?
    ensures Next(s, step).central.refresh.Running?
    ensures Next(s, step).central.refresh.hlth == s.central.refresh.hlth
  {
  }

  /** A query at the Agent waits for the Agent's next section, whatever else happens. */
  lemma {:induction false} ServicesQueryWaits(s: System, steps: seq<Step>)
    requires s.central.refresh.Running?
    requires s.central.refresh.svc.ServicesStamped? || s.central.refresh.svc.ServicesListed?
    requires forall x :: x in steps ==> !x.OnServices?
    ensures RunSteps(s, steps).central.refresh.Running?
    ensures RunSteps(s, steps).central.refresh.svc == s.central.refresh.svc
    decreases |steps|
  {
    if steps != [] {
      assert !steps[0].OnServices?;
      OthersLeaveServices(s, steps[0]);
      ServicesQueryWaits(Next(s, steps[0]), steps[1..]);
    }
  }

  lemma {:induction false} HealthQueryWaits(s: System, steps: seq<Step>)
    requires s.central.refresh.Running? && s.central.refresh.hlth.HealthStamped?
    requires forall x :: x in steps ==> !x.OnHealth?
    ensures RunSteps(s, steps).central.refresh.Running?
    ensures RunSteps(s, steps).central.refresh.hlth == s.central.refresh.hlth
    decreases |steps|
  {
    if steps != [] {
      assert !steps[0].OnHealth?;
      OthersLeaveHealth(s, steps[0]);
      HealthQueryWaits(Next(s, steps[0]), steps[1..]);
    }
  }

  lemma StampAnswersOrWaits(s: System)
    requires s.central.refresh.Running? && s.central.refresh.svc.ServicesSent?
    ensures
      var a, svc, t := s.agent, s.central.refresh.svc, Next(s, OnServices(Stamp));
      && t.agent == a && t.central.refresh.Running?
      && t.central.refresh.svc == if AgentRegistry.NotModified(a.reg.svcModifiedAt, svc.ims)
                                  then ServicesAnswered(ServicesUnchanged) else ServicesStamped(a.reg.svcModifiedAt)
  {
  }

  lemma StampedAnswers(s: System, between: seq<Step>, later: seq<Step>)
    requires s.central.refresh.Running? && s.central.refresh.svc.ServicesStamped?
    requires forall x :: x in between + later ==> !x.OnServices?
    ensures
      var before := RunSteps(s, between);
      var after := RunSteps(Next(before, OnServices(Read)), later);
      var answered := Next(after, OnServices(Resolve));
      && answered.central.refresh.Running?
      && answered.central.refresh.svc ==
         ServicesAnswered(ServicesFull(Some(HttpDate(s.central.refresh.svc.stamp)),
                                       Some(Serve(ListWithoutHealth(before.agent.reg), after.agent.net))))
  {
    assert forall x :: x in between || x in later ==> x in between + later;
    ServicesQueryWaits(s, between);
    ServicesQueryWaits(Next(RunSteps(s, between), OnServices(Read)), later);
  }

  /** The steps Stamp, Read and Resolve, with anything in between, answer as `HandleServices` does
      with the registry events in between, resolving with the addresses of the last step. */
  lemma AgentAnswersServices(s: System, between: seq<Step>, later: seq<Step>)
    requires s.central.refresh.Running? && s.central.refresh.svc.ServicesSent?
    requires forall x :: x in between + later ==> !x.OnServices?
    ensures
      var ims := s.central.refresh.svc.ims;
      var stamped := Next(s, OnServices(Stamp));
      var before := RunSteps(stamped, between);
      var after := RunSteps(Next(before, OnServices(Read)), later);
      var answered := if stamped.central.refresh.svc.ServicesAnswered? then stamped
                      else Next(after, OnServices(Resolve));
      && before.agent.reg == AgentRegistry.Run(s.agent.reg, EventsOf(between))
      && answered.central.refresh.Running?
      && answered.central.refresh.svc ==
         ServicesAnswered(ServicesReplyOf(ServicesAnswerFrom(s.agent.reg, ims, before.agent.reg, after.agent.net)))
  {
    var stamped := Next(s, OnServices(Stamp));
    StampAnswersOrWaits(s);
    RegistryRuns(stamped, between);
    if stamped.central.refresh.svc.ServicesStamped? {
      StampedAnswers(stamped, between, later);
    }
  }

  /** The same for the two sections of `HandleServicesHealth`. */
  lemma AgentAnswersHealth(s: System, between: seq<Step>)
    requires s.central.refresh.Running? && s.central.refresh.hlth.HealthSent?
    requires forall x :: x in between ==> !x.OnHealth?
    ensures
      var ims := s.central.refresh.hlth.ims;
      var stamped := Next(s, OnHealth(Stamp));
      var before := RunSteps(stamped, between);
      var answered := if stamped.central.refresh.hlth.HealthAnswered? then stamped
                      else Next(before, OnHealth(Read));
      && before.agent.reg == AgentRegistry.Run(s.agent.reg, EventsOf(between))
      && answered.central.refresh.Running?
      && answered.central.refresh.hlth ==
         HealthAnswered(HealthReplyOf(HealthAnswerFrom(s.agent.reg, ims, before.agent.reg)))
  {
    var stamped := Next(s, OnHealth(Stamp));
    RegistryRuns(stamped, between);
    if stamped.central.refresh.hlth.HealthStamped? {
      HealthQueryWaits(stamped, between);
    }
  }
}
