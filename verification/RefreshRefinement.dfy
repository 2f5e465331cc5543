/**
 The protocol and the whole refresh say the same of one peer: however the steps of a refresh
 interleave with each other and with the Agent, Central ends it knowing what `Stepped` makes of
 the two answers, and that is what `PeerCollector` proves of every peer it asks.
 */
module RefreshRefinement {
  import opened ServiceCache
  import opened PeerMerge
  import opened PeerRefresh
  import opened RefreshProtocol

  /** The services query so far: its validator is the one due, an answer in full has a date and a
      body, and the stored validator moves with the answer. */
  predicate ServicesUnderway(k: Knowledge, c: Central, p: ServicesPhase) {
    && c.svcValidator == (if p.ServicesDone? then ServicesStamp(k.svc, p.reply) else k.svc)
    && (p.ServicesSent? ==> p.ims == ValidatorSent(k.cache, k.svc))
    && (p.ServicesAnswered? && p.reply.ServicesFull? ==> p.reply.lastModified.Some? && p.reply.body.Some?)
  }

  predicate HealthUnderway(k: Knowledge, c: Central, p: HealthPhase) {
    && c.healthValidator == (if p.HealthDone? then HealthStamp(k.health, p.reply) else k.health)
    && (p.HealthSent? ==> p.ims == ValidatorSent(k.cache, k.health))
    && (p.HealthAnswered? && p.reply.HealthReplyFull? ==> p.reply.lastModified.Some?)
  }

  /** A refresh that began at `now`, knowing `k`, is underway. */
  predicate Underway(k: Knowledge, now: int, s: System) {
    var c := s.central;
    && c.refresh.Running? && c.refresh.now == now && c.cache == k.cache
    && ServicesUnderway(k, c, c.refresh.svc)
    && HealthUnderway(k, c, c.refresh.hlth)
  }

  lemma ServicesStepUnderway(k: Knowledge, now: int, s: System, step: QueryStep<ServicesReply>)
    requires Underway(k, now, s)
    ensures Underway(k, now, ServicesStep(s, step))
  {
  }

  lemma HealthStepUnderway(k: Knowledge, now: int, s: System, step: QueryStep<HealthReply>)
    requires Underway(k, now, s)
    ensures Underway(k, now, HealthStep(s, step))
  {
  }

  lemma StepUnderway(k: Knowledge, now: int, s: System, step: Step)
    requires Underway(k, now, s) && !(step.Finish? && ReadyToFinish(s.central))
    ensures Underway(k, now, Next(s, step))
  {
    match step
    case AgentOp(_, _) =>
    case ChangeNet(_) =>
    case Begin(_) =>
    case OnServices(q) => ServicesStepUnderway(k, now, s, q);
    case OnHealth(q) => HealthStepUnderway(k, now, s, q);
    case Finish =>
    case Expire(_) =>
  }

  /** The steps do not finish the refresh. */
  ghost predicate Unfinished(s: System, steps: seq<Step>)
    decreases |steps|
  {
    steps == [] ||
    (!(steps[0].Finish? && ReadyToFinish(s.central)) && Unfinished(Next(s, steps[0]), steps[1..]))
  }

  lemma {:induction false} StepsUnderway(k: Knowledge, now: int, s: System, steps: seq<Step>)
    requires Underway(k, now, s) && Unfinished(s, steps)
    ensures Underway(k, now, RunSteps(s, steps))
    decreases |steps|
  {
    if steps != [] {
      StepUnderway(k, now, s, steps[0]);
      StepsUnderway(k, now, Next(s, steps[0]), steps[1..]);
    }
  }

  /** One refresh of the protocol, in any interleaving, is one step of what Central knows. */
  lemma RefreshIsOneStep(s0: System, now: int, steps: seq<Step>)
    requires s0.central.refresh.Idle? && Unfinished(Next(s0, Begin(now)), steps)
    requires ReadyToFinish(RunSteps(Next(s0, Begin(now)), steps).central)
    ensures
      var c := RunSteps(Next(s0, Begin(now)), steps).central;
      KnowledgeOf(Next(RunSteps(Next(s0, Begin(now)), steps), Finish).central) ==
      Stepped(KnowledgeOf(s0.central), c.refresh.svc.reply, c.refresh.hlth.reply, now)
  {
    StepsUnderway(KnowledgeOf(s0.central), now, Next(s0, Begin(now)), steps);
  }

  /** So a peer of a whole refresh and the protocol's Central that start from the same knowledge and
      get the same answers end with the same, and ask with the same validators. */
  lemma PeerFollowsProtocol(s0: System, now: int, steps: seq<Step>, past: Past, p: PeerInfo)
    requires s0.central.refresh.Idle? && Unfinished(Next(s0, Begin(now)), steps)
    requires KnowledgeOf(s0.central) == PastOf(past, p.ip)
    ensures
      var c := RunSteps(Next(s0, Begin(now)), steps).central;
      && c.refresh.Running?
      && (c.refresh.svc.ServicesSent? ==> c.refresh.svc.ims == Validator(past.cache, past.svc, p.ip))
      && (c.refresh.hlth.HealthSent? ==> c.refresh.hlth.ims == Validator(past.cache, past.health, p.ip))
      && (ReadyToFinish(c) && c.refresh.svc.reply == ServicesAnswer(past, p) &&
          c.refresh.hlth.reply == HealthAnswer(past, p) ==>
            KnowledgeOf(Next(RunSteps(Next(s0, Begin(now)), steps), Finish).central) ==
            Stepped(PastOf(past, p.ip), ServicesAnswer(past, p), HealthAnswer(past, p), now))
  {
    StepsUnderway(KnowledgeOf(s0.central), now, Next(s0, Begin(now)), steps);
    if ReadyToFinish(RunSteps(Next(s0, Begin(now)), steps).central) {
      RefreshIsOneStep(s0, now, steps);
    }
  }
}
