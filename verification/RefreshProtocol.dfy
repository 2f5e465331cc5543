/**
 The conditional-refresh protocol between one Agent and Central, as a transition system.

 Agent steps are registry operations with arbitrary clock readings, and changes of the
 addresses a request sees; Central steps begin a refresh, send the two queries, receive or
 lose their answers, and finish by committing or not. The Agent answers a query in separate
 critical sections (stamp, list, addresses), and every step may fall between any two others.
 `Next` ignores a step that is not enabled, so every sequence of steps is a run.
 The refreshes of one Central are sequential.
 */
module RefreshProtocol {
  import opened Types
  import opened AgentRegistry
  import opened ServicesApi
  import opened ServiceCache

  /** `moved`: an address change is visible that no bump of the services stamp has followed yet. */
  datatype Agent = Agent(reg: State, net: Net, moved: bool)

  datatype ServicesPhase =
    | ServicesUnsent
    | ServicesSent(ims: Option<nat>)
    | ServicesStamped(stamp: nat)
    | ServicesListed(stamp: nat, list: seq<ServiceEntry>)
    | ServicesAnswered(reply: ServicesReply)
    | ServicesDone(reply: ServicesReply)

  datatype HealthPhase =
    | HealthUnsent
    | HealthSent(ims: Option<nat>)
    | HealthStamped(stamp: nat)
    | HealthAnswered(reply: HealthReply)
    | HealthDone(reply: HealthReply)

  /** `skew`, `quiet` and `seen` record history: `skew`, that the services answer need not name
      every service of the health answer; `quiet`, that the Agent has not changed since the start;
      `seen`, the addresses with which the services answer was resolved. */
  datatype Refresh =
    | Idle
    | Running(now: int, svc: ServicesPhase, hlth: HealthPhase, skew: bool, quiet: bool, seen: Net)

  /** The last four fields record history: the body that came with the stored services validator,
      the addresses it was resolved with, whether that body was committed, and whether the cache
      holds the health table that came with the stored health validator. */
  datatype Central = Central(
    cache: Option<CachedServices>,
    svcValidator: Option<nat>,
    healthValidator: Option<nat>,
    refresh: Refresh,
    lastBody: seq<ServiceEntry>,
    bodyNet: Net,
    svcCommitted: bool,
    healthClean: bool)

  datatype System = System(agent: Agent, central: Central)

  /** The life of one query; `Stamp`, `Read` and `Resolve` happen at the Agent. */
  datatype QueryStep<R> =
    | Send
    | Stamp
    | Read
    | Resolve
    | Receive(decodes: bool)
    | Fail(reply: R)

  datatype Step =
    | AgentOp(op: Op, clock: nat)
    | ChangeNet(net: Net)
    | Begin(now: int)
    | OnServices(svc: QueryStep<ServicesReply>)
    | OnHealth(hlth: QueryStep<HealthReply>)
    | Finish
    | Expire(now: int)

  predicate SnapshotTaken(p: ServicesPhase) {
    p.ServicesListed? || p.ServicesAnswered? || p.ServicesDone?
  }

  predicate BeforeHealthStamp(p: HealthPhase) {
    p.HealthUnsent? || p.HealthSent?
  }

  ghost function ServeNow(a: Agent): seq<ServiceEntry> {
    Serve(ListWithoutHealth(a.reg), a.net)
  }

  /** The new addresses make a registered entry resolvable that was not. */
  ghost predicate ServesMore(a: Agent, net: Net) {
    exists n :: n in a.reg.entries
      && Servable(a.reg.entries[n], net.rc) && !Servable(a.reg.entries[n], a.net.rc)
  }

  ghost function AgentStep(s: System, op: Op, clock: nat): System
    requires CarriesNoHealth(op)
  {
    var a, c := s.agent, s.central;
    var bumpsSvc, reg := BumpsServices(a.reg, op), Apply(a.reg, op, clock);
    System(
      Agent(reg, a.net, a.moved && !bumpsSvc),
      if c.refresh.Idle? then c
      else c.(refresh := c.refresh.(
        skew := c.refresh.skew
          || (bumpsSvc && SnapshotTaken(c.refresh.svc) && BeforeHealthStamp(c.refresh.hlth)),
        quiet := c.refresh.quiet && reg == a.reg)))
  }

  ghost function NetStep(s: System, net: Net): System {
    var a, c := s.agent, s.central;
    var more := ServesMore(a, net);
    var c' := c.(healthClean := c.healthClean && !more);
    System(
      Agent(a.reg, net, true),
      if c.refresh.Idle? then c'
      else c'.(refresh := c.refresh.(
        skew := c.refresh.skew || (more && SnapshotTaken(c.refresh.svc)),
        quiet := false)))
  }

  function KnowledgeOf(c: Central): Knowledge {
    Knowledge(c.cache, c.svcValidator, c.healthValidator)
  }

  function Evict(c: Central, now: int): Central {
    var k := Evicted(KnowledgeOf(c), now);
    c.(cache := k.cache, svcValidator := k.svc, healthValidator := k.health)
  }

  predicate ReadyToFinish(c: Central) {
    c.refresh.Running? && c.refresh.svc.ServicesDone? && c.refresh.hlth.HealthDone?
  }

  function OutcomeOf(c: Central): PeerResult
    requires ReadyToFinish(c)
  {
    ResultOf(c.refresh.svc.reply, c.refresh.hlth.reply)
  }

  function Committed(c: Central): Central
    requires ReadyToFinish(c)
  {
    c.(cache := Some(CachedServices(Merged(c.cache, OutcomeOf(c)), c.refresh.now)),
       svcCommitted := c.svcCommitted || c.refresh.svc.reply.ServicesFull?,
       healthClean := if c.refresh.hlth.reply.HealthReplyFull? then !c.refresh.skew else c.healthClean)
  }

  function Finished(c: Central): Central
    requires ReadyToFinish(c)
  {
    var c' := if OutcomeOf(c).health == AgentOK then Committed(c) else c;
    Evict(c', c.refresh.now).(refresh := Idle)
  }

  ghost function WithServices(s: System, p: ServicesPhase): System
    requires s.central.refresh.Running?
  {
    s.(central := s.central.(refresh := s.central.refresh.(svc := p)))
  }

  ghost function WithHealth(s: System, p: HealthPhase): System
    requires s.central.refresh.Running?
  {
    s.(central := s.central.(refresh := s.central.refresh.(hlth := p)))
  }

  /** Storing the validator comes before decoding, and whatever the other query does. */
  function StoreServices(c: Central, reply: ServicesReply): Central
    requires c.refresh.Running?
  {
    if reply.ServicesFull? && reply.lastModified.Some? && reply.body.Some? then
      c.(svcValidator := ServicesStamp(c.svcValidator, reply), lastBody := reply.body.value,
        bodyNet := c.refresh.seen, svcCommitted := false)
    else c
  }

  function StoreHealth(c: Central, reply: HealthReply): Central {
    if reply.HealthReplyFull? && reply.lastModified.Some? then
      c.(healthValidator := HealthStamp(c.healthValidator, reply), healthClean := false)
    else c
  }

  function DecodedServices(reply: ServicesReply, decodes: bool): ServicesReply {
    if reply.ServicesFull? && !decodes then reply.(body := None) else reply
  }

  function DecodedHealth(reply: HealthReply, decodes: bool): HealthReply {
    if reply.HealthReplyFull? && !decodes then reply.(table := Undecodable) else reply
  }

  ghost function ServicesStep(s: System, step: QueryStep<ServicesReply>): System
    requires s.central.refresh.Running?
  {
    var a, c, r := s.agent, s.central, s.central.refresh;
    match step
    case Send =>
      if !r.svc.ServicesUnsent? then s else WithServices(s, ServicesSent(ValidatorSent(c.cache, c.svcValidator)))
    case Stamp =>
      if !r.svc.ServicesSent? then s
      else if AgentRegistry.NotModified(a.reg.svcModifiedAt, r.svc.ims) then
        s.(central := c.(refresh := r.(
          svc := ServicesAnswered(ServicesUnchanged),
          skew := r.skew || a.moved || !c.svcCommitted)))
      else WithServices(s, ServicesStamped(a.reg.svcModifiedAt))
    case Read =>
      if !r.svc.ServicesStamped? then s
      else WithServices(s, ServicesListed(r.svc.stamp, ListWithoutHealth(a.reg)))
    case Resolve =>
      if !r.svc.ServicesListed? then s
      else s.(central := c.(refresh := r.(
        svc := ServicesAnswered(ServicesFull(Some(HttpDate(r.svc.stamp)), Some(Serve(r.svc.list, a.net)))),
        seen := a.net)))
    case Receive(decodes) =>
      if !r.svc.ServicesAnswered? then s
      else WithServices(s.(central := StoreServices(c, r.svc.reply)),
        ServicesDone(DecodedServices(r.svc.reply, decodes)))
    case Fail(f) =>
      if ServicesHealth(f) == AgentOK || f.ServicesFull? || r.svc.ServicesUnsent? || r.svc.ServicesDone? then s
      else WithServices(s, ServicesDone(f))
  }

  ghost function HealthStep(s: System, step: QueryStep<HealthReply>): System
    requires s.central.refresh.Running?
  {
    var a, c, r := s.agent, s.central, s.central.refresh;
    match step
    case Send =>
      if !r.hlth.HealthUnsent? then s else WithHealth(s, HealthSent(ValidatorSent(c.cache, c.healthValidator)))
    case Stamp =>
      if !r.hlth.HealthSent? then s
      else if AgentRegistry.NotModified(a.reg.healthModifiedAt, r.hlth.ims) then
        WithHealth(s, HealthAnswered(HealthUnchanged))
      else WithHealth(s, HealthStamped(a.reg.healthModifiedAt))
    case Read =>
      if !r.hlth.HealthStamped? then s
      else WithHealth(s,
        HealthAnswered(HealthReplyFull(Some(HttpDate(r.hlth.stamp)), Table(HealthMap(a.reg)))))
    case Resolve => s
    case Receive(decodes) =>
      if !r.hlth.HealthAnswered? then s
      else WithHealth(s.(central := StoreHealth(c, r.hlth.reply)),
        HealthDone(DecodedHealth(r.hlth.reply, decodes)))
    case Fail(f) =>
      if HealthHealth(f) == AgentOK || f.HealthReplyFull? || r.hlth.HealthUnsent? || r.hlth.HealthDone? then s
      else WithHealth(s, HealthDone(f))
  }

  ghost function Next(s: System, step: Step): System {
    var c := s.central;
    match step
    case AgentOp(op, clock) => if CarriesNoHealth(op) then AgentStep(s, op, clock) else s
    case ChangeNet(net) => NetStep(s, net)
    case Begin(now) =>
      if c.refresh.Idle? then
        s.(central := c.(refresh := Running(now, ServicesUnsent, HealthUnsent, false, true, s.agent.net)))
      else s
    case OnServices(q) => if c.refresh.Running? then ServicesStep(s, q) else s
    case OnHealth(q) => if c.refresh.Running? then HealthStep(s, q) else s
    case Finish => if ReadyToFinish(c) then s.(central := Finished(c)) else s
    case Expire(now) => if c.refresh.Idle? then s.(central := Evict(c, now)) else s
  }

  ghost function RunSteps(s: System, steps: seq<Step>): System
    decreases |steps|
  {
    if steps == [] then s else RunSteps(Next(s, steps[0]), steps[1..])
  }

  /** Central may start with services from its cache file, but without validators. */
  ghost predicate Initial(s: System) {
    && ValidState(s.agent.reg)
    && s.central.svcValidator == None && s.central.healthValidator == None
    && s.central.refresh == Idle
  }
}
