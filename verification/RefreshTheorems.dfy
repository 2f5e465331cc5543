/**
 What the refresh protocol guarantees over every run; `RefreshLimits` shows that the
 conditions are needed.
 */
module RefreshTheorems {
  import opened Types
  import opened AgentRegistry
  import opened ServicesApi
  import opened ServiceCache
  import opened RefreshProtocol
  import opened RefreshInvariants

  ghost predicate ServicesCoherent(s: System) {
    s.central.cache.Some? && StripHealth(s.central.cache.value.services) == ServeNow(s.agent)
  }

  ghost predicate HealthCoherent(s: System) {
    s.central.cache.Some? && HealthAgrees(s.agent, s.central.cache.value.services)
  }

  /** The Agent's next answer to the running services query is 304. */
  predicate AboutToAnswer304(s: System) {
    && s.central.refresh.Running?
    && s.central.refresh.svc.ServicesSent?
    && AgentRegistry.NotModified(s.agent.reg.svcModifiedAt, s.central.refresh.svc.ims)
  }

  /** Without its health, the cache is the body that came with the stored services validator. */
  predicate HoldsBody(c: Central) {
    c.cache.Some? && StripHealth(c.cache.value.services) == c.lastBody
  }

  /** The present list resolves with `net` as it does with the present addresses. */
  ghost predicate SameServed(a: Agent, net: Net) {
    Serve(ListWithoutHealth(a.reg), net) == ServeNow(a)
  }

  /** In every run: a services 304 finds the cache present, and the body that came with the
      validator is the present list, resolved with the addresses of that time. So a cache that holds
      this body, as it does if the refresh that got it committed, is what the Agent would serve
      exactly when those addresses serve the list as the present ones do; unless a change of them
      awaits its touch they are the present ones. */
  lemma Services304IsSound(s0: System, steps: seq<Step>)
    requires Initial(s0) && AboutToAnswer304(RunSteps(s0, steps))
    ensures var s := RunSteps(s0, steps);
            var a, c := s.agent, s.central;
            && c.cache.Some?
            && c.lastBody == Serve(ListWithoutHealth(a.reg), c.bodyNet)
            && (c.svcCommitted ==> HoldsBody(c))
            && (HoldsBody(c) ==> (ServicesCoherent(s) <==> SameServed(a, c.bodyNet)))
            && (!a.moved ==> c.bodyNet == a.net && (ServicesCoherent(s) <==> HoldsBody(c)))
  {
    RunKeepsInv(s0, steps);
  }

  /** In every run: while the health stamp is the one of the stored validator and the table that
      came with it was merged by a refresh without skew, every served service with a result at
      the Agent has the same status, status code and message in the cache. */
  lemma HealthAgreement(s0: System, steps: seq<Step>)
    requires Initial(s0)
    requires var s := RunSteps(s0, steps);
             && s.central.cache.Some? && s.central.healthClean
             && s.central.healthValidator == Some(HttpDate(s.agent.reg.healthModifiedAt))
    ensures HealthCoherent(RunSteps(s0, steps))
  {
    RunKeepsInv(s0, steps);
  }

  // Refreshes during which the Agent does not change.

  predicate Dates(reply: ServicesReply, c: Central, reg: State) {
    var now := Some(HttpDate(reg.svcModifiedAt));
    match reply
    case ServicesUnchanged => c.svcValidator == now
    case ServicesFull(lm, _) => lm == now
    case _ => true
  }

  ghost predicate QuietServices(a: Agent, c: Central, svc: ServicesPhase)
    requires c.refresh.Running?
  {
    match svc
    case ServicesStamped(stamp) => stamp == a.reg.svcModifiedAt
    case ServicesListed(stamp, _) => stamp == a.reg.svcModifiedAt
    case ServicesAnswered(reply) =>
      Dates(reply, c, a.reg) && (reply.ServicesFull? ==> c.refresh.seen == a.net)
    case ServicesDone(reply) =>
      Dates(reply, c, a.reg) && (reply.ServicesFull? ==> c.svcValidator == reply.lastModified && c.bodyNet == a.net)
    case _ => true
  }

  ghost predicate QuietTable(a: Agent, c: Central, hlth: HealthPhase) {
    match hlth
    case HealthStamped(stamp) => stamp == a.reg.healthModifiedAt
    case HealthAnswered(reply) => QuietHealth(reply, c, a.reg)
    case HealthDone(reply) => QuietHealth(reply, c, a.reg)
    case _ => true
  }

  predicate QuietHealth(reply: HealthReply, c: Central, reg: State) {
    match reply
    case HealthUnchanged => c.healthValidator == Some(HttpDate(reg.healthModifiedAt))
    case HealthReplyFull(lm, table) =>
      lm == Some(HttpDate(reg.healthModifiedAt)) && (table.Table? ==> table.table == HealthMap(reg))
    case _ => true
  }

  /** Without an Agent change only an unusable 304 causes skew. */
  predicate QuietSkew(a: Agent, c: Central, svc: ServicesPhase) {
    && (svc.ServicesAnswered? || svc.ServicesDone?)
    && !svc.reply.ServicesFull?
    && (a.moved || !c.svcCommitted)
  }

  ghost predicate QuietInv(s: System) {
    var a, c := s.agent, s.central;
    c.refresh.Running? && c.refresh.quiet ==>
      && QuietServices(a, c, c.refresh.svc)
      && QuietTable(a, c, c.refresh.hlth)
      && (c.refresh.skew ==> QuietSkew(a, c, c.refresh.svc))
  }

  lemma AgentStepKeepsQuietInv(s: System, op: Op, clock: nat)
    requires Inv(s) && QuietInv(s) && CarriesNoHealth(op)
    ensures QuietInv(AgentStep(s, op, clock))
  {
    BumpMovesDate(s.agent.reg, op, clock);
  }

  lemma AnswerKeepsQuietInv(s: System, step: QueryStep<ServicesReply>)
    requires Inv(s) && QuietInv(s) && s.central.refresh.Running? && !step.Receive? && !step.Fail?
    ensures QuietInv(ServicesStep(s, step))
  {
  }

  lemma ArrivalKeepsQuietInv(s: System, step: QueryStep<ServicesReply>)
    requires Inv(s) && QuietInv(s) && s.central.refresh.Running? && (step.Receive? || step.Fail?)
    ensures QuietInv(ServicesStep(s, step))
  {
  }

  lemma ServicesStepKeepsQuietInv(s: System, step: QueryStep<ServicesReply>)
    requires Inv(s) && QuietInv(s) && s.central.refresh.Running?
    ensures QuietInv(ServicesStep(s, step))
  {
    if step.Receive? || step.Fail? {
      ArrivalKeepsQuietInv(s, step);
    } else {
      AnswerKeepsQuietInv(s, step);
    }
  }

  lemma TableAskedKeepsQuietInv(s: System, step: QueryStep<HealthReply>)
    requires QuietInv(s) && s.central.refresh.Running? && (step.Send? || step.Stamp?)
    requires CachedHealthOk(s.agent, s.central) && HealthPhaseOk(s.agent, s.central, s.central.refresh.hlth)
    ensures QuietInv(HealthStep(s, step))
  {
  }

  lemma TableReadKeepsQuietInv(s: System, step: QueryStep<HealthReply>)
    requires QuietInv(s) && s.central.refresh.Running? && (step.Read? || step.Resolve?)
    ensures QuietInv(HealthStep(s, step))
  {
  }

  lemma TableArrivalKeepsQuietInv(s: System, step: QueryStep<HealthReply>)
    requires Inv(s) && QuietInv(s) && s.central.refresh.Running? && (step.Receive? || step.Fail?)
    ensures QuietInv(HealthStep(s, step))
  {
  }

  lemma HealthStepKeepsQuietInv(s: System, step: QueryStep<HealthReply>)
    requires Inv(s) && QuietInv(s) && s.central.refresh.Running?
    ensures QuietInv(HealthStep(s, step))
  {
    if step.Receive? || step.Fail? {
      TableArrivalKeepsQuietInv(s, step);
    } else if step.Send? || step.Stamp? {
      TableAskedKeepsQuietInv(s, step);
    } else {
      TableReadKeepsQuietInv(s, step);
    }
  }

  lemma {:induction false} RunKeepsQuietInv(s: System, steps: seq<Step>)
    requires Inv(s) && QuietInv(s)
    ensures QuietInv(RunSteps(s, steps))
    decreases |steps|
  {
    if steps != [] {
      var t, step := Next(s, steps[0]), steps[0];
      NextKeepsInv(s, step);
      assert QuietInv(t) by {
        match step
        case AgentOp(op, clock) => if CarriesNoHealth(op) { AgentStepKeepsQuietInv(s, op, clock); }
        case ChangeNet(_) =>
        case Begin(_) =>
        case OnServices(q) => if s.central.refresh.Running? { ServicesStepKeepsQuietInv(s, q); }
        case OnHealth(q) => if s.central.refresh.Running? { HealthStepKeepsQuietInv(s, q); }
        case Finish =>
        case Expire(_) =>
      }
      RunKeepsQuietInv(t, steps[1..]);
    }
  }

  /** A refresh about to commit, during which the Agent did not change. */
  predicate QuietCommit(s: System) {
    && ReadyToFinish(s.central)
    && OutcomeOf(s.central).health == AgentOK
    && s.central.refresh.quiet
  }

  lemma CommittedNotEvicted(s: System)
    requires QuietCommit(s)
    ensures Next(s, Finish).central == Committed(s.central).(refresh := Idle)
  {
  }

  predicate ServicesFullIn(c: Central)
    requires ReadyToFinish(c)
  {
    c.refresh.svc.reply.ServicesFull?
  }

  predicate HealthFullIn(c: Central)
    requires ReadyToFinish(c)
  {
    c.refresh.hlth.reply.HealthReplyFull?
  }

  /** The replies of a refresh that commits, and what the two kinds of answer carry. */
  lemma QuietReplies(s: System)
    requires Inv(s) && QuietInv(s) && QuietCommit(s)
    ensures
      var a, c := s.agent, s.central;
      var svc, hlth := c.refresh.svc.reply, c.refresh.hlth.reply;
      && (svc.ServicesFull? ==> svc.body == Some(c.lastBody) && NoHealth(c.lastBody))
      && (svc.ServicesFull? || (svc.ServicesUnchanged? && c.cache.Some?))
      && (hlth.HealthReplyFull? ==> hlth.table == Table(HealthMap(a.reg)))
      && (hlth.HealthReplyFull? || (hlth.HealthUnchanged? && c.cache.Some?))
      && c.lastBody == Serve(ListWithoutHealth(a.reg), c.bodyNet)
      && (svc.ServicesFull? || !a.moved ==> c.bodyNet == a.net)
  {
  }

  /** What a quiet commit stores, for the four combinations of answers. */
  lemma QuietCommitStores(s: System)
    requires Inv(s) && QuietInv(s) && QuietCommit(s)
    ensures
      var c, t := s.central, Next(s, Finish);
      var cached, table := CachedList(c.cache), HealthMap(s.agent.reg);
      && t.agent == s.agent && t.central.cache.Some?
      && t.central.cache.value == CachedServices(
           if ServicesFullIn(c) && HealthFullIn(c) then Overlay(c.lastBody, table)
           else if ServicesFullIn(c) then Inherit(cached, c.lastBody)
           else if HealthFullIn(c) then Overlay(cached, table)
           else cached,
           c.refresh.now)
  {
    QuietReplies(s);
    CommittedNotEvicted(s);
  }

  /** Services agree after a quiet commit exactly if they came with it, or the cache agreed already.
      A cache that holds the body of the validator agreed exactly if the addresses of that time
      serve the list as the present ones do; without a pending touch they are the present ones. */
  lemma QuietCommitServices(s: System)
    requires Inv(s) && QuietInv(s) && QuietCommit(s)
    ensures
      var a, c, t := s.agent, s.central, Next(s, Finish);
      && (ServicesCoherent(t) <==> ServicesFullIn(c) || ServicesCoherent(s))
      && (HoldsBody(c) ==> (ServicesCoherent(s) <==> SameServed(a, c.bodyNet)))
      && (!a.moved ==> (ServicesCoherent(t) <==> ServicesFullIn(c) || HoldsBody(c)))
  {
    QuietReplies(s);
    CommitStrips(s);
    if ServicesFullIn(s.central) {
      StripOfNoHealth(s.central.lastBody);
    }
  }

  /** Without their health, the services stored are those of the body or of the cache. */
  lemma CommitStrips(s: System)
    requires QuietCommit(s)
    ensures
      var c, t := s.central, Next(s, Finish);
      && t.agent == s.agent && t.central.cache.Some?
      && StripHealth(t.central.cache.value.services) ==
         StripHealth(if c.refresh.svc.reply.ServicesUnchanged? then CachedList(c.cache)
                     else c.refresh.svc.reply.body.value)
  {
    CommittedNotEvicted(s);
    MergedKeepsServices(s.central.cache, OutcomeOf(s.central));
  }

  // Results that a commit brings

  /** The name has a result at the Agent and is served. */
  ghost predicate ServedResult(a: Agent, n: string) {
    HasHealth(a, n) && Servable(a.reg.entries[n], a.net.rc)
  }

  ghost function ResultAt(a: Agent, n: string): HealthCore
    requires HasHealth(a, n)
  {
    Core(a.reg.entries[n].health.value)
  }

  /** What each combination of answers needs of the cache for one served result to be in the list
      it stores. */
  ghost predicate ResultReaches(a: Agent, c: Central, n: string)
    requires ReadyToFinish(c) && HasHealth(a, n)
  {
    var cached := CachedList(c.cache);
    if ServicesFullIn(c) && HealthFullIn(c) then true
    else if ServicesFullIn(c)
    then n in HealthByName(cached) && Core(HealthByName(cached)[n]) == ResultAt(a, n)
    else if HealthFullIn(c) then Names(cached, n)
    else HealthIs(cached, n, ResultAt(a, n))
  }

  ghost predicate ResultsReach(a: Agent, c: Central)
    requires ReadyToFinish(c)
  {
    forall n :: ServedResult(a, n) ==> ResultReaches(a, c, n)
  }

  lemma InheritedIs(cached: seq<ServiceEntry>, es: seq<ServiceEntry>, n: string, core: HealthCore)
    requires NoHealth(es) && Names(es, n)
    ensures HealthIs(Inherit(cached, es), n, core) <==>
            n in HealthByName(cached) && Core(HealthByName(cached)[n]) == core
  {
    var i :| 0 <= i < |es| && es[i].name == n;
    assert Inherit(cached, es)[i] == InheritedEntry(es[i], HealthByName(cached));
    assert Inherit(cached, es)[i].name == n;
  }

  lemma OverlaidIs(es: seq<ServiceEntry>, table: HealthTable, n: string)
    requires n in table && table[n].Some?
    ensures HealthIs(Overlay(es, table), n, Core(table[n].value)) <==> Names(es, n)
  {
    if Names(es, n) {
      OverlayHealthIs(es, table, n);
    }
    if i :| 0 <= i < |es| && Overlay(es, table)[i].name == n {
      assert es[i].name == n;
    }
  }

  /** One served result: it is in the stored list exactly if the combination of answers brings it. */
  lemma QuietCommitResult(s: System, n: string)
    requires Inv(s) && QuietInv(s) && QuietCommit(s) && ServedResult(s.agent, n)
    ensures HealthIs(CachedList(Next(s, Finish).central.cache), n, ResultAt(s.agent, n)) <==>
            ResultReaches(s.agent, s.central, n)
  {
    var a, c := s.agent, s.central;
    QuietReplies(s);
    QuietCommitStores(s);
    if ServicesFullIn(c) {
      ServedNow(a, n);
      if HealthFullIn(c) {
        OverlayHealthIs(c.lastBody, HealthMap(a.reg), n);
      } else {
        InheritedIs(CachedList(c.cache), c.lastBody, n, ResultAt(a, n));
      }
    } else if HealthFullIn(c) {
      OverlaidIs(CachedList(c.cache), HealthMap(a.reg), n);
    }
  }

  /** Every served result at the Agent is in the cache after a quiet commit exactly if, for its
      combination of answers, the cache before held what it needs. */
  lemma QuietCommitHealth(s: System)
    requires Inv(s) && QuietInv(s) && QuietCommit(s)
    ensures HealthCoherent(Next(s, Finish)) <==> ResultsReach(s.agent, s.central)
  {
    CommittedNotEvicted(s);
    var es := CachedList(Next(s, Finish).central.cache);
    assert HealthCoherent(Next(s, Finish)) <==> HealthAgrees(s.agent, es);
    forall n | ServedResult(s.agent, n)
      ensures HealthIs(es, n, Core(s.agent.reg.entries[n].health.value)) <==> ResultReaches(s.agent, s.central, n)
    {
      QuietCommitResult(s, n);
    }
  }

  // Results that a commit leaves behind

  /** No entry carries a result that the Agent has dropped. */
  ghost predicate NothingStale(a: Agent, es: seq<ServiceEntry>) {
    forall i :: 0 <= i < |es| && es[i].health.Some? ==> HasHealth(a, es[i].name)
  }

  /** The same for what the names of a list inherit from the cache. */
  ghost predicate NothingStaleInherited(a: Agent, cached: seq<ServiceEntry>, es: seq<ServiceEntry>) {
    forall i :: 0 <= i < |es| && es[i].name in HealthByName(cached) ==> HasHealth(a, es[i].name)
  }

  lemma OverlayStale(a: Agent, es: seq<ServiceEntry>)
    ensures NothingStale(a, Overlay(es, HealthMap(a.reg))) <==> NothingStale(a, es)
  {
    var r := Overlay(es, HealthMap(a.reg));
    forall i | 0 <= i < |es|
      ensures (r[i].health.Some? ==> HasHealth(a, r[i].name)) <==> (es[i].health.Some? ==> HasHealth(a, es[i].name))
    {
      assert r[i] == OverlaidEntry(es[i], HealthMap(a.reg));
    }
  }

  lemma InheritStale(a: Agent, cached: seq<ServiceEntry>, es: seq<ServiceEntry>)
    requires NoHealth(es)
    ensures NothingStale(a, Inherit(cached, es)) <==> NothingStaleInherited(a, cached, es)
  {
    var r := Inherit(cached, es);
    forall i | 0 <= i < |es|
      ensures (r[i].health.Some? ==> HasHealth(a, r[i].name)) <==>
              (es[i].name in HealthByName(cached) ==> HasHealth(a, es[i].name))
    {
      assert r[i] == InheritedEntry(es[i], HealthByName(cached));
    }
  }

  /** A quiet commit leaves no stale result exactly if both answers were full, or nothing that it
      takes over from the cache is stale. */
  lemma QuietCommitStale(s: System)
    requires Inv(s) && QuietInv(s) && QuietCommit(s)
    ensures
      var a, c, cached := s.agent, s.central, CachedList(s.central.cache);
      NothingStale(a, CachedList(Next(s, Finish).central.cache)) <==>
      if ServicesFullIn(c)
      then HealthFullIn(c) || NothingStaleInherited(a, cached, c.lastBody)
      else NothingStale(a, cached)
  {
    var a, c := s.agent, s.central;
    QuietReplies(s);
    QuietCommitStores(s);
    if ServicesFullIn(c) {
      OverlayStale(a, c.lastBody);
      InheritStale(a, CachedList(c.cache), c.lastBody);
    } else {
      OverlayStale(a, CachedList(c.cache));
    }
  }

  /** The history flags vouch for every served result after a quiet commit. */
  predicate ResultsVouched(s: System)
    requires ReadyToFinish(s.central)
  {
    var c := s.central;
    if HealthFullIn(c) then ServicesFullIn(c) || (c.svcCommitted && !s.agent.moved) else c.healthClean
  }

  /** A committed refresh during which the Agent did not change, in any run: exactly when services
      agree afterwards, exactly when every served result is there, and exactly when no dropped
      result is left. Two answers in full are always enough; the history flags are for the first two. */
  lemma QuietRefreshSynchronises(s0: System, steps: seq<Step>)
    requires Initial(s0) && QuietCommit(RunSteps(s0, steps))
    ensures
      var s := RunSteps(s0, steps);
      var a, c, t := s.agent, s.central, Next(s, Finish);
      var cached := CachedList(c.cache);
      && (ServicesCoherent(t) <==> ServicesFullIn(c) || ServicesCoherent(s))
      && (HoldsBody(c) ==> (ServicesCoherent(s) <==> SameServed(a, c.bodyNet)))
      && (!a.moved ==> (ServicesCoherent(t) <==> ServicesFullIn(c) || HoldsBody(c)))
      && (HealthCoherent(t) <==> ResultsReach(a, c))
      && (NothingStale(a, CachedList(t.central.cache)) <==>
          if ServicesFullIn(c) then HealthFullIn(c) || NothingStaleInherited(a, cached, c.lastBody)
          else NothingStale(a, cached))
      && (!ServicesFullIn(c) && c.svcCommitted ==> HoldsBody(c))
      && (ResultsVouched(s) ==> HealthCoherent(t))
      && (ServicesFullIn(c) && HealthFullIn(c) ==>
          t.central.cache == Some(CachedServices(Overlay(ServeNow(a), HealthMap(a.reg)), c.refresh.now)))
  {
    var s := RunSteps(s0, steps);
    RunKeepsInv(s0, steps);
    RunKeepsQuietInv(s0, steps);
    QuietCommitFull(s);
    QuietCommitServices(s);
    QuietCommitHealth(s);
    QuietCommitStale(s);
    if ResultsVouched(s) { HealthFlagSuffices(s); }
  }

  lemma QuietCommitFull(s: System)
    requires Inv(s) && QuietInv(s) && QuietCommit(s)
    ensures
      var c := s.central;
      && (!ServicesFullIn(c) && c.svcCommitted ==> HoldsBody(c))
      && (ServicesFullIn(c) && HealthFullIn(c) ==>
          Next(s, Finish).central.cache ==
          Some(CachedServices(Overlay(ServeNow(s.agent), HealthMap(s.agent.reg)), c.refresh.now)))
  {
    QuietReplies(s);
    QuietCommitStores(s);
  }

  /** A commit with the table of the present stamp, merged without skew, is coherent. */
  lemma HealthFlagSuffices(s: System)
    requires Inv(s) && QuietInv(s) && QuietCommit(s) && ResultsVouched(s)
    ensures HealthCoherent(Next(s, Finish))
  {
    CommittedNotEvicted(s);
    NextKeepsInv(s, Finish);
  }

  // Runs without torn refreshes.

  /** The refresh stored a validator although it does not commit. */
  predicate Torn(c: Central)
    requires ReadyToFinish(c)
  {
    && OutcomeOf(c).health != AgentOK
    && (c.refresh.svc.reply.ServicesFull? || c.refresh.hlth.reply.HealthReplyFull?)
  }

  predicate CalmStep(s: System, step: Step) {
    match step
    case ChangeNet(_) => false
    case AgentOp(op, _) =>
      BumpsServices(s.agent.reg, op) && s.central.refresh.Running? ==>
        !(SnapshotTaken(s.central.refresh.svc) && BeforeHealthStamp(s.central.refresh.hlth))
    case Finish => ReadyToFinish(s.central) ==> !Torn(s.central)
    case _ => true
  }

  /** No address change, no torn refresh, and no change of the service list between the
      services answer and the health stamp of one refresh. */
  ghost predicate CalmRun(s: System, steps: seq<Step>)
    decreases |steps|
  {
    steps == [] || (CalmStep(s, steps[0]) && CalmRun(Next(s, steps[0]), steps[1..]))
  }

  predicate CalmInv(s: System) {
    var c := s.central;
    && !s.agent.moved
    && (c.refresh.Running? ==> !c.refresh.skew)
    && (c.svcValidator.Some? && !c.svcCommitted ==>
        c.refresh.Running? && c.refresh.svc.ServicesDone? && c.refresh.svc.reply.ServicesFull?)
    && (c.healthValidator.Some? && !c.healthClean ==>
        c.refresh.Running? && c.refresh.hlth.HealthDone? && c.refresh.hlth.reply.HealthReplyFull?)
  }

  lemma CalmServicesStep(s: System, step: QueryStep<ServicesReply>)
    requires Inv(s) && CalmInv(s) && s.central.refresh.Running?
    ensures CalmInv(ServicesStep(s, step))
  {
  }

  lemma CalmHealthStep(s: System, step: QueryStep<HealthReply>)
    requires Inv(s) && CalmInv(s) && s.central.refresh.Running?
    ensures CalmInv(HealthStep(s, step))
  {
  }

  lemma CalmFinish(s: System)
    requires Inv(s) && CalmInv(s) && ReadyToFinish(s.central) && !Torn(s.central)
    ensures CalmInv(s.(central := Finished(s.central)))
  {
  }

  lemma CalmStepKeepsCalmInv(s: System, step: Step)
    requires Inv(s) && CalmInv(s) && CalmStep(s, step)
    ensures CalmInv(Next(s, step))
  {
    match step
    case AgentOp(_, _) =>
    case ChangeNet(_) =>
    case Begin(_) =>
    case OnServices(q) => if s.central.refresh.Running? { CalmServicesStep(s, q); }
    case OnHealth(q) => if s.central.refresh.Running? { CalmHealthStep(s, q); }
    case Finish => if ReadyToFinish(s.central) { CalmFinish(s); }
    case Expire(_) =>
  }

  lemma {:induction false} CalmRunKeepsCalmInv(s: System, steps: seq<Step>)
    requires Inv(s) && CalmInv(s) && CalmRun(s, steps)
    ensures CalmInv(RunSteps(s, steps))
    decreases |steps|
  {
    if steps != [] {
      NextKeepsInv(s, steps[0]);
      CalmStepKeepsCalmInv(s, steps[0]);
      CalmRunKeepsCalmInv(Next(s, steps[0]), steps[1..]);
    }
  }

  /** In a calm run, between refreshes: as long as no bump has followed the stored validator, the
      cache agrees with the Agent, and every services 304 finds it right. */
  lemma CalmRunsStayCoherent(s0: System, steps: seq<Step>)
    requires Initial(s0) && !s0.agent.moved && CalmRun(s0, steps)
    ensures
      var s := RunSteps(s0, steps);
      && (s.central.refresh.Idle? && s.central.cache.Some? ==>
            && (s.central.svcValidator == Some(HttpDate(s.agent.reg.svcModifiedAt)) ==> ServicesCoherent(s))
            && (s.central.healthValidator == Some(HttpDate(s.agent.reg.healthModifiedAt)) ==> HealthCoherent(s)))
      && (AboutToAnswer304(s) ==> ServicesCoherent(s))
      && (QuietCommit(s) ==> ServicesCoherent(Next(s, Finish)) && HealthCoherent(Next(s, Finish)))
  {
    var s := RunSteps(s0, steps);
    RunKeepsInv(s0, steps);
    CalmRunKeepsCalmInv(s0, steps);
    if QuietCommit(s) {
      CalmCommit(s0, steps);
    }
  }

  lemma CalmCommit(s0: System, steps: seq<Step>)
    requires Initial(s0) && !s0.agent.moved && CalmRun(s0, steps) && QuietCommit(RunSteps(s0, steps))
    ensures
      var t := Next(RunSteps(s0, steps), Finish);
      ServicesCoherent(t) && HealthCoherent(t)
  {
    var s := RunSteps(s0, steps);
    RunKeepsInv(s0, steps);
    RunKeepsQuietInv(s0, steps);
    CalmRunKeepsCalmInv(s0, steps);
    QuietReplies(s);
    QuietCommitServices(s);
    HealthFlagSuffices(s);
  }
}
