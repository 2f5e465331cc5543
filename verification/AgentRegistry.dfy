/**
 The Agent's service registry and its two version stamps.

 `State` and `Apply` are the value-level specification; class `Registry` is the
 structure the Agent updates in place. Instants are nanoseconds; every method that
 reads the clock takes the reading as `now`, so a stalled or backward clock is just
 another sequence of readings.
 */
module AgentRegistry {
  import opened Types
  import opened Ordering

  const SECOND: nat := 1_000_000_000

  function Truncate(t: nat): nat {
    t - t % SECOND
  }

  function NextModifiedAt(prev: nat, now: nat): nat {
    if !(Truncate(now) > prev) then prev + SECOND else Truncate(now)
  }

  /** An HTTP date carries whole seconds only (section 5.6.7 of RFC 9110). */
  function HttpDate(t: nat): nat {
    t / SECOND
  }

  /** The Agent's test of If-Modified-Since (section 13.1.3 of RFC 9110). */
  predicate NotModified(modTime: nat, ims: Option<nat>) {
    ims.Some? && !(Truncate(modTime) > Truncate(ims.value * SECOND))
  }

  /** The answer is 304 for the date of the stamp and all later ones, and for no other. */
  lemma NotModifiedFrom(modTime: nat, date: nat)
    ensures NotModified(modTime, Some(date)) <==> HttpDate(modTime) <= date
    ensures !NotModified(modTime, None)
  {
    var whole, given := Truncate(modTime), Truncate(date * SECOND);
    assert whole == HttpDate(modTime) * SECOND && given == date * SECOND;
  }

  datatype State = State(
    entries: map<string, ServiceEntry>,
    svcModifiedAt: nat,
    healthModifiedAt: nat)

  datatype Op =
    | Add(entry: ServiceEntry)
    | Remove(name: string)
    | Update(entry: ServiceEntry)
    | UpdateHealth(name: string, status: HealthStatus)
    | Touch

  const NameOf: ServiceEntry -> string := (e: ServiceEntry) => e.name

  ghost predicate ValidState(s: State) {
    && KeyedBy(s.entries, NameOf)
    && s.svcModifiedAt % SECOND == 0
    && s.healthModifiedAt % SECOND == 0
  }

  /** Whether the registry accepts the operation. */
  predicate Accepts(s: State, op: Op) {
    match op
    case Add(e) => e.name !in s.entries
    case Remove(name) => name in s.entries
    case Update(e) => e.name in s.entries
    case UpdateHealth(name, _) => name in s.entries
    case Touch => true
  }

  predicate BumpsServices(s: State, op: Op) {
    Accepts(s, op) && !op.UpdateHealth?
  }

  predicate BumpsHealth(s: State, op: Op) {
    && op.UpdateHealth?
    && Accepts(s, op)
    && (s.entries[op.name].health.None? || Core(s.entries[op.name].health.value) != Core(op.status))
  }

  function NextEntries(s: State, op: Op): map<string, ServiceEntry>
    requires Accepts(s, op)
  {
    match op
    case Add(e) => s.entries[e.name := e]
    case Remove(name) => s.entries - {name}
    case Update(e) => s.entries[e.name := e]
    case UpdateHealth(name, h) => s.entries[name := s.entries[name].(health := Some(h))]
    case Touch => s.entries
  }

  function Apply(s: State, op: Op, now: nat): State {
    if !Accepts(s, op) then s
    else State(
      NextEntries(s, op),
      if BumpsServices(s, op) then NextModifiedAt(s.svcModifiedAt, now) else s.svcModifiedAt,
      if BumpsHealth(s, op) then NextModifiedAt(s.healthModifiedAt, now) else s.healthModifiedAt)
  }

  lemma ApplyKeepsValid(s: State, op: Op, now: nat)
    requires ValidState(s)
    ensures ValidState(Apply(s, op, now))
    ensures s.svcModifiedAt <= Apply(s, op, now).svcModifiedAt
    ensures s.healthModifiedAt <= Apply(s, op, now).healthModifiedAt
    ensures BumpsServices(s, op) <==> s.svcModifiedAt < Apply(s, op, now).svcModifiedAt
    ensures BumpsHealth(s, op) <==> s.healthModifiedAt < Apply(s, op, now).healthModifiedAt
  {
  }

  function Stripped(entries: map<string, ServiceEntry>): map<string, ServiceEntry> {
    map n | n in entries :: WithoutHealth(entries[n])
  }

  function Shown(e: ServiceEntry, includeHealth: bool): ServiceEntry {
    if includeHealth then e else WithoutHealth(e)
  }

  /** What `listWithoutHealth` returns. */
  ghost function ListWithoutHealth(s: State): seq<ServiceEntry> {
    Listing(Stripped(s.entries))
  }

  /** What `listHealth` returns. */
  function HealthMap(s: State): HealthTable {
    map n | n in s.entries && s.entries[n].health.Some? :: s.entries[n].health
  }

  /** The stamps never fall, and the service stamp rises if the published list changes. */
  ghost predicate Advances(s: State, t: State) {
    && s.svcModifiedAt <= t.svcModifiedAt
    && s.healthModifiedAt <= t.healthModifiedAt
    && (s.svcModifiedAt == t.svcModifiedAt ==> Stripped(s.entries) == Stripped(t.entries))
  }

  lemma ApplyAdvances(s: State, op: Op, now: nat)
    ensures Advances(s, Apply(s, op, now))
  {
  }

  lemma StaysAdvanced(s: State)
    ensures Advances(s, s)
  {
  }

  class Registry {
    var entries: map<string, ServiceEntry>
    var svcModifiedAt: nat
    var healthModifiedAt: nat

    ghost function Model(): State
      reads this
    {
      State(entries, svcModifiedAt, healthModifiedAt)
    }

    constructor (now: nat)
      ensures Model() == State(map[], Truncate(now), Truncate(now))
      ensures ValidState(Model()) && entries == map[]
      ensures svcModifiedAt == healthModifiedAt <= now < svcModifiedAt + SECOND
    {
      entries := map[];
      svcModifiedAt, healthModifiedAt := Truncate(now), Truncate(now);
    }

    method Add(e: ServiceEntry, now: nat) returns (ok: bool)
      modifies this
      ensures ok == Accepts(old(Model()), Op.Add(e))
      ensures Model() == Apply(old(Model()), Op.Add(e), now)
      ensures ok <==> e.name !in old(entries)
      ensures entries == if ok then old(entries)[e.name := e] else old(entries)
      ensures healthModifiedAt == old(healthModifiedAt)
      ensures if ok then svcModifiedAt > old(svcModifiedAt) else svcModifiedAt == old(svcModifiedAt)
    {
      if e.name in entries {
        return false;
      }
      entries := entries[e.name := e];
      svcModifiedAt := NextModifiedAt(svcModifiedAt, now);
      return true;
    }

    method Remove(name: string, now: nat) returns (ok: bool)
      modifies this
      ensures ok == Accepts(old(Model()), Op.Remove(name))
      ensures Model() == Apply(old(Model()), Op.Remove(name), now)
      ensures ok <==> name in old(entries)
      ensures entries == old(entries) - {name}
      ensures healthModifiedAt == old(healthModifiedAt)
      ensures if ok then svcModifiedAt > old(svcModifiedAt) else svcModifiedAt == old(svcModifiedAt)
    {
      if name !in entries {
        return false;
      }
      entries := entries - {name};
      svcModifiedAt := NextModifiedAt(svcModifiedAt, now);
      return true;
    }

    method Update(e: ServiceEntry, now: nat) returns (ok: bool)
      modifies this
      ensures ok == Accepts(old(Model()), Op.Update(e))
      ensures Model() == Apply(old(Model()), Op.Update(e), now)
      ensures ok <==> e.name in old(entries)
      ensures entries == if ok then old(entries)[e.name := e] else old(entries)
      ensures healthModifiedAt == old(healthModifiedAt)
      ensures if ok then svcModifiedAt > old(svcModifiedAt) else svcModifiedAt == old(svcModifiedAt)
    {
      if e.name !in entries {
        return false;
      }
      entries := entries[e.name := e];
      svcModifiedAt := NextModifiedAt(svcModifiedAt, now);
      return true;
    }

    method UpdateHealth(name: string, h: HealthStatus, now: nat)
      modifies this
      ensures Model() == Apply(old(Model()), Op.UpdateHealth(name, h), now)
      ensures name !in old(entries) ==> Model() == old(Model())
      ensures name in old(entries) ==> entries == old(entries)[name := old(entries)[name].(health := Some(h))]
      ensures svcModifiedAt == old(svcModifiedAt) && healthModifiedAt >= old(healthModifiedAt)
      ensures name in old(entries) ==>
                var was := old(entries)[name].health;
                (healthModifiedAt == old(healthModifiedAt) <==>
                 was.Some? && was.value.status == h.status && was.value.statusCode == h.statusCode
                 && was.value.message == h.message)
    {
      if name !in entries {
        return;
      }
      var e := entries[name];
      var changed :=
        || e.health.None?
        || e.health.value.status != h.status
        || e.health.value.statusCode != h.statusCode
        || e.health.value.message != h.message;
      entries := entries[name := e.(health := Some(h))];
      if changed {
        healthModifiedAt := NextModifiedAt(healthModifiedAt, now);
      }
    }

    method TouchServices(now: nat)
      modifies this
      ensures Model() == Apply(old(Model()), Op.Touch, now)
      ensures entries == old(entries) && healthModifiedAt == old(healthModifiedAt)
      ensures svcModifiedAt > old(svcModifiedAt)
    {
      svcModifiedAt := NextModifiedAt(svcModifiedAt, now);
    }

    /** The entries in whatever order the map gives them. */
    method CollectEntries(includeHealth: bool) returns (out: seq<ServiceEntry>)
      requires KeyedBy(entries, NameOf)
      ensures DistinctKeys(out, NameOf)
      ensures forall n :: n in entries ==> Shown(entries[n], includeHealth) in out
      ensures forall e :: e in out ==> e.name in entries && e == Shown(entries[e.name], includeHealth)
    {
      out := [];
      var todo := entries.Keys;
      while todo != {}
        invariant todo <= entries.Keys
        invariant DistinctKeys(out, NameOf)
        invariant forall n :: n in entries && n !in todo ==> Shown(entries[n], includeHealth) in out
        invariant forall e :: e in out ==>
                    e.name in entries && e.name !in todo && e == Shown(entries[e.name], includeHealth)
        decreases |todo|
      {
        var n :| n in todo;
        var entry := entries[n];
        if !includeHealth {
          entry := entry.(health := None);
        }
        out := out + [entry];
        todo := todo - {n};
      }
    }

    /** Collects the entries, then sorts them by name. */
    method SortedEntries(includeHealth: bool) returns (out: seq<ServiceEntry>)
      requires KeyedBy(entries, NameOf)
      ensures out == Listing(if includeHealth then entries else Stripped(entries))
    {
      out := CollectEntries(includeHealth);
      SortedEnumeration(if includeHealth then entries else Stripped(entries), out, NameOf);
      out := SortBy(out, NameOf);
    }

    method ListHealth() returns (out: HealthTable)
      ensures out == HealthMap(Model())
    {
      out := map[];
      var todo := entries.Keys;
      while todo != {}
        invariant todo <= entries.Keys
        invariant out == map n | n in entries && n !in todo && entries[n].health.Some? :: entries[n].health
        decreases |todo|
      {
        var n :| n in todo;
        if entries[n].health.Some? {
          out := out[n := entries[n].health];
        }
        todo := todo - {n};
      }
    }
  }

  // Runs of one registry lifetime.

  datatype Event = Event(op: Op, now: nat)

  function Run(s: State, events: seq<Event>): State
    decreases |events|
  {
    if events == [] then s else Run(Apply(s, events[0].op, events[0].now), events[1..])
  }

  lemma {:induction false} RunSnoc(s: State, events: seq<Event>, last: Event)
    ensures Run(s, events + [last]) == Apply(Run(s, events), last.op, last.now)
    decreases |events|
  {
    if events == [] {
      assert ([] + [last])[1..] == [];
    } else {
      assert (events + [last])[1..] == events[1..] + [last];
      RunSnoc(Apply(s, events[0].op, events[0].now), events[1..], last);
    }
  }

  /** Whatever other parts of the Agent do to a registry in the meantime. */
  method OthersRun(reg: Registry) returns (ghost events: seq<Event>)
    requires ValidState(reg.Model())
    modifies reg
    ensures ValidState(reg.Model()) && reg.Model() == Run(old(reg.Model()), events)
  {
    events := [];
    var rounds: int := *;
    while rounds > 0
      invariant ValidState(reg.Model()) && reg.Model() == Run(old(reg.Model()), events)
    {
      var op: Op, now: nat := *, *;
      ApplyKeepsValid(reg.Model(), op, now);
      RunSnoc(old(reg.Model()), events, Event(op, now));
      Perform(reg, op, now);
      events := events + [Event(op, now)];
      rounds := rounds - 1;
    }
  }

  method Perform(reg: Registry, op: Op, now: nat)
    modifies reg
    ensures reg.Model() == Apply(old(reg.Model()), op, now)
  {
    match op
    case Add(e) =>
      var _ := reg.Add(e, now);
    case Remove(name) =>
      var _ := reg.Remove(name, now);
    case Update(e) =>
      var _ := reg.Update(e, now);
    case UpdateHealth(name, h) => reg.UpdateHealth(name, h, now);
    case Touch => reg.TouchServices(now);
  }

  /** The clock readings of the events that moved `svcModifiedAt`. */
  function ServiceReadings(s: State, events: seq<Event>): seq<nat>
    decreases |events|
  {
    if events == [] then []
    else
      (if BumpsServices(s, events[0].op) then [events[0].now] else [])
      + ServiceReadings(Apply(s, events[0].op, events[0].now), events[1..])
  }

  /** The clock readings of the events that moved `healthModifiedAt`. */
  function HealthReadings(s: State, events: seq<Event>): seq<nat>
    decreases |events|
  {
    if events == [] then []
    else
      (if BumpsHealth(s, events[0].op) then [events[0].now] else [])
      + HealthReadings(Apply(s, events[0].op, events[0].now), events[1..])
  }

  function StampAfter(stamp: nat, readings: seq<nat>): nat
    decreases |readings|
  {
    if readings == [] then stamp else StampAfter(NextModifiedAt(stamp, readings[0]), readings[1..])
  }

  /** What the stamp would be if the last bump that used its clock reading were number `i`
      (`i == 0`: none did). */
  function Candidate(stamp: nat, readings: seq<nat>, i: nat): nat
    requires i <= |readings|
  {
    (if i == 0 then stamp else Truncate(readings[i - 1])) + (|readings| - i) * SECOND
  }

  /** After n bumps the stamp is the maximum of m0+n and of now_i+(n-i), in whole seconds. */
  lemma {:induction false} StampIsMaximum(stamp: nat, readings: seq<nat>)
    requires stamp % SECOND == 0
    ensures StampAfter(stamp, readings) % SECOND == 0
    ensures forall i :: 0 <= i <= |readings| ==> Candidate(stamp, readings, i) <= StampAfter(stamp, readings)
    ensures exists i :: 0 <= i <= |readings| && Candidate(stamp, readings, i) == StampAfter(stamp, readings)
    decreases |readings|
  {
    if readings == [] {
      assert Candidate(stamp, readings, 0) == stamp;
    } else {
      var next, rest := NextModifiedAt(stamp, readings[0]), readings[1..];
      StampIsMaximum(next, rest);
      forall i | 1 <= i <= |rest|
        ensures Candidate(stamp, readings, i + 1) == Candidate(next, rest, i)
      {
        assert readings[i] == rest[i - 1];
      }
      var j :| 0 <= j <= |rest| && Candidate(next, rest, j) == StampAfter(next, rest);
      var k := if j > 0 then j + 1 else if next == stamp + SECOND then 0 else 1;
      assert Candidate(stamp, readings, k) == Candidate(next, rest, j);
      forall i | 0 <= i <= |readings|
        ensures Candidate(stamp, readings, i) <= StampAfter(stamp, readings)
      {
        if i <= 1 {
          assert Candidate(stamp, readings, i) <= Candidate(next, rest, 0);
        } else {
          assert Candidate(stamp, readings, i) == Candidate(next, rest, i - 1);
        }
      }
    }
  }

  lemma StampAfterCons(stamp: nat, now: nat, rest: seq<nat>)
    ensures StampAfter(stamp, [now] + rest) == StampAfter(NextModifiedAt(stamp, now), rest)
  {
    assert ([now] + rest)[1..] == rest;
  }

  lemma {:induction false} RunStamps(s: State, events: seq<Event>)
    requires ValidState(s)
    ensures ValidState(Run(s, events))
    ensures Run(s, events).svcModifiedAt == StampAfter(s.svcModifiedAt, ServiceReadings(s, events))
    ensures Run(s, events).healthModifiedAt == StampAfter(s.healthModifiedAt, HealthReadings(s, events))
    decreases |events|
  {
    if events != [] {
      ApplyKeepsValid(s, events[0].op, events[0].now);
      var next := Apply(s, events[0].op, events[0].now);
      RunStamps(next, events[1..]);
      StampAfterCons(s.svcModifiedAt, events[0].now, ServiceReadings(next, events[1..]));
      StampAfterCons(s.healthModifiedAt, events[0].now, HealthReadings(next, events[1..]));
      assert [] + ServiceReadings(next, events[1..]) == ServiceReadings(next, events[1..]);
      assert [] + HealthReadings(next, events[1..]) == HealthReadings(next, events[1..]);
    }
  }

  /** A validator issued now is answered 304 later exactly when no bump has happened since. */
  lemma ValidatorIsExact(s: State, events: seq<Event>)
    requires ValidState(s)
    ensures NotModified(Run(s, events).svcModifiedAt, Some(HttpDate(s.svcModifiedAt)))
            <==> ServiceReadings(s, events) == []
    ensures NotModified(Run(s, events).healthModifiedAt, Some(HttpDate(s.healthModifiedAt)))
            <==> HealthReadings(s, events) == []
  {
    RunStamps(s, events);
    StampIsMaximum(s.svcModifiedAt, ServiceReadings(s, events));
    StampIsMaximum(s.healthModifiedAt, HealthReadings(s, events));
    assert Candidate(s.svcModifiedAt, ServiceReadings(s, events), 0) <= Run(s, events).svcModifiedAt;
    assert Candidate(s.healthModifiedAt, HealthReadings(s, events), 0) <= Run(s, events).healthModifiedAt;
  }

  /** The Agent builds every entry it adds or updates without a health result. */
  predicate CarriesNoHealth(op: Op) {
    op.Add? || op.Update? ==> op.entry.health.None?
  }

  /** Equal `svcModifiedAt` at two instants: the same service list. */
  lemma {:induction false} ServicesStampSound(s: State, events: seq<Event>)
    requires ValidState(s)
    requires Run(s, events).svcModifiedAt == s.svcModifiedAt
    ensures Stripped(Run(s, events).entries) == Stripped(s.entries)
    ensures ListWithoutHealth(Run(s, events)) == ListWithoutHealth(s)
    decreases |events|
  {
    if events != [] {
      var next := Apply(s, events[0].op, events[0].now);
      ApplyKeepsValid(s, events[0].op, events[0].now);
      StampsNeverFall(next, events[1..]);
      assert !BumpsServices(s, events[0].op);
      assert Stripped(next.entries) == Stripped(s.entries);
      ServicesStampSound(next, events[1..]);
    }
  }

  lemma {:induction false} StampsNeverFall(s: State, events: seq<Event>)
    requires ValidState(s)
    ensures s.svcModifiedAt <= Run(s, events).svcModifiedAt
    ensures s.healthModifiedAt <= Run(s, events).healthModifiedAt
    decreases |events|
  {
    if events != [] {
      ApplyKeepsValid(s, events[0].op, events[0].now);
      StampsNeverFall(Apply(s, events[0].op, events[0].now), events[1..]);
    }
  }

  /** A list read after its stamp is still right at any later time at which the stamp's date is
      still the present one. */
  lemma LateListIsCurrent(s: State, between: seq<Event>, later: seq<Event>)
    requires ValidState(s)
    requires HttpDate(Run(Run(s, between), later).svcModifiedAt) == HttpDate(s.svcModifiedAt)
    ensures ListWithoutHealth(Run(Run(s, between), later)) == ListWithoutHealth(Run(s, between))
  {
    var t := Run(s, between);
    RunStamps(s, between);
    RunStamps(t, later);
    StampsNeverFall(s, between);
    StampsNeverFall(t, later);
    ServicesStampSound(t, later);
  }

  /** Equal `healthModifiedAt` at two instants: every result present later was present earlier,
      with the same status, status code and message; with both stamps equal no name is lost. */
  lemma {:induction false} HealthStampSound(s: State, events: seq<Event>)
    requires ValidState(s)
    requires forall i :: 0 <= i < |events| ==> CarriesNoHealth(events[i].op)
    requires Run(s, events).healthModifiedAt == s.healthModifiedAt
    ensures forall n :: n in HealthMap(Run(s, events)) ==>
              n in HealthMap(s) && CoreOf(HealthMap(s)[n]) == CoreOf(HealthMap(Run(s, events))[n])
    ensures Run(s, events).svcModifiedAt == s.svcModifiedAt ==>
              HealthMap(Run(s, events)).Keys == HealthMap(s).Keys
    decreases |events|
  {
    if events != [] {
      var next := Apply(s, events[0].op, events[0].now);
      ApplyKeepsValid(s, events[0].op, events[0].now);
      StampsNeverFall(next, events[1..]);
      assert !BumpsHealth(s, events[0].op);
      HealthStampSound(next, events[1..]);
      assert CarriesNoHealth(events[0].op);
      assert forall n :: n in HealthMap(next) ==>
          n in HealthMap(s) && CoreOf(HealthMap(s)[n]) == CoreOf(HealthMap(next)[n]);
    }
  }

  /** Without the hypothesis on the service stamp a health name can vanish unnoticed. */
  lemma HealthStampMissesRemovals(s: State, e: ServiceEntry, h: HealthStatus, now: nat)
    requires ValidState(s) && e.health.None? && e.name !in s.entries
    ensures var before := Run(s, [Event(Op.Add(e), now), Event(Op.UpdateHealth(e.name, h), now)]);
            var after := Run(before, [Event(Op.Update(e), now)]);
            && after.healthModifiedAt == before.healthModifiedAt
            && e.name in HealthMap(before) && e.name !in HealthMap(after)
  {
    var evs := [Event(Op.Add(e), now), Event(Op.UpdateHealth(e.name, h), now)];
    var s1 := Apply(s, Op.Add(e), now);
    assert evs[1..] == [Event(Op.UpdateHealth(e.name, h), now)];
    assert Run(s1, evs[1..]) == Apply(s1, Op.UpdateHealth(e.name, h), now);
    assert Run(s, evs) == Apply(s1, Op.UpdateHealth(e.name, h), now);
  }
}
