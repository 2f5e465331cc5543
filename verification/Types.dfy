/**
 Entities shared by the Agent and Central, as exchanged by their HTTP endpoints.
 Go strings are byte strings: a `char` stands for one byte.
 */
module Types {
  datatype Option<+T> = None | Some(value: T)

  datatype Result<+T, +E> = Ok(value: T) | Err(error: E)

  datatype ServiceKind = TypeStatic | TypeBucket | TypeProxy

  datatype HealthState = Unknown | Healthy | Unhealthy

  datatype HealthStatus = HealthStatus(
    status: HealthState,
    checkURL: string,
    lastCheck: Option<nat>,
    statusCode: int,
    message: string)

  /** The part of a health result whose change counts as a change. */
  datatype HealthCore = HealthCore(status: HealthState, statusCode: int, message: string)

  function Core(h: HealthStatus): HealthCore {
    HealthCore(h.status, h.statusCode, h.message)
  }

  function CoreOf(h: Option<HealthStatus>): Option<HealthCore> {
    if h.Some? then Some(Core(h.value)) else None
  }

  /** The health results by service name, as `/api/v1/services/health` sends them; a `None`
      value stands for a JSON null. */
  type HealthTable = map<string, Option<HealthStatus>>

  datatype SDTarget = SDTarget(targets: seq<string>, labels: map<string, string>)

  datatype ServiceEntry = ServiceEntry(
    name: string,
    kind: ServiceKind,
    target: SDTarget,
    health: Option<HealthStatus>)

  /** The entry as `/api/v1/services` publishes it. */
  function WithoutHealth(e: ServiceEntry): ServiceEntry {
    e.(health := None)
  }

  function StripHealth(es: seq<ServiceEntry>): (r: seq<ServiceEntry>)
    ensures |r| == |es|
    ensures forall i :: 0 <= i < |es| ==> r[i] == WithoutHealth(es[i])
  {
    seq(|es|, i requires 0 <= i < |es| => WithoutHealth(es[i]))
  }
}
