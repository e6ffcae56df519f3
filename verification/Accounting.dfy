/** Admission and capacity accounting of one agent (`podmesh-agent/src/service.rs`). */
module Accounting {
  import opened Options
  import opened Quantities
  import opened Records

  const MAX_RESERVATIONS: nat := 1_024
  const MAX_RESERVATIONS_PER_NAMESPACE: nat := 16
  const RESERVATION_TTL_SECS: nat := 30

  /** `refusesUncertain` is true for runtimes that keep the default `cleanup_failed_deploy`. */
  datatype Config = Config(capacity: Size, maxWorkloads: nat, reservedPercent: U32, refusesUncertain: bool)

  /** An accepted admission that has not deployed yet. */
  datatype Reservation = Reservation(namespace: string, workload: string, size: Size, expiresAt: nat)

  function ReservationSize(r: Reservation): Size {
    r.size
  }

  datatype AdmissionRequest = AdmissionRequest(namespace: string, workload: string, size: Size)

  datatype Refusal =
    | StateRequiresRepair
    | AlreadyActive
    | WorkloadLimit
    | ReservationLimit
    | InsufficientCapacity
    | PendingCapacityLimit

  type ActiveMap = map<string, Record>
  type ReservationMap = map<string, Reservation>

  function Limit(size: Size): Usage {
    Usage(size.cpu, size.memory, size.storage)
  }

  /** Reservations that survive the expiry sweep at `now`. */
  function Live(reservations: ReservationMap, now: nat): ReservationMap {
    map id | id in reservations && reservations[id].expiresAt >= now :: reservations[id]
  }

  ghost function Committed(active: ActiveMap, reservations: ReservationMap): Total {
    Sum(active, RecordSize).Plus(Sum(reservations, ReservationSize))
  }

  ghost function ReservedUsage(reservations: ReservationMap): Usage {
    Clamp(Sum(reservations, ReservationSize))
  }

  /** The `u64`-to-`u32` narrowing applied to reserved cpu. */
  function Narrow(u: Usage): Size {
    Size(Min(u.cpu, U32_MAX), u.memory, u.storage)
  }

  ghost function CombinedUsage(active: ActiveMap, reservations: ReservationMap): Usage {
    Clamp(Sum(active, RecordSize)).Plus(Narrow(ReservedUsage(reservations)))
  }

  ghost function UsageWithout(active: ActiveMap, reservations: ReservationMap, workload: string): Usage {
    Clamp(Committed(active - {workload}, reservations))
  }

  function ReservationsFor(reservations: ReservationMap, namespace: string): nat {
    |set id | id in reservations && reservations[id].namespace == namespace|
  }

  predicate Holds(active: ActiveMap, reservations: ReservationMap, quarantined: set<string>, workload: string) {
    || workload in active
    || workload in quarantined
    || exists id | id in reservations :: reservations[id].workload == workload
  }

  function Scale(capacity: U64, percent: U32): U64 {
    Min(capacity * Min(percent, 100) / 100, U64_MAX)
  }

  /** Most capacity that reservations alone may hold. */
  function ReservedCeiling(c: Config): Usage {
    Usage(Scale(c.capacity.cpu, c.reservedPercent), Scale(c.capacity.memory, c.reservedPercent),
          Scale(c.capacity.storage, c.reservedPercent))
  }

  /** The first reason to refuse an admission, or `None` to accept; `reservations` has been swept. */
  ghost function Verdict(c: Config, active: ActiveMap, reservations: ReservationMap,
                         quarantined: set<string>, request: AdmissionRequest): Option<Refusal>
  {
    if quarantined != {} then Some(StateRequiresRepair)
    else if Holds(active, reservations, quarantined, request.workload) then Some(AlreadyActive)
    else if |active| + |reservations| + |quarantined| >= c.maxWorkloads then Some(WorkloadLimit)
    else if |reservations| >= MAX_RESERVATIONS
         || ReservationsFor(reservations, request.namespace) >= MAX_RESERVATIONS_PER_NAMESPACE
    then Some(ReservationLimit)
    else if !CombinedUsage(active, reservations).Plus(request.size).FitsWithin(Limit(c.capacity))
    then Some(InsufficientCapacity)
    else if !ReservedUsage(reservations).Plus(request.size).FitsWithin(ReservedCeiling(c))
    then Some(PendingCapacityLimit)
    else None
  }
}
