/** Laws of the capacity arithmetic: saturation and narrowing lose nothing on the states the agent
    reaches, and offers agree with admissions.
 */
module AccountingLaws {
  import opened Options
  import opened Quantities
  import opened Records
  import opened Accounting

  /** Capacities a saturating counter can tell apart from overflow; cpu always is. */
  predicate BelowMax(c: Config) {
    c.capacity.memory < U64_MAX && c.capacity.storage < U64_MAX
  }

  lemma NoneActive()
    ensures Sum<string, Record>(map[], RecordSize) == ZERO
  {
  }

  lemma NoneReserved()
    ensures Sum<string, Reservation>(map[], ReservationSize) == ZERO
  {
  }

  /** Adding to a saturated counter is saturating the exact sum. */
  lemma ClampPlus(t: Total, size: Size)
    ensures Clamp(t).Plus(size) == Clamp(t.Plus(size.Exact()))
  {
  }

  /** The saturated comparison is the exact one for every sum if and only if no capacity is `u64::MAX`. */
  lemma SaturationExact(c: Config)
    ensures BelowMax(c) <==> forall t: Total :: Clamp(t).FitsWithin(Limit(c.capacity)) <==> t.Within(c.capacity.Exact())
  {
    if BelowMax(c) {
      forall t: Total ensures Clamp(t).FitsWithin(Limit(c.capacity)) <==> t.Within(c.capacity.Exact()) {
        FitsExactly(c, t);
      }
    } else {
      var over := Total(0, if c.capacity.memory == U64_MAX then U64_MAX + 1 else 0,
                        if c.capacity.storage == U64_MAX then U64_MAX + 1 else 0);
      assert Clamp(over).FitsWithin(Limit(c.capacity)) && !over.Within(c.capacity.Exact());
    }
  }

  lemma FitsExactly(c: Config, t: Total)
    requires BelowMax(c)
    ensures Clamp(t).FitsWithin(Limit(c.capacity)) <==> t.Within(c.capacity.Exact())
  {
  }

  lemma ScaleFloor(capacity: U64, percent: U32)
    ensures Scale(capacity, percent) == capacity * Min(percent, 100) / 100
    ensures Scale(capacity, percent) <= capacity
    ensures percent >= 100 ==> Scale(capacity, percent) == capacity
  {
    var share := Min(percent, 100);
    assert capacity * share <= capacity * 100 by {
      assert capacity * (100 - share) >= 0;
    }
    assert capacity * 100 / 100 == capacity;
  }

  /** The reserved ceiling is the exact floor of the share, and at most the capacity. */
  lemma CeilingExact(c: Config)
    ensures var share := Min(c.reservedPercent, 100);
            && ReservedCeiling(c).cpu == c.capacity.cpu * share / 100
            && ReservedCeiling(c).memory == c.capacity.memory * share / 100
            && ReservedCeiling(c).storage == c.capacity.storage * share / 100
    ensures ReservedCeiling(c).FitsWithin(Limit(c.capacity))
  {
    ScaleFloor(c.capacity.cpu, c.reservedPercent);
    ScaleFloor(c.capacity.memory, c.reservedPercent);
    ScaleFloor(c.capacity.storage, c.reservedPercent);
  }

  lemma CeilingBelowCapacity(c: Config)
    ensures ReservedCeiling(c).FitsWithin(Limit(c.capacity))
  {
    CeilingExact(c);
  }

  /** What every reachable set of reservations satisfies (see `Capacity.ReservedStaysBelowCeiling`). */
  ghost predicate ReservedWithin(c: Config, reservations: ReservationMap) {
    var t := Sum(reservations, ReservationSize);
    var ceiling := ReservedCeiling(c);
    t.cpu <= ceiling.cpu && t.memory <= ceiling.memory && t.storage <= ceiling.storage
  }

  /** Below the ceiling, narrowing reserved cpu to `u32` changes nothing. */
  lemma NarrowingExact(c: Config, active: ActiveMap, reservations: ReservationMap)
    requires ReservedWithin(c, reservations)
    ensures CombinedUsage(active, reservations) == Clamp(Committed(active, reservations))
  {
    hide Scale, ReservedCeiling, Sum;
    CeilingBelowCapacity(c);
    var reserved := Sum(reservations, ReservationSize);
    assert Narrow(ReservedUsage(reservations)).Exact() == reserved;
    ClampPlus(Sum(active, RecordSize), Narrow(ReservedUsage(reservations)));
  }

  /** An admission is accepted exactly when nothing is quarantined, nothing holds the workload, there is room for one
      more workload and reservation, in all and for the namespace, and it fits: in total within capacity, and with
      the other reservations within the floor of their share.  Otherwise it is refused for the first of these that
      fails. */
  lemma AdmittedExactly(c: Config, active: ActiveMap, reservations: ReservationMap, quarantined: set<string>,
                        request: AdmissionRequest)
    requires BelowMax(c) && ReservedWithin(c, reservations)
    ensures var running, reserved := Sum(active, RecordSize), Sum(reservations, ReservationSize);
            var share := Min(c.reservedPercent, 100);
            var size := request.size;
            var free := && request.workload !in active
                        && forall id | id in reservations :: reservations[id].workload != request.workload;
            var oneMore := && |reservations| < 1024
                           && |set id | id in reservations && reservations[id].namespace == request.namespace| < 16;
            var fits := && running.cpu + reserved.cpu + size.cpu <= c.capacity.cpu
                        && running.memory + reserved.memory + size.memory <= c.capacity.memory
                        && running.storage + reserved.storage + size.storage <= c.capacity.storage;
            var fitsShare := && reserved.cpu + size.cpu <= c.capacity.cpu * share / 100
                             && reserved.memory + size.memory <= c.capacity.memory * share / 100
                             && reserved.storage + size.storage <= c.capacity.storage * share / 100;
            Verdict(c, active, reservations, quarantined, request) ==
              if quarantined != {} then Some(StateRequiresRepair)
              else if !free then Some(AlreadyActive)
              else if |active| + |reservations| >= c.maxWorkloads then Some(WorkloadLimit)
              else if !oneMore then Some(ReservationLimit)
              else if !fits then Some(InsufficientCapacity)
              else if !fitsShare then Some(PendingCapacityLimit)
              else None
  {
    hide Scale, ReservedCeiling, Sum;
    NarrowingExact(c, active, reservations);
    var all := Committed(active, reservations).Plus(request.size.Exact());
    var pending := Sum(reservations, ReservationSize).Plus(request.size.Exact());
    ClampPlus(Committed(active, reservations), request.size);
    FitsExactly(c, all);
    ClampPlus(Sum(reservations, ReservationSize), request.size);
    CeilingExact(c);
    assert Clamp(pending).FitsWithin(ReservedCeiling(c)) <==>
           pending.cpu <= ReservedCeiling(c).cpu && pending.memory <= ReservedCeiling(c).memory
           && pending.storage <= ReservedCeiling(c).storage by { BelowCeiling(c, pending); }
  }

  lemma BelowCeiling(c: Config, t: Total)
    requires BelowMax(c)
    ensures var ceiling := ReservedCeiling(c);
            Clamp(t).FitsWithin(ceiling) <==>
            t.cpu <= ceiling.cpu && t.memory <= ceiling.memory && t.storage <= ceiling.storage
  {
    hide Scale, ReservedCeiling;
    CeilingBelowCapacity(c);
  }

  /** A reservation counts until it expires, and no longer. */
  lemma ExpiredDoNotCount(reservations: ReservationMap, now: nat, id: string)
    ensures id in Live(reservations, now) <==> id in reservations && now <= reservations[id].expiresAt
    ensures (forall x | x in reservations :: reservations[x].expiresAt < now) ==> Live(reservations, now) == map[]
    ensures (forall x | x in reservations :: now <= reservations[x].expiresAt) ==>
              Live(reservations, now) == reservations
  {
  }

  /** An accepted admission fits exactly, in total and below the reserved ceiling. */
  lemma AcceptedFits(c: Config, active: ActiveMap, reservations: ReservationMap, quarantined: set<string>,
                     request: AdmissionRequest)
    requires BelowMax(c) && ReservedWithin(c, reservations)
    requires Verdict(c, active, reservations, quarantined, request).None?
    ensures Committed(active, reservations).Plus(request.size.Exact()).Within(c.capacity.Exact())
    ensures var t := Sum(reservations, ReservationSize).Plus(request.size.Exact());
            var ceiling := ReservedCeiling(c);
            t.cpu <= ceiling.cpu && t.memory <= ceiling.memory && t.storage <= ceiling.storage
  {
    hide Scale, ReservedCeiling, Sum;
    NarrowingExact(c, active, reservations);
    ClampPlus(Committed(active, reservations), request.size);
    FitsExactly(c, Committed(active, reservations).Plus(request.size.Exact()));
    ClampPlus(Sum(reservations, ReservationSize), request.size);
    CeilingBelowCapacity(c);
  }

  /** Room the agent advertises: `capacity_offer`'s saturating differences. */
  ghost function Available(c: Config, active: ActiveMap, reservations: ReservationMap): Usage {
    var usage := CombinedUsage(active, reservations);
    Usage(SaturatingSub(c.capacity.cpu, usage.cpu), SaturatingSub(c.capacity.memory, usage.memory),
          SaturatingSub(c.capacity.storage, usage.storage))
  }

  /** Whether `capacity_offer` makes an offer, leaving aside exclusions and capabilities. */
  ghost predicate CanOffer(c: Config, active: ActiveMap, reservations: ReservationMap, quarantined: set<string>,
                           size: Size)
  {
    && quarantined == {}
    && |active| + |reservations| < c.maxWorkloads
    && Limit(size).FitsWithin(Available(c, active, reservations))
  }

  /** Reservations cannot push advertised room below capacity minus running work minus the ceiling. */
  lemma AdvertisedRoomIsBounded(c: Config, active: ActiveMap, reservations: ReservationMap)
    requires ReservedWithin(c, reservations)
    ensures var room := Available(c, active, reservations);
            var running := Sum(active, RecordSize);
            var ceiling := ReservedCeiling(c);
            && room.cpu as int >= c.capacity.cpu as int - running.cpu - ceiling.cpu
            && room.memory as int >= c.capacity.memory as int - running.memory - ceiling.memory
            && room.storage as int >= c.capacity.storage as int - running.storage - ceiling.storage
  {
    hide Scale, ReservedCeiling, Sum;
    NarrowingExact(c, active, reservations);
  }

  /** An offer means an immediate admission of a fresh workload of that size can be refused only by the
      reservation-count or pending-capacity limits. */
  lemma OfferIsHonoured(c: Config, active: ActiveMap, reservations: ReservationMap, quarantined: set<string>,
                        request: AdmissionRequest)
    requires BelowMax(c) && ReservedWithin(c, reservations)
    requires Committed(active, reservations).Within(c.capacity.Exact())
    requires !Holds(active, reservations, quarantined, request.workload)
    requires CanOffer(c, active, reservations, quarantined, request.size)
    ensures Verdict(c, active, reservations, quarantined, request)
            in {None, Some(ReservationLimit), Some(PendingCapacityLimit)}
  {
    hide Scale, ReservedCeiling, Sum;
    NarrowingExact(c, active, reservations);
    ClampPlus(Committed(active, reservations), request.size);
    FitsExactly(c, Committed(active, reservations).Plus(request.size.Exact()));
  }

  /** Any accepted admission is one an offer would have been made for. */
  lemma AcceptedWasOfferable(c: Config, active: ActiveMap, reservations: ReservationMap, quarantined: set<string>,
                             request: AdmissionRequest)
    requires BelowMax(c) && ReservedWithin(c, reservations)
    requires Verdict(c, active, reservations, quarantined, request).None?
    ensures CanOffer(c, active, reservations, quarantined, request.size)
  {
    hide Scale, ReservedCeiling, Sum;
    AcceptedFits(c, active, reservations, quarantined, request);
    NarrowingExact(c, active, reservations);
    FitsExactly(c, Committed(active, reservations).Plus(request.size.Exact()));
  }
}
