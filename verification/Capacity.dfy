/** Capacity over whole runs: what the agent has promised exceeds what it has exactly when a rollback puts
    back sizes that no longer fit.
 */
module Capacity {
  import opened Options
  import opened Quantities
  import opened Records
  import opened Accounting
  import opened AccountingLaws
  import opened Lifecycle
  import opened LifecycleInvariant
  import opened LifecycleRuns

  ghost predicate ServingWithin(c: Config, s: State) {
    s.mode.Up? ==> Committed(s.active, s.reservations).Within(c.capacity.Exact())
  }

  /** The last section of a rollback whose update had asked for less than the workload already held. */
  predicate ShrinkingRollback(task: Task) {
    task.RollbackCommitting? && !task.prior.size.Within(task.request.size)
  }

  /** The step that puts back the sizes an update had replaced. */
  predicate PublishesRollback(s: State, step: Step) {
    && step.Local? && step.event.Publish?
    && step.workload in s.mutations && s.mutations[step.workload].RollbackCommitting?
  }

  /** The test made on the way into an update, made again for the sizes a rollback puts back. */
  ghost predicate PassesRecheck(c: Config, s: State, step: Step) {
    PublishesRollback(s, step) ==>
      UsageWithout(s.active, s.reservations, step.workload).Plus(s.mutations[step.workload].prior.size)
        .FitsWithin(Limit(c.capacity))
  }

  // ---- one workload ----

  /** Serving, a workload's charge never grows by its own steps, that rollback apart. */
  lemma ChargeDoesNotGrow(w: string, v: Slice, v': Slice, e: Event)
    requires Follows(Serving, w, v, v', e)
    requires e.Publish? ==> v.task.Some? && !ShrinkingRollback(v.task.value)
    ensures v'.memory.Some? ==> v.memory.Some? && v'.memory.value.size.Within(v.memory.value.size)
  {
    if v.task.Some? && !OnlyGuards(v.task.value) {
      TaskCharge(w, v);
    }
    hide SliceInv, NeedsCleanup, ShrinkingRollback;
  }

  /** What a working task would write back to `active` is no larger than what is there. */
  lemma TaskCharge(w: string, v: Slice)
    requires SliceInv(Serving, w, v) && v.task.Some? && !OnlyGuards(v.task.value)
    ensures v.memory.Some?
    ensures v.task.value.DeployFailing? ==> v.task.value.stored.size == v.memory.value.size
    ensures Publishes(v.task.value) && Published(v, v.task.value).Some? && !ShrinkingRollback(v.task.value) ==>
              Published(v, v.task.value).value.size.Within(v.memory.value.size)
  {
  }

  // ---- the whole agent ----

  /** Admission alone keeps reservations below the ceiling, whatever else happens. */
  lemma StepReserved(c: Config, s: State, s': State, step: Step)
    requires BelowMax(c) && ReservedWithin(c, s.reservations) && NextStep(c, s, s', step)
    ensures ReservedWithin(c, s'.reservations)
  {
    hide Sum, Scale, ReservedCeiling, Verdict, LocalNext, UsageWithout, DeployBinds;
    NoneReserved();
    if s'.reservations.Keys <= s.reservations.Keys {
      SumMonotone(s'.reservations, s.reservations, ReservationSize);
    } else {
      var live := Live(s.reservations, step.now);
      SumMonotone(live, s.reservations, ReservationSize);
      AcceptedFits(c, s.active, live, s.quarantined, step.request);
      SumInsert(live, ReservationSize, step.id, s'.reservations[step.id]);
    }
  }

  lemma LocalCapacity(c: Config, s: State, s': State, w: string, e: Event)
    requires Inv(c, s) && c.refusesUncertain && LocalStepNext(c, s, s', w, e)
    requires ServingWithin(c, s) && !PublishesRollback(s, Local(w, e))
    ensures ServingWithin(c, s')
  {
    hide SliceInv, LocalNext, Follows, PlacementInv, CountInv, Sum, ShrinkingRollback;
    LocalSlices(c, s, s', w, e);
    if s'.mode.Up? {
      LocalCharges(c, s, s', w, e);
      SumMonotone(s'.active, s.active, RecordSize);
    }
  }

  lemma LocalCharges(c: Config, s: State, s': State, w: string, e: Event)
    requires Slices(s) && c.refusesUncertain && LocalStepNext(c, s, s', w, e) && s.mode.Up?
    requires !PublishesRollback(s, Local(w, e))
    ensures s'.active.Keys <= s.active.Keys
    ensures forall x | x in s'.active :: RecordSize(s'.active[x]).Within(RecordSize(s.active[x]))
  {
    hide Slices, SliceInv, Follows, LocalStepNext, Put;
    LocalSlices(c, s, s', w, e);
    assert KindOf(s.mode) == Serving;
    var v, v' := View(s, w), View(s', w);
    PublishHasTask(w, v, v', e);
    hide LocalNext;
    ChargeDoesNotGrow(w, v, v', e);
    forall x | x in s'.active ensures x in s.active && s'.active[x].size.Within(s.active[x].size) {
      if x != w {
        assert View(s', x).memory == View(s, x).memory;
      }
    }
  }

  lemma PublishHasTask(w: string, v: Slice, v': Slice, e: Event)
    requires Follows(Serving, w, v, v', e)
    ensures e.Publish? ==> v.task.Some?
  {
  }

  lemma AdmitCapacity(c: Config, s: State, s': State, request: AdmissionRequest, now: nat, id: string)
    requires BelowMax(c) && ReservedWithin(c, s.reservations) && ServingWithin(c, s)
    requires AdmitNext(c, s, s', request, now, id)
    ensures ServingWithin(c, s')
  {
    hide Sum, Scale, ReservedCeiling, Verdict;
    var live := Live(s.reservations, now);
    SumMonotone(live, s.reservations, ReservationSize);
    if s'.reservations != live {
      AcceptedFits(c, s.active, live, s.quarantined, request);
      SumInsert(live, ReservationSize, id, s'.reservations[id]);
    }
  }

  lemma SweepCapacity(c: Config, s: State, now: nat)
    requires ServingWithin(c, s)
    ensures ServingWithin(c, s.(reservations := Live(s.reservations, now)))
  {
    hide Sum;
    SumMonotone(Live(s.reservations, now), s.reservations, ReservationSize);
  }

  /** A deploy moves a reservation's size into `active`, or drops it. */
  lemma DeployCapacity(s: State, s': State, w: string, now: nat, measured: Option<Size>, saved: bool)
    requires TaskNames(s, w) && DeployStartNext(s, s', w, now, measured, saved)
    ensures Committed(s'.active, s'.reservations).Within(Committed(s.active, s.reservations))
  {
    hide Sum;
    var id := s.mutations[w].grant.reservation;
    SumMonotone(s'.reservations, s.reservations, ReservationSize);
    if w in s'.mutations {
      SumPick(s.reservations, ReservationSize, id);
      SumInsert(s.active, RecordSize, w, s'.active[w]);
    }
  }

  /** Replacing one charge: the test `update_inner` makes is exact. */
  lemma ReplacementFits(c: Config, active: ActiveMap, reservations: ReservationMap, w: string, r: Record)
    requires BelowMax(c) && w in active
    ensures UsageWithout(active, reservations, w).Plus(r.size).FitsWithin(Limit(c.capacity))
            <==> Committed(active[w := r], reservations).Within(c.capacity.Exact())
  {
    hide Sum;
    var rest := active - {w};
    ClampPlus(Committed(rest, reservations), r.size);
    FitsExactly(c, Committed(rest, reservations).Plus(r.size.Exact()));
    SumInsert(rest, RecordSize, w, r);
    assert rest[w := r] == active[w := r];
  }

  lemma UpdateCapacity(c: Config, s: State, s': State, w: string, saved: bool)
    requires BelowMax(c) && ServingWithin(c, s) && UpdateStartNext(c, s, s', w, saved)
    ensures ServingWithin(c, s')
  {
    hide Committed, UsageWithout;
    if w in s'.mutations {
      ReplacementFits(c, s.active, s.reservations, w, s'.active[w]);
    }
  }

  /** A rollback keeps the agent within capacity exactly when the test made on the way into the update
      would pass for the old sizes too; the code does not make it again. */
  lemma RollbackNeedsRecheck(c: Config, s: State, s': State, w: string)
    requires BelowMax(c) && Inv(c, s) && LocalStepNext(c, s, s', w, Publish)
    requires w in s.mutations && s.mutations[w].RollbackCommitting?
    ensures Committed(s'.active, s'.reservations).Within(c.capacity.Exact())
            <==> UsageWithout(s.active, s.reservations, w).Plus(s.mutations[w].prior.size)
                   .FitsWithin(Limit(c.capacity))
  {
    hide Committed, UsageWithout, Inv, LocalStepNext;
    WorkingTaskIsActive(c, s, w);
    RollbackPublishes(c, s, s', w);
    ReplacementFits(c, s.active, s.reservations, w, s.mutations[w].prior);
  }

  lemma WorkingTaskIsActive(c: Config, s: State, w: string)
    requires Inv(c, s) && w in s.mutations && s.mutations[w].RollbackCommitting?
    ensures w in s.active
  {
    InstantiateSlice(s, w);
    assert View(s, w).task == Some(s.mutations[w]);
  }

  lemma RollbackPublishes(c: Config, s: State, s': State, w: string)
    requires LocalStepNext(c, s, s', w, Publish) && w in s.mutations && s.mutations[w].RollbackCommitting?
    ensures s'.active == s.active[w := s.mutations[w].prior] && s'.reservations == s.reservations
  {
  }

  /** The check that ends a restore is exact. */
  lemma RestoredFitsExactly(c: Config, s: State)
    requires BelowMax(c)
    ensures RestoredFits(c, s) <==> Sum(s.active, RecordSize).Within(c.capacity.Exact())
  {
    hide Sum, Scale, ReservedCeiling;
    NoneReserved();
    NarrowingExact(c, s.active, map[]);
    FitsExactly(c, Committed(s.active, map[]));
  }

  lemma RestoredCommits(c: Config, s: State)
    requires BelowMax(c) && RestoredFits(c, s)
    ensures Committed(s.active, map[]).Within(c.capacity.Exact())
  {
    hide Sum, RestoredFits;
    RestoredFitsExactly(c, s);
    NoneReserved();
  }

  lemma StepCapacity(c: Config, s: State, s': State, step: Step)
    requires Inv(c, s) && c.refusesUncertain && BelowMax(c) && NextStep(c, s, s', step)
    requires ReservedWithin(c, s.reservations) && ServingWithin(c, s) && PassesRecheck(c, s, step)
    ensures ServingWithin(c, s')
  {
    hide Slices, AdmitNext, DeployStartNext, UpdateStartNext, LocalStepNext, RestoredFits, Committed,
         CountInv, ReservedWithin, UsageWithout;
    match step
    case Admit(request, now, id) => AdmitCapacity(c, s, s', request, now, id);
    case Sweep(now) => SweepCapacity(c, s, now);
    case Acquire(w, task) =>
    case DeployStart(w, now, measured, saved) =>
      GuardNames(s, w);
      DeployStartFrame(s, s', w, now, measured, saved);
      DeployCapacity(s, s', w, now, measured, saved);
    case UpdateStart(w, saved) => UpdateCapacity(c, s, s', w, saved);
    case Local(w, e) =>
      if PublishesRollback(s, step) {
        RollbackNeedsRecheck(c, s, s', w);
      } else {
        LocalCapacity(c, s, s', w, e);
      }
    case Crash =>
    case BootFailed =>
    case Boot(_) =>
    case RestoreDone => RestoredCommits(c, s);
    case RestoreRefused =>
  }

  /** A rollback of an update that had not asked for less always passes. */
  lemma OnlyShrinkingRollbacksFail(c: Config, s: State, step: Step)
    requires Inv(c, s) && s.mode.Up? && BelowMax(c) && ServingWithin(c, s) && PublishesRollback(s, step)
    requires !ShrinkingRollback(s.mutations[step.workload])
    ensures PassesRecheck(c, s, step)
  {
    hide Sum, UsageWithout, Slices, PlacementInv, CountInv;
    var w := step.workload;
    var prior := s.mutations[w].prior;
    WorkingTaskIsActive(c, s, w);
    RollbackCharge(c, s, w);
    ReplacementFits(c, s.active, s.reservations, w, prior);
    SumMonotone(s.active[w := prior], s.active, RecordSize);
  }

  lemma RollbackCharge(c: Config, s: State, w: string)
    requires Inv(c, s) && s.mode.Up? && w in s.mutations && s.mutations[w].RollbackCommitting? && w in s.active
    ensures s.active[w].size == s.mutations[w].request.size
  {
    InstantiateSlice(s, w);
    assert View(s, w).task == Some(s.mutations[w]) && View(s, w).memory == Some(s.active[w]);
  }

  /** At every point of the run what is active and reserved fits. */
  ghost predicate WithinThroughout(c: Config, run: Run) {
    match run
    case Begin => true
    case After(before, _, state) => WithinThroughout(c, before) && ServingWithin(c, state)
  }

  ghost predicate AllRechecksPass(c: Config, run: Run) {
    match run
    case Begin => true
    case After(before, step, _) => AllRechecksPass(c, before) && PassesRecheck(c, Last(before), step)
  }

  /** In every run reservations hold at most the floor of their share of capacity. */
  lemma {:induction false} ReservedStaysBelowCeiling(c: Config, run: Run)
    requires Valid(c, run) && BelowMax(c)
    ensures ReservedWithin(c, Last(run).reservations)
  {
    hide NextStep, ReservedCeiling;
    match run
    case Begin => NoneReserved();
    case After(before, step, state) =>
      ReservedStaysBelowCeiling(c, before);
      StepReserved(c, Last(before), state, step);
  }

  /** A run keeps active plus reserved resources within capacity throughout if and only if every rollback it
      publishes passes the test again. */
  lemma {:induction false} CapacityRespected(c: Config, run: Run)
    requires Valid(c, run) && c.refusesUncertain && BelowMax(c)
    ensures WithinThroughout(c, run) <==> AllRechecksPass(c, run)
    ensures AllRechecksPass(c, run) && Last(run).mode.Up? ==>
              Committed(Last(run).active, Last(run).reservations).Within(c.capacity.Exact())
  {
    hide NextStep, Committed, Inv, PassesRecheck, ReservedWithin;
    match run
    case Begin =>
    case After(before, step, state) =>
      CapacityRespected(c, before);
      InvariantHolds(c, before);
      ReservedStaysBelowCeiling(c, before);
      if PassesRecheck(c, Last(before), step) {
        if WithinThroughout(c, before) {
          LastWithin(c, before);
          StepCapacity(c, Last(before), state, step);
        }
      } else {
        RecheckFails(c, Last(before), state, step);
      }
  }

  lemma LastWithin(c: Config, run: Run)
    requires WithinThroughout(c, run)
    ensures ServingWithin(c, Last(run))
  {
    hide Committed;
  }

  lemma RecheckFails(c: Config, s: State, s': State, step: Step)
    requires Inv(c, s) && BelowMax(c) && NextStep(c, s, s', step) && !PassesRecheck(c, s, step)
    ensures !ServingWithin(c, s')
  {
    hide Inv, LocalStepNext, Committed, UsageWithout;
    RollbackNeedsRecheck(c, s, s', step.workload);
    PublishServes(c, s, s', step.workload);
  }

  lemma PublishServes(c: Config, s: State, s': State, w: string)
    requires LocalStepNext(c, s, s', w, Publish)
    ensures s'.mode.Up?
  {
    hide LocalNext;
  }

  /** On every state such a run reaches, offers and admissions agree. */
  lemma OffersAgreeWithAdmissions(c: Config, run: Run, request: AdmissionRequest, now: nat)
    requires Valid(c, run) && c.refusesUncertain && BelowMax(c) && AllRechecksPass(c, run) && Last(run).mode.Up?
    ensures var s := Last(run);
            var live := Live(s.reservations, now);
            var verdict := Verdict(c, s.active, live, s.quarantined, request);
            var offered := CanOffer(c, s.active, live, s.quarantined, request.size);
            && (verdict.None? ==> offered)
            && (offered && !Holds(s.active, live, s.quarantined, request.workload) ==>
                  verdict in {None, Some(ReservationLimit), Some(PendingCapacityLimit)})
  {
    hide Valid, Sum, Verdict, CanOffer, Holds, ReservedCeiling, AllRechecksPass;
    var s := Last(run);
    var live := Live(s.reservations, now);
    CapacityRespected(c, run);
    ReservedStaysBelowCeiling(c, run);
    SumMonotone(live, s.reservations, ReservationSize);
    if Verdict(c, s.active, live, s.quarantined, request).None? {
      AcceptedWasOfferable(c, s.active, live, s.quarantined, request);
    }
    if CanOffer(c, s.active, live, s.quarantined, request.size)
       && !Holds(s.active, live, s.quarantined, request.workload) {
      OfferIsHonoured(c, s.active, live, s.quarantined, request);
    }
  }
}
