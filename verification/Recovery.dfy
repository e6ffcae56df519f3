/** Restart recovery converges.

    `Settle` is what one clean restore makes of a store.  No step of any restore, successful or not,
    changes what its store settles to; and a restore whose calls all succeed leaves the settled store.
 */
module Recovery {
  import opened Options
  import opened Records
  import opened Accounting
  import opened Lifecycle
  import opened LifecycleInvariant
  import opened LifecycleRuns

  /** Whether a clean restore keeps a record.  The runtime refuses to clean up an uncertain creation. */
  predicate Kept(r: Record) {
    if NeedsCleanup(r) then !Accepts(true, r.phase) else !r.deleting
  }

  /** What a clean restore makes of a record it keeps. */
  function Settled(r: Record): Record {
    if r.phase.Updating? then Applied(r) else r
  }

  function Settle(store: map<string, Record>): map<string, Record> {
    map w | w in store && Kept(store[w]) :: Settled(store[w])
  }

  lemma SettleIdempotent(store: map<string, Record>)
    requires forall w | w in store :: WellFormed(w, store[w])
    ensures Settle(Settle(store)) == Settle(store)
  {
    assert forall w | w in Settle(store) :: !Settled(store[w]).phase.Updating?;
  }

  // ---- restores that may fail ----

  /** Steps of restoring, crashing and failing to start, and late effects of earlier requests. */
  predicate RecoveryStep(step: Step) {
    || step.Boot? || step.BootFailed? || step.Crash? || step.RestoreDone? || step.RestoreRefused?
    || (step.Local? && (step.event.RestorePick? || step.event.RestoreReturn? || step.event.Land?
                        || step.event.Vanish? || step.event.LateLand? || step.event.LateGone?))
  }

  predicate AllRecovery(trail: Trail) {
    match trail
    case Here => true
    case Onward(before, step, _) => AllRecovery(before) && RecoveryStep(step)
  }

  /** What a durable copy settles to. */
  function SettledCopy(disk: Option<Record>): Option<Record> {
    if disk.Some? && Kept(disk.value) then Some(Settled(disk.value)) else None
  }

  lemma LocalSettles(kind: Kind, w: string, v: Slice, v': Slice, e: Event)
    requires Follows(kind, w, v, v', e) && RecoveryStep(Local(w, e))
    ensures SettledCopy(v'.disk) == SettledCopy(v.disk)
  {
  }

  /** No recovery step changes what the store settles to. */
  lemma StepSettles(c: Config, s: State, s': State, step: Step)
    requires Inv(c, s) && c.refusesUncertain && NextStep(c, s, s', step) && RecoveryStep(step)
    ensures Settle(s'.store) == Settle(s.store)
  {
    hide Inv, LocalStepNext, RestoredFits, Kept, Settled;
    if step.Local? {
      LocalStepSettles(c, s, s', step.workload, step.event);
    }
  }

  lemma LocalStepSettles(c: Config, s: State, s': State, w: string, e: Event)
    requires Inv(c, s) && c.refusesUncertain && LocalStepNext(c, s, s', w, e) && RecoveryStep(Local(w, e))
    ensures Settle(s'.store) == Settle(s.store)
  {
    hide LocalStepNext, Slices, PlacementInv, CountInv, Kept, Settled, Follows;
    LocalSlices(c, s, s', w, e);
    LocalSettles(KindOf(s.mode), w, View(s, w), View(s', w), e);
    forall x ensures SettledCopy(View(s', x).disk) == SettledCopy(View(s, x).disk) {
    }
    SettlesPointwise(s, s');
  }

  lemma SettlesPointwise(s: State, s': State)
    requires forall x :: SettledCopy(View(s', x).disk) == SettledCopy(View(s, x).disk)
    ensures Settle(s'.store) == Settle(s.store)
  {
    hide Kept, Settled;
    forall x ensures (x in Settle(s.store) <==> x in Settle(s'.store))
      ensures x in Settle(s.store) ==> Settle(s'.store)[x] == Settle(s.store)[x]
    {
      assert SettledCopy(View(s', x).disk) == SettledCopy(View(s, x).disk);
    }
  }

  lemma {:induction false} RecoverySettles(c: Config, s: State, trail: Trail)
    requires Inv(c, s) && c.refusesUncertain && Follow(c, s, trail) && AllRecovery(trail)
    ensures Inv(c, End(s, trail))
    ensures Settle(End(s, trail).store) == Settle(s.store)
  {
    hide Inv, NextStep, Settle;
    match trail
    case Here =>
    case Onward(before, step, state) =>
      RecoverySettles(c, s, before);
      StepKeeps(c, End(s, before), state, step);
      StepSettles(c, End(s, before), state, step);
  }

  // ---- a restore whose calls all succeed ----

  predicate CleanStep(step: Step) {
    match step
    case Local(_, RestorePick(plan)) => !plan.GiveUp?
    case Local(_, RestoreReturn(ok, saved)) => ok && saved
    case Local(_, e) => e.Land? || e.Vanish? || e.LateLand? || e.LateGone?
    case Boot(unreadable) => unreadable == {}
    case _ => false
  }

  /** Every record is readable and every store and runtime call succeeds. */
  predicate CleanTrail(trail: Trail) {
    match trail
    case Here => true
    case Onward(before, step, _) => CleanTrail(before) && CleanStep(step)
  }

  /** Nothing left to do for a record: it is kept, settled, charged, and its pod runs what it grants. */
  predicate Reconciled(v: Slice) {
    && v.disk.Some? && Kept(v.disk.value) && Settled(v.disk.value) == v.disk.value
    && v.memory == v.disk
    && (!NeedsCleanup(v.disk.value) ==> v.pod == Some(v.disk.value.grant.revision))
  }

  predicate SliceClean(v: Slice) {
    && !v.quarantined
    && (v.task.Some? ==> !v.task.value.RestoreUndoing?)
    && (v.disk.Some? && v.queued.None? && v.task.None? ==> Reconciled(v))
  }

  ghost predicate Clean(s: State) {
    s.mode.Restoring? && forall w :: SliceClean(View(s, w))
  }

  lemma CleanSliceStep(w: string, v: Slice, v': Slice, e: Event)
    requires Follows(Starting, w, v, v', e) && SliceClean(v)
    requires e.RestorePick? || e.RestoreReturn? || e.Land? || e.Vanish? || e.LateLand? || e.LateGone?
    requires e.RestorePick? ==> !e.plan.GiveUp?
    requires e.RestoreReturn? ==> e.ok && e.saved
    ensures SliceClean(v')
  {
  }

  lemma CleanLocal(c: Config, s: State, s': State, w: string, e: Event)
    requires Slices(s) && c.refusesUncertain && LocalStepNext(c, s, s', w, e)
    requires Clean(s) && CleanStep(Local(w, e))
    ensures Clean(s')
  {
    hide Slices, LocalStepNext, SliceClean, Follows;
    LocalSlices(c, s, s', w, e);
    assert SliceClean(View(s, w));
    assert KindOf(s.mode) == Starting;
    CleanSliceStep(w, View(s, w), View(s', w), e);
    forall x ensures SliceClean(View(s', x)) {
      assert SliceClean(View(s, x));
    }
  }

  lemma CleanBoot(c: Config, s: State, s': State)
    requires Slices(s) && BootNext(c, s, s', {})
    ensures Clean(s')
  {
    forall w ensures SliceClean(View(s', w)) {
      InstantiateSlice(s, w);
    }
  }

  lemma {:induction false} CleanHolds(c: Config, s: State, trail: Trail)
    requires Inv(c, s) && c.refusesUncertain && s.mode.Down?
    requires Follow(c, s, trail) && CleanTrail(trail)
    ensures End(s, trail).mode.Down? || Clean(End(s, trail))
    ensures Inv(c, End(s, trail)) && Settle(End(s, trail).store) == Settle(s.store)
  {
    CleanIsRecovery(trail);
    RecoverySettles(c, s, trail);
    match trail
    case Here =>
    case Onward(before, step, state) =>
      CleanHolds(c, s, before);
      CleanStepHolds(c, End(s, before), state, step);
  }

  lemma CleanStepHolds(c: Config, s: State, s': State, step: Step)
    requires Inv(c, s) && c.refusesUncertain && NextStep(c, s, s', step) && CleanStep(step)
    requires s.mode.Down? || Clean(s)
    ensures s'.mode.Down? || Clean(s')
  {
    hide Slices, LocalStepNext, BootNext, Clean;
    if step.Boot? {
      CleanBoot(c, s, s');
    } else if s.mode.Down? {
      StoppedStays(c, s, s', step.workload, step.event);
    } else {
      CleanLocal(c, s, s', step.workload, step.event);
    }
  }

  lemma StoppedStays(c: Config, s: State, s': State, w: string, e: Event)
    requires s.mode.Down? && LocalStepNext(c, s, s', w, e)
    ensures s'.mode.Down?
  {
    hide LocalNext;
  }

  lemma {:induction false} CleanIsRecovery(trail: Trail)
    requires CleanTrail(trail)
    ensures AllRecovery(trail)
  {
    match trail
    case Here =>
    case Onward(before, step, _) => CleanIsRecovery(before);
  }

  /** The end of a clean restore: the settled store, in memory and running. */
  ghost predicate Recovered(s: State, original: map<string, Record>) {
    && s.store == Settle(original)
    && s.active == s.store
    && s.pods.Keys <= s.store.Keys
    && forall w | w in s.store && !NeedsCleanup(s.store[w]) :: w in s.pods && s.pods[w] == s.store[w].grant.revision
  }

  lemma FinishedIsRecovered(c: Config, s: State, original: map<string, Record>)
    requires Inv(c, s) && Clean(s) && RestoreFinished(s) && Settle(s.store) == Settle(original)
    ensures Recovered(s, original)
  {
    hide Kept, Settled, PlacementInv, CountInv;
    forall w
      ensures w in s.store ==> Reconciled(View(s, w))
      ensures w in s.pods || w in s.active ==> w in s.store
    {
      assert SliceClean(View(s, w));
      InstantiateSlice(s, w);
    }
    assert Settle(s.store) == s.store;
  }

  /** However many restores failed or crashed part-way before it, one restore whose calls all succeed
      ends with the store that a single clean restore of the original store would have left, and with
      that store in memory and running. */
  lemma RecoveryConverges(c: Config, s: State, failures: Trail, clean: Trail)
    requires Inv(c, s) && c.refusesUncertain
    requires Follow(c, s, failures) && AllRecovery(failures)
    requires End(s, failures).mode.Down?
    requires Follow(c, End(s, failures), clean) && CleanTrail(clean)
    requires RestoreFinished(End(End(s, failures), clean))
    ensures Recovered(End(End(s, failures), clean), s.store)
  {
    hide Inv, NextStep, Clean, Settle, Recovered;
    RecoverySettles(c, s, failures);
    CleanHolds(c, End(s, failures), clean);
    FinishedIsRecovered(c, End(End(s, failures), clean), s.store);
  }

  /** Restoring a recovered store again changes nothing. */
  lemma RepeatChangesNothing(c: Config, s: State, original: map<string, Record>, failures: Trail, clean: Trail)
    requires Inv(c, s) && c.refusesUncertain && s.store == Settle(original)
    requires forall w | w in original :: WellFormed(w, original[w])
    requires Follow(c, s, failures) && AllRecovery(failures) && End(s, failures).mode.Down?
    requires Follow(c, End(s, failures), clean) && CleanTrail(clean)
    requires RestoreFinished(End(End(s, failures), clean))
    ensures End(End(s, failures), clean).store == s.store
  {
    hide Inv, NextStep, Settle, CleanTrail, AllRecovery;
    RecoveryConverges(c, s, failures, clean);
    SettleIdempotent(original);
  }

  // ---- a clean restore always exists ----

  lemma ReconcileSlice(v: Slice) returns (picked: Slice, finished: Slice)
    requires v.queued.Some? && v.task.None?
    ensures LocalNext(true, v, picked, RestorePick(Proceed))
    ensures picked.queued.None? && picked.quarantined == v.quarantined
    ensures if picked.task.None? then finished == picked
            else LocalNext(true, picked, finished, RestoreReturn(true, true))
    ensures finished.queued.None? && finished.task.None?
  {
    picked := AfterPick(v, true, v.queued.value, Proceed);
    finished := if picked.task.None? then picked else AfterRestore(picked, picked.task.value, true, true);
  }

  /** Reconciling one queued record with calls that succeed takes one or two steps. */
  lemma ReconcileOne(c: Config, s: State, w: string) returns (mid: State, done: State)
    requires Inv(c, s) && c.refusesUncertain && BetweenRecords(s) && w in s.mode.queued
    ensures NextStep(c, s, mid, Local(w, RestorePick(Proceed)))
    ensures mid == done || NextStep(c, mid, done, Local(w, RestoreReturn(true, true)))
    ensures BetweenRecords(done) && done.mode.queued == s.mode.queued - {w}
  {
    hide Inv, LocalNext, NextStep;
    var v := View(s, w);
    var picked, finished := ReconcileSlice(v);
    mid := Put(s, w, picked);
    ApplyLocal(c, s, w, picked, RestorePick(Proceed));
    if picked.task.None? {
      done := mid;
    } else {
      ViewPut(s, w, picked, w);
      done := Put(mid, w, finished);
      ApplyLocal(c, mid, w, finished, RestoreReturn(true, true));
    }
  }

  lemma {:induction false} CleanFrom(c: Config, origin: State, trail: Trail) returns (longer: Trail)
    requires Inv(c, End(origin, trail)) && c.refusesUncertain && BetweenRecords(End(origin, trail))
    requires Follow(c, origin, trail) && CleanTrail(trail)
    ensures Follow(c, origin, longer) && CleanTrail(longer)
    ensures RestoreFinished(End(origin, longer))
    decreases |End(origin, trail).mode.queued|
  {
    hide Inv, NextStep;
    var s := End(origin, trail);
    if s.mode.queued == map[] {
      longer := trail;
    } else {
      var w :| w in s.mode.queued;
      var mid, done := ReconcileOne(c, s, w);
      var next := Onward(trail, Local(w, RestorePick(Proceed)), mid);
      StepKeeps(c, s, mid, Local(w, RestorePick(Proceed)));
      if mid != done {
        StepKeeps(c, mid, done, Local(w, RestoreReturn(true, true)));
        next := Onward(next, Local(w, RestoreReturn(true, true)), done);
      }
      assert done.mode.queued.Keys == s.mode.queued.Keys - {w};
      longer := CleanFrom(c, origin, next);
    }
  }

  /** From any stopped state a clean restore runs to its end. */
  lemma CleanRestoreExists(c: Config, s: State) returns (trail: Trail)
    requires Inv(c, s) && c.refusesUncertain && s.mode.Down?
    ensures Follow(c, s, trail) && CleanTrail(trail)
    ensures RestoreFinished(End(s, trail)) && Recovered(End(s, trail), s.store)
  {
    var booted := s.(mode := Restoring(s.store - {}));
    assert BootNext(c, s, booted, {}) by {
      assert s.quarantined == {} by {
        forall w ensures w !in s.quarantined {
          InstantiateSlice(s, w);
        }
      }
    }
    forall w ensures w !in s.mutations {
      StoppedHasNoTask(s, w);
    }
    hide Inv, BootNext, Recovered;
    StepKeeps(c, s, booted, Boot({}));
    trail := CleanFrom(c, s, Onward(Here, Boot({}), booted));
    RecoveryConverges(c, s, Here, trail);
  }
}
