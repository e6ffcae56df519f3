/** What a crash leaves behind can be started again.

    `RestartNeverRefused` is exact: it is about every run whose saves fit the store.  `ChecksSuffice` says
    which runs the agent's own checks keep there.  Its invariant is about the larger of the two copies of each
    record: what the agent charges in memory or, where it charges nothing, what the store holds.
 */
module Restart {
  import opened Options
  import opened Quantities
  import opened Records
  import opened Accounting
  import opened AccountingLaws
  import opened Lifecycle
  import opened LifecycleInvariant
  import opened LifecycleRuns
  import opened Capacity
  import opened Startable

  /** Saving the old sizes of an update that had asked for less. */
  predicate PersistsShrink(task: Task, e: Event) {
    e == RollbackReturn(true, true) && task.RollbackRunning? && !task.prior.size.Within(task.request.size)
  }

  /** Accepting a larger size while some stored record is quarantined and therefore not counted. */
  predicate GrowsUncounted(s: State, w: string) {
    && s.quarantined != {}
    && w in s.mutations && s.mutations[w].UpdateGuarded?
    && w in s.active && !s.mutations[w].request.size.Within(s.active[w].size)
  }

  /** The two steps after which the agent's own checks no longer bound the store. */
  predicate EndangersRestart(s: State, step: Step) {
    || (step.Local? && step.workload in s.mutations && PersistsShrink(s.mutations[step.workload], step.event))
    || (step.UpdateStart? && GrowsUncounted(s, step.workload))
  }

  // ---- one workload ----

  function Charge(v: Slice): Option<Record> {
    if v.memory.Some? then v.memory else v.disk
  }

  predicate SliceOrdered(v: Slice) {
    && (v.disk.Some? && v.memory.Some? ==> v.disk.value.size.Within(v.memory.value.size))
    && (v.task.Some? ==> !ShrinkingRollback(v.task.value))
  }

  predicate ChargeShrinks(v: Slice, v': Slice) {
    Charge(v').Some? ==> Charge(v).Some? && Charge(v').value.size.Within(Charge(v).value.size)
  }

  lemma ServingOrdered(w: string, v: Slice, v': Slice, e: Event)
    requires Follows(Serving, w, v, v', e) && SliceOrdered(v)
    requires v.task.Some? ==> !PersistsShrink(v.task.value, e)
    ensures SliceOrdered(v') && ChargeShrinks(v, v')
  {
    hide SliceInv;
    if e.Publish? {
      PublishOrdered(w, v, v');
    } else if e.Cancel? || e.Land? || e.Vanish? || e.LateLand? || e.LateGone? {
    } else if e.DeployReturn? || e.FailDeploy? || e.CleanupReturn? {
      CreationOrdered(w, v, v', e);
    } else if e.UpdateReturn? || e.UpdateFail? || e.RollbackReturn? {
      UpdateOrdered(w, v, v', e);
    } else {
      DeleteOrdered(w, v, v', e);
    }
  }

  lemma CreationOrdered(w: string, v: Slice, v': Slice, e: Event)
    requires Follows(Serving, w, v, v', e) && SliceOrdered(v)
    requires e.DeployReturn? || e.FailDeploy? || e.CleanupReturn?
    ensures SliceOrdered(v') && ChargeShrinks(v, v')
  {
    TaskCharge(w, v);
    TaskSizes(w, v);
    hide SliceInv;
  }

  lemma UpdateOrdered(w: string, v: Slice, v': Slice, e: Event)
    requires Follows(Serving, w, v, v', e) && SliceOrdered(v)
    requires v.task.Some? ==> !PersistsShrink(v.task.value, e)
    requires e.UpdateReturn? || e.UpdateFail? || e.RollbackReturn?
    ensures SliceOrdered(v') && ChargeShrinks(v, v')
  {
    TaskSizes(w, v);
    hide SliceInv;
  }

  lemma DeleteOrdered(w: string, v: Slice, v': Slice, e: Event)
    requires Follows(Serving, w, v, v', e) && SliceOrdered(v)
    requires e.DeleteRead? || e.DeleteMark? || e.DeleteSave? || e.DeleteReturn?
    ensures SliceOrdered(v') && ChargeShrinks(v, v')
  {
    if !OnlyGuards(v.task.value) {
      TaskSizes(w, v);
    }
    hide SliceInv, NeedsCleanup;
  }

  lemma PublishOrdered(w: string, v: Slice, v': Slice)
    requires Follows(Serving, w, v, v', Publish) && SliceOrdered(v)
    ensures SliceOrdered(v') && ChargeShrinks(v, v')
  {
  }

  /** The sizes of the records a working task may write to the store. */
  lemma TaskSizes(w: string, v: Slice)
    requires SliceInv(Serving, w, v) && v.task.Some? && !OnlyGuards(v.task.value)
    ensures v.memory.Some?
    ensures var held := v.memory.value.size;
            match v.task.value
            case DeployRunning(stored) => stored.size == held
            case UpdateRunning(_, request) => request.size == held
            case RollbackRunning(_, request) => request.size == held
            case RollbackCommitting(_, request) => request.size == held
            case DeleteSaving(seen, marked) => seen.size == held && marked.size == held
            case DeleteRunning(seen) => seen.size == held
            case Forgetting => v.disk.None?
            case _ => true
  {
  }

  lemma QuietOrdered(kind: Kind, w: string, v: Slice, v': Slice, e: Event)
    requires Follows(kind, w, v, v', e) && !kind.Serving? && SliceOrdered(v)
    ensures SliceOrdered(v') && ChargeShrinks(v, v')
  {
  }

  // ---- the whole agent ----

  /** Each record at the size it is charged: the in-memory copy where there is one. */
  function Charged(s: State): map<string, Record> {
    s.store + s.active
  }

  ghost function Burden(s: State): Total {
    Sum(Charged(s), RecordSize).Plus(Sum(s.reservations, ReservationSize))
  }

  predicate Ordered(s: State) {
    && (forall w | w in s.store && w in s.active :: s.store[w].size.Within(s.active[w].size))
    && (forall w | w in s.mutations :: !ShrinkingRollback(s.mutations[w]))
  }

  ghost predicate RestartInv(c: Config, s: State) {
    Ordered(s) && Burden(s).Within(c.capacity.Exact())
  }

  lemma OrderedSlice(s: State, w: string)
    requires Ordered(s)
    ensures SliceOrdered(View(s, w))
  {
  }

  lemma LocalOrdered(c: Config, s: State, s': State, w: string, e: Event)
    requires Slices(s) && c.refusesUncertain && LocalStepNext(c, s, s', w, e)
    requires Ordered(s) && !EndangersRestart(s, Local(w, e))
    ensures forall x :: SliceOrdered(View(s', x)) && ChargeShrinks(View(s, x), View(s', x))
    ensures s'.reservations == s.reservations
  {
    hide Slices, SliceInv, LocalNext, Follows, Ordered, SliceOrdered, ChargeShrinks, PersistsShrink;
    LocalSlices(c, s, s', w, e);
    var kind := KindOf(s.mode);
    OrderedSlice(s, w);
    if kind.Serving? {
      ServingOrdered(w, View(s, w), View(s', w), e);
    } else {
      QuietOrdered(kind, w, View(s, w), View(s', w), e);
    }
    forall x ensures SliceOrdered(View(s', x)) && ChargeShrinks(View(s, x), View(s', x)) {
      if x != w {
        OrderedSlice(s, x);
        ChargeReflexive(View(s, x));
      }
    }
  }

  lemma ChargeReflexive(v: Slice)
    ensures ChargeShrinks(v, v)
  {
  }

  /** Slice by slice, the burden shrinks. */
  lemma BurdenShrinks(c: Config, s: State, s': State)
    requires RestartInv(c, s)
    requires Sum(s'.reservations, ReservationSize).Within(Sum(s.reservations, ReservationSize))
    requires forall x :: SliceOrdered(View(s', x)) && ChargeShrinks(View(s, x), View(s', x))
    ensures RestartInv(c, s')
  {
    hide Sum, ShrinkingRollback;
    forall x | x in Charged(s')
      ensures x in Charged(s) && RecordSize(Charged(s')[x]).Within(RecordSize(Charged(s)[x]))
    {
      assert ChargeShrinks(View(s, x), View(s', x));
      assert Charge(View(s', x)) == Some(Charged(s')[x]);
    }
    SumMonotone(Charged(s'), Charged(s), RecordSize);
    forall w | w in s'.store && w in s'.active ensures s'.store[w].size.Within(s'.active[w].size) {
      assert SliceOrdered(View(s', w));
    }
    forall w | w in s'.mutations ensures !ShrinkingRollback(s'.mutations[w]) {
      assert SliceOrdered(View(s', w));
      assert View(s', w).task == Some(s'.mutations[w]);
    }
  }

  lemma LocalRestart(c: Config, s: State, s': State, w: string, e: Event)
    requires Inv(c, s) && c.refusesUncertain && LocalStepNext(c, s, s', w, e)
    requires RestartInv(c, s) && !EndangersRestart(s, Local(w, e))
    ensures RestartInv(c, s')
  {
    hide Slices, LocalStepNext, SliceOrdered, ChargeShrinks, Ordered, Burden, EndangersRestart, Sum;
    LocalOrdered(c, s, s', w, e);
    BurdenShrinks(c, s, s');
  }

  /** A step that touches neither records nor tasks other than by taking or dropping a guard. */
  lemma QuietStepRestart(c: Config, s: State, s': State)
    requires RestartInv(c, s) && s'.store == s.store && s'.active == s.active
    requires Sum(s'.reservations, ReservationSize).Within(Sum(s.reservations, ReservationSize))
    requires forall x | x in s'.mutations :: !ShrinkingRollback(s'.mutations[x])
    ensures RestartInv(c, s')
  {
    hide Sum, ShrinkingRollback;
  }

  /** With nothing quarantined, what is charged is exactly `active`. */
  lemma ChargedIsActive(s: State)
    requires Slices(s) && s.mode.Up? && s.quarantined == {}
    ensures Charged(s) == s.active
  {
    hide Slices;
    StoreCovered(s);
    Covered(s.store, s.active);
  }

  lemma Covered<K, V>(a: map<K, V>, b: map<K, V>)
    requires a.Keys <= b.Keys
    ensures a + b == b
  {
  }

  lemma AdmitRestart(c: Config, s: State, s': State, request: AdmissionRequest, now: nat, id: string)
    requires Inv(c, s) && BelowMax(c) && ReservedWithin(c, s.reservations)
    requires RestartInv(c, s) && AdmitNext(c, s, s', request, now, id)
    ensures RestartInv(c, s')
  {
    hide Sum, Slices, Scale, ReservedCeiling, PlacementInv, CountInv, ShrinkingRollback;
    var live := Live(s.reservations, now);
    SumMonotone(live, s.reservations, ReservationSize);
    if s'.reservations != live {
      ChargedIsActive(s);
      hide Verdict;
      AcceptedFits(c, s.active, live, s.quarantined, request);
      SumInsert(live, ReservationSize, id, s'.reservations[id]);
    }
  }

  /** A creation takes over the charge of the reservation it consumes. */
  lemma PlannedBurden(s: State, s': State, w: string, id: string)
    requires w !in s.store && w !in s.active && id in s.reservations
    requires s'.reservations == s.reservations - {id}
    requires w in s'.active && s'.active[w].size == s.reservations[id].size
    requires s'.store == s.store[w := s'.active[w]] && s'.active == s.active[w := s'.active[w]]
    ensures Burden(s') == Burden(s)
  {
    hide Sum;
    SumPick(s.reservations, ReservationSize, id);
    SumInsert(Charged(s), RecordSize, w, s'.active[w]);
    assert Charged(s') == Charged(s)[w := s'.active[w]];
  }

  lemma DeployRestart(c: Config, s: State, s': State, w: string, now: nat, measured: Option<Size>, saved: bool)
    requires Inv(c, s) && RestartInv(c, s) && DeployStartNext(s, s', w, now, measured, saved)
    ensures RestartInv(c, s')
  {
    hide Sum, Slices, PlacementInv, CountInv, ShrinkingRollback;
    var id := s.mutations[w].grant.reservation;
    SumMonotone(s'.reservations, s.reservations, ReservationSize);
    DeployTask(s, s', w, now, measured, saved);
    if w in s'.mutations {
      GuardNames(s, w);
      ReservedIsFree(s, id);
      PlannedBurden(s, s', w, id);
    }
  }

  lemma DeployTask(s: State, s': State, w: string, now: nat, measured: Option<Size>, saved: bool)
    requires Ordered(s) && DeployStartNext(s, s', w, now, measured, saved)
    ensures forall x | x in s'.mutations :: !ShrinkingRollback(s'.mutations[x])
  {
    hide DeployBinds;
  }

  lemma UpdateRestart(c: Config, s: State, s': State, w: string, saved: bool)
    requires Inv(c, s) && c.refusesUncertain && BelowMax(c) && RestartInv(c, s)
    requires UpdateStartNext(c, s, s', w, saved) && !GrowsUncounted(s, w)
    ensures RestartInv(c, s')
  {
    hide Sum, Slices, PlacementInv, CountInv, UsageWithout;
    if w in s'.mutations {
      assert Charged(s') == Charged(s)[w := s'.active[w]];
      if s.quarantined == {} {
        ChargedIsActive(s);
        ReplacementFits(c, s.active, s.reservations, w, s'.active[w]);
      } else {
        SumMonotone(Charged(s'), Charged(s), RecordSize);
      }
    }
  }

  lemma CrashRestart(c: Config, s: State)
    requires RestartInv(c, s)
    ensures RestartInv(c, Crashed(s))
  {
    hide Sum, Abandoned;
    NoneReserved();
    assert Charged(Crashed(s)) == s.store;
    SumMonotone(s.store, Charged(s), RecordSize);
  }

  lemma StepRestart(c: Config, s: State, s': State, step: Step)
    requires Inv(c, s) && c.refusesUncertain && BelowMax(c) && ReservedWithin(c, s.reservations)
    requires NextStep(c, s, s', step) && RestartInv(c, s) && !EndangersRestart(s, step)
    ensures RestartInv(c, s')
  {
    hide Inv, AdmitNext, DeployStartNext, UpdateStartNext, LocalStepNext, RestoredFits, RestartInv, ReservedWithin,
         GrowsUncounted, PersistsShrink, Crashed, Sum, Live;
    match step
    case Admit(request, now, id) => AdmitRestart(c, s, s', request, now, id);
    case Sweep(now) => SweepRestart(c, s, now);
    case Acquire(w, task) => AcquireRestart(c, s, s', w, task);
    case DeployStart(w, now, measured, saved) => DeployRestart(c, s, s', w, now, measured, saved);
    case UpdateStart(w, saved) => UpdateRestart(c, s, s', w, saved);
    case Local(w, e) => LocalRestart(c, s, s', w, e);
    case Crash => CrashRestart(c, s);
    case BootFailed =>
    case Boot(unreadable) => BootRestart(c, s, s', unreadable);
    case RestoreDone => BootedRestart(c, s, s');
    case RestoreRefused => CrashRestart(c, s);
  }

  lemma SweepRestart(c: Config, s: State, now: nat)
    requires RestartInv(c, s)
    ensures RestartInv(c, s.(reservations := Live(s.reservations, now)))
  {
    hide Sum, ShrinkingRollback;
    SumMonotone(Live(s.reservations, now), s.reservations, ReservationSize);
    QuietStepRestart(c, s, s.(reservations := Live(s.reservations, now)));
  }

  lemma AcquireRestart(c: Config, s: State, s': State, w: string, task: Task)
    requires RestartInv(c, s) && AcquireNext(s, s', w, task)
    ensures RestartInv(c, s')
  {
    hide Sum;
    QuietStepRestart(c, s, s');
  }

  lemma BootRestart(c: Config, s: State, s': State, unreadable: set<string>)
    requires RestartInv(c, s) && BootNext(c, s, s', unreadable)
    ensures RestartInv(c, s')
  {
    hide Sum, ShrinkingRollback;
    QuietStepRestart(c, s, s');
  }

  lemma BootedRestart(c: Config, s: State, s': State)
    requires RestartInv(c, s) && s' == s.(mode := Up)
    ensures RestartInv(c, s')
  {
    hide Sum, ShrinkingRollback;
    QuietStepRestart(c, s, s');
  }

  predicate NeverEndangersRestart(run: Run) {
    match run
    case Begin => true
    case After(before, step, _) => NeverEndangersRestart(before) && !EndangersRestart(Last(before), step)
  }

  lemma {:induction false} RestartHolds(c: Config, run: Run)
    requires Valid(c, run) && c.refusesUncertain && BelowMax(c) && NeverEndangersRestart(run)
    ensures RestartInv(c, Last(run))
  {
    match run
    case Begin => EmptyRestart(c);
    case After(before, step, state) =>
      hide NextStep, RestartInv, Inv, EndangersRestart, ReservedWithin;
      RestartHolds(c, before);
      InvariantHolds(c, before);
      ReservedStaysBelowCeiling(c, before);
      StepRestart(c, Last(before), state, step);
  }

  lemma EmptyRestart(c: Config)
    ensures RestartInv(c, INITIAL)
  {
    NoneReserved();
    assert Charged(INITIAL) == map[];
  }

  lemma InvFitsStore(c: Config, s: State)
    requires RestartInv(c, s)
    ensures StoreFits(c, s.store)
  {
    hide Sum, StoreFits;
    StoreFitsExactly(c, s.store);
    SumMonotone(s.store, Charged(s), RecordSize);
  }

  lemma {:induction false} ChecksKeepStartable(c: Config, run: Run)
    requires Valid(c, run) && c.refusesUncertain && BelowMax(c) && NeverEndangersRestart(run)
    ensures StartableThroughout(c, run)
  {
    hide NextStep, StoreFits, EndangersRestart, RestartInv;
    if run.After? {
      ChecksKeepStartable(c, run.before);
      RestartHolds(c, run);
      InvFitsStore(c, run.state);
    }
  }

  /** In every run without those two steps the agent's own checks suffice: everything it saves fits the store,
      although it only ever looks at what it charges in memory. */
  lemma ChecksSuffice(c: Config, run: Run)
    requires Valid(c, run) && c.refusesUncertain && BelowMax(c) && NeverEndangersRestart(run)
    ensures AllSavesFit(c, run)
  {
    hide Valid, NeverEndangersRestart, StartableThroughout, AllSavesFit;
    ChecksKeepStartable(c, run);
    StartableExactly(c, run);
  }

  /** In every run whose saves fit the store, whatever records a crash leaves, and whichever of them can be
      read, both start-up checks pass: the count before restoring and the sum after. */
  lemma RestartNeverRefused(c: Config, run: Run)
    requires Valid(c, run) && c.refusesUncertain && BelowMax(c) && AllSavesFit(c, run)
    ensures |Last(run).store| <= c.maxWorkloads
    ensures forall unreadable :: Sum(Readable(Last(run).store, unreadable), RecordSize).Within(c.capacity.Exact())
    ensures RestoreFinished(Last(run)) ==> RestoredFits(c, Last(run))
  {
    hide Valid, Sum, Slices, AllSavesFit, PlacementInv;
    var s := Last(run);
    InvariantHolds(c, run);
    StartableExactly(c, run);
    LastStartable(c, run);
    if RestoreFinished(s) {
      StoreFitsExactly(c, s.store);
      RestoredFromStore(s);
      SumMonotone(s.active, s.store, RecordSize);
      RestoredFitsExactly(c, s);
    }
  }

  /** While restoring, what is in memory is in the store. */
  lemma RestoredFromStore(s: State)
    requires Slices(s) && s.mode.Restoring?
    ensures forall w | w in s.active :: w in s.store && s.store[w] == s.active[w]
  {
    hide Slices;
    forall w | w in s.active ensures w in s.store && s.store[w] == s.active[w] {
      InstantiateSlice(s, w);
      assert View(s, w).memory == Some(s.active[w]);
    }
  }
}
