/** The lifecycle invariant holds in every run, and what that says about the three stores. */
module LifecycleRuns {
  import opened Options
  import opened Sets
  import opened Quantities
  import opened Accounting
  import opened Lifecycle
  import opened LifecycleInvariant

  lemma InsertCounts<K, V>(m: map<K, V>, k: K, v: V)
    ensures |m[k := v]| == |m| + if k in m then 0 else 1
  {
    assert m[k := v].Keys == m.Keys + {k};
  }

  lemma RemoveCounts<K, V>(m: map<K, V>, k: K)
    ensures |m - {k}| == |m| - if k in m then 1 else 0
  {
    assert (m - {k}).Keys == m.Keys - {k};
  }

  lemma InstantiateSlice(s: State, w: string)
    requires Slices(s)
    ensures SliceInv(KindOf(s.mode), w, View(s, w))
  {
  }

  /** While serving, `store` is covered by `active` and `quarantined`, so it is no larger. */
  lemma StoreCovered(s: State)
    requires Slices(s) && s.mode.Up?
    ensures s.store.Keys <= s.active.Keys + s.quarantined
    ensures |s.store| <= |s.active| + |s.quarantined|
  {
    forall w | w in s.store ensures w in s.active.Keys + s.quarantined {
      InstantiateSlice(s, w);
    }
    SubsetCardinality(s.store.Keys, s.active.Keys + s.quarantined);
    assert |s.active.Keys + s.quarantined| <= |s.active.Keys| + |s.quarantined|;
  }

  lemma LocalSlices(c: Config, s: State, s': State, w: string, e: Event)
    requires Slices(s) && c.refusesUncertain && LocalStepNext(c, s, s', w, e)
    ensures Slices(s')
    ensures Follows(KindOf(s.mode), w, View(s, w), View(s', w), e)
    ensures forall other | other != w :: View(s', other) == View(s, other)
    ensures KindOf(s'.mode) == KindOf(s.mode)
  {
    hide SliceInv, LocalNext;
    var kind := KindOf(s.mode);
    var v' :| LocalNext(c.refusesUncertain, View(s, w), v', e) && s' == Put(s, w, v');
    InstantiateSlice(s, w);
    LocalStepKeeps(kind, w, View(s, w), v', e);
    if kind.Serving? {
      ServingFrame(w, View(s, w), v', e);
    } else {
      QuietFrame(kind, w, View(s, w), v', e);
    }
    forall other ensures View(s', other) == if other == w then v' else View(s, other) {
      ViewPut(s, w, v', other);
    }
    forall other ensures SliceInv(KindOf(s'.mode), other, View(s', other)) {
      InstantiateSlice(s, other);
    }
  }

  lemma LocalPlacement(c: Config, s: State, s': State, w: string, e: Event)
    requires Slices(s) && c.refusesUncertain && LocalStepNext(c, s, s', w, e) && s.mode.Up?
    ensures s'.active.Keys <= s.active.Keys
    ensures forall x | x in s'.mutations && CreatesWorkload(s'.mutations[x]) ::
              x in s.mutations && CreatesWorkload(s.mutations[x])
  {
    hide Slices, SliceInv, LocalStepNext, LocalNext, Follows, Put, CreatesWorkload;
    LocalSlices(c, s, s', w, e);
    assert KindOf(s.mode) == Serving;
    var v, v' := View(s, w), View(s', w);
    ServingFrame(w, v, v', e);
    forall x | x in s'.active ensures x in s.active {
      if x != w {
        assert View(s', x).memory == View(s, x).memory;
      }
    }
    forall x | x in s'.mutations && CreatesWorkload(s'.mutations[x])
      ensures x in s.mutations && CreatesWorkload(s.mutations[x])
    {
      if x != w {
        assert View(s', x).task == View(s, x).task;
      }
    }
  }

  lemma LocalStoreShrinks(c: Config, s: State, s': State, w: string, e: Event)
    requires Slices(s) && c.refusesUncertain && LocalStepNext(c, s, s', w, e) && !s.mode.Up?
    ensures s'.store.Keys <= s.store.Keys
    ensures forall x | x in s'.mutations :: !CreatesWorkload(s'.mutations[x])
  {
    hide Slices, SliceInv, LocalStepNext, LocalNext, Follows, Put, CreatesWorkload;
    var kind := KindOf(s.mode);
    LocalSlices(c, s, s', w, e);
    QuietFrame(kind, w, View(s, w), View(s', w), e);
    forall x | x in s'.store ensures x in s.store {
      assert View(s', x).disk.Some?;
      assert View(s, x).disk.Some?;
    }
    forall x | x in s'.mutations ensures !CreatesWorkload(s'.mutations[x]) {
      assert View(s', x).task == Some(s'.mutations[x]);
      QuietTask(s', x);
    }
  }

  lemma QuietTask(s: State, w: string)
    requires Slices(s) && !s.mode.Up? && w in s.mutations
    ensures !CreatesWorkload(s.mutations[w])
  {
    InstantiateSlice(s, w);
    assert View(s, w).task == Some(s.mutations[w]);
  }

  /** Placement survives any step that reserves nothing, activates nothing and starts no creation. */
  lemma PlacementShrinks(s: State, s': State)
    requires PlacementInv(s)
    requires s'.mode.Up? == s.mode.Up? && s'.reservations == s.reservations && s'.quarantined == s.quarantined
    requires s.mode.Up? ==> s'.active.Keys <= s.active.Keys
    requires forall x | x in s'.mutations && CreatesWorkload(s'.mutations[x]) ::
               x in s.mutations && CreatesWorkload(s.mutations[x])
    ensures PlacementInv(s')
  {
    hide CreatesWorkload;
  }

  lemma LocalKeeps(c: Config, s: State, s': State, w: string, e: Event)
    requires Inv(c, s) && c.refusesUncertain && LocalStepNext(c, s, s', w, e)
    ensures Inv(c, s')
  {
    hide Slices, SliceInv, LocalNext, Follows, CreatesWorkload, PlacementInv;
    LocalSlices(c, s, s', w, e);
    if s.mode.Up? {
      LocalPlacement(c, s, s', w, e);
      SubsetCardinality(s'.active.Keys, s.active.Keys);
      StoreCovered(s');
    } else {
      LocalStoreShrinks(c, s, s', w, e);
      SubsetCardinality(s'.store.Keys, s.store.Keys);
    }
    PlacementShrinks(s, s');
  }

  lemma ApplyLocal(c: Config, s: State, w: string, v': Slice, e: Event)
    requires LocalNext(c.refusesUncertain, View(s, w), v', e) && Allowed(KindOf(s.mode), e)
    requires e.RestorePick? ==> s.mutations == map[]
    ensures NextStep(c, s, Put(s, w, v'), Local(w, e))
  {
    hide LocalNext;
  }

  // ---- steps of the whole agent ----

  /** A step that leaves every slice alone. */
  lemma SlicesUnchanged(s: State, s': State)
    requires Slices(s) && KindOf(s'.mode) == KindOf(s.mode)
    requires forall w :: View(s', w) == View(s, w)
    ensures Slices(s')
  {
    hide SliceInv, View;
    forall w ensures SliceInv(KindOf(s'.mode), w, View(s', w)) {
      InstantiateSlice(s, w);
    }
  }

  /** A step that changes one slice. */
  lemma SlicesExcept(s: State, s': State, w: string)
    requires Slices(s) && KindOf(s'.mode) == KindOf(s.mode)
    requires forall other | other != w :: View(s', other) == View(s, other)
    requires SliceInv(KindOf(s.mode), w, View(s', w))
    ensures Slices(s')
  {
    hide SliceInv, View;
    forall other ensures SliceInv(KindOf(s'.mode), other, View(s', other)) {
      InstantiateSlice(s, other);
    }
  }

  lemma LiveIsSubmap(reservations: ReservationMap, now: nat)
    ensures Live(reservations, now).Keys <= reservations.Keys
    ensures |Live(reservations, now)| <= |reservations|
  {
    SubsetCardinality(Live(reservations, now).Keys, reservations.Keys);
  }

  lemma SweepKeeps(c: Config, s: State, now: nat)
    requires Inv(c, s) && s.mode.Up?
    ensures Inv(c, s.(reservations := Live(s.reservations, now)))
  {
    hide SliceInv, CreatesWorkload;
    var s' := s.(reservations := Live(s.reservations, now));
    LiveIsSubmap(s.reservations, now);
    SlicesUnchanged(s, s');
  }

  lemma ReservePlaces(s: State, s': State, id: string, r: Reservation)
    requires PlacementInv(s) && s.mode.Up? && s.quarantined == {} && id !in s.reservations
    requires !Holds(s.active, s.reservations, s.quarantined, r.workload)
    requires s' == s.(reservations := s.reservations[id := r])
    ensures PlacementInv(s')
    ensures |s'.reservations| == |s.reservations| + 1
  {
    hide CreatesWorkload;
    InsertCounts(s.reservations, id, r);
  }

  lemma AdmitKeeps(c: Config, s: State, s': State, request: AdmissionRequest, now: nat, id: string)
    requires Inv(c, s) && AdmitNext(c, s, s', request, now, id)
    ensures Inv(c, s')
  {
    hide Slices, PlacementInv, ReservedUsage, CombinedUsage, Holds;
    var swept := s.(reservations := Live(s.reservations, now));
    SweepKeeps(c, s, now);
    LiveIsSubmap(s.reservations, now);
    if s' != swept {
      SlicesUnchanged(swept, s');
      ReservePlaces(swept, s', id, s'.reservations[id]);
    }
  }

  lemma AcquireKeeps(c: Config, s: State, s': State, w: string, task: Task)
    requires Inv(c, s) && AcquireNext(s, s', w, task)
    ensures Inv(c, s')
  {
    hide Slices, SliceInv;
    assert SliceInv(Serving, w, View(s', w)) by {
      AcquireSlice(s, s', w, task);
    }
    SlicesExcept(s, s', w);
    PlacementShrinks(s, s');
  }

  lemma AcquireSlice(s: State, s': State, w: string, task: Task)
    requires Slices(s) && AcquireNext(s, s', w, task)
    ensures SliceInv(Serving, w, View(s', w))
  {
    InstantiateSlice(s, w);
    assert View(s', w) == View(s, w).(task := Some(task));
  }

  /** The reservation consumed by a deploy names a workload nothing else holds. */
  lemma ReservedIsFree(s: State, id: string)
    requires Slices(s) && PlacementInv(s) && s.mode.Up? && id in s.reservations
    ensures s.quarantined == {}
    ensures s.reservations[id].workload !in s.active
    ensures s.reservations[id].workload !in s.store
  {
    hide SliceInv;
    StoreCovered(s);
  }

  lemma DeployStartSlice(s: State, s': State, w: string, now: nat, measured: Option<Size>, saved: bool)
    requires Slices(s) && PlacementInv(s) && DeployStartNext(s, s', w, now, measured, saved)
    ensures SliceInv(Serving, w, View(s', w))
  {
    InstantiateSlice(s, w);
    if w in s'.mutations {
      ReservedIsFree(s, s.mutations[w].grant.reservation);
    } else {
      assert View(s', w) == Finish(View(s, w));
    }
  }

  lemma DeployStartCounts(c: Config, s: State, s': State, w: string, now: nat, measured: Option<Size>, saved: bool)
    requires Slices(s) && PlacementInv(s) && CountInv(c, s)
    requires DeployStartNext(s, s', w, now, measured, saved)
    ensures |s'.active| + |s'.reservations| + |s'.quarantined| <= c.maxWorkloads
  {
    hide Slices, PlacementInv;
    var id := s.mutations[w].grant.reservation;
    RemoveCounts(s.reservations, id);
    if w in s'.mutations {
      InsertCounts(s.active, w, s'.active[w]);
    }
  }

  lemma DeployStartFrame(s: State, s': State, w: string, now: nat, measured: Option<Size>, saved: bool)
    requires DeployStartNext(s, s', w, now, measured, saved)
    ensures forall other | other != w :: View(s', other) == View(s, other)
    ensures s'.mode == s.mode == Up && s'.quarantined == s.quarantined
  {
    hide DeployBinds;
  }

  lemma DeployStartPlaces(s: State, s': State, w: string, now: nat, measured: Option<Size>, saved: bool)
    requires Slices(s) && PlacementInv(s) && DeployStartNext(s, s', w, now, measured, saved)
    requires TaskNames(s, w)
    ensures PlacementInv(s')
  {
    hide Slices;
    if w in s'.mutations {
      ReservedIsFree(s, s.mutations[w].grant.reservation);
    }
  }

  predicate TaskNames(s: State, w: string) {
    w in s.mutations && s.mutations[w].DeployGuarded? ==> s.mutations[w].grant.workload == w
  }

  lemma GuardNames(s: State, w: string)
    requires Slices(s)
    ensures TaskNames(s, w)
  {
    InstantiateSlice(s, w);
    assert w in s.mutations ==> View(s, w).task == Some(s.mutations[w]);
  }

  lemma DeployStartKeeps(c: Config, s: State, s': State, w: string, now: nat, measured: Option<Size>, saved: bool)
    requires Inv(c, s) && DeployStartNext(s, s', w, now, measured, saved)
    ensures Inv(c, s')
  {
    hide Slices, SliceInv, PlacementInv, DeployBinds, View, DeployStartNext;
    GuardNames(s, w);
    DeployStartFrame(s, s', w, now, measured, saved);
    DeployStartSlice(s, s', w, now, measured, saved);
    SlicesExcept(s, s', w);
    DeployStartPlaces(s, s', w, now, measured, saved);
    DeployStartCounts(c, s, s', w, now, measured, saved);
    StoreCovered(s');
  }

  lemma UpdateStartSlice(c: Config, s: State, s': State, w: string, saved: bool)
    requires Slices(s) && UpdateStartNext(c, s, s', w, saved)
    ensures SliceInv(Serving, w, View(s', w))
  {
    hide UsageWithout;
    InstantiateSlice(s, w);
    if w !in s'.mutations {
      assert View(s', w) == Finish(View(s, w));
    }
  }

  lemma UpdateStartFrame(c: Config, s: State, s': State, w: string, saved: bool)
    requires UpdateStartNext(c, s, s', w, saved)
    ensures forall other | other != w :: View(s', other) == View(s, other)
    ensures s'.mode == s.mode == Up && s'.quarantined == s.quarantined && s'.reservations == s.reservations
    ensures s'.active.Keys == s.active.Keys
    ensures forall x | x in s'.mutations && CreatesWorkload(s'.mutations[x]) ::
              x in s.mutations && CreatesWorkload(s.mutations[x])
  {
    hide UsageWithout;
  }

  lemma UpdateStartKeeps(c: Config, s: State, s': State, w: string, saved: bool)
    requires Inv(c, s) && UpdateStartNext(c, s, s', w, saved)
    ensures Inv(c, s')
  {
    hide Slices, SliceInv, PlacementInv, View, UpdateStartNext;
    UpdateStartFrame(c, s, s', w, saved);
    UpdateStartSlice(c, s, s', w, saved);
    SlicesExcept(s, s', w);
    assert |s'.active.Keys| == |s.active.Keys|;
    PlacementShrinks(s, s');
    StoreCovered(s');
  }

  function CrashedSlice(v: Slice): Slice {
    v.(memory := None, task := None, queued := None, quarantined := false, late := Abandoned(v))
  }

  lemma CrashedSliceKeeps(kind: Kind, w: string, v: Slice)
    requires SliceInv(kind, w, v)
    ensures SliceInv(Stopped, w, CrashedSlice(v))
  {
  }

  lemma CrashedView(s: State, w: string)
    ensures View(Crashed(s), w) == CrashedSlice(View(s, w))
  {
  }

  lemma CrashKeeps(c: Config, s: State)
    requires Inv(c, s)
    ensures Inv(c, Crashed(s))
  {
    hide SliceInv, CreatesWorkload, View, CrashedSlice, Abandoned;
    var s' := Crashed(s);
    forall w ensures SliceInv(KindOf(s'.mode), w, View(s', w)) {
      InstantiateSlice(s, w);
      CrashedSliceKeeps(KindOf(s.mode), w, View(s, w));
      CrashedView(s, w);
    }
  }

  lemma BootSlice(w: string, v: Slice, unreadable: bool)
    requires SliceInv(Stopped, w, v) && (unreadable ==> v.disk.Some?)
    ensures SliceInv(Starting, w, v.(queued := if unreadable then None else v.disk, quarantined := unreadable))
  {
  }

  lemma BootView(c: Config, s: State, s': State, unreadable: set<string>, w: string)
    requires BootNext(c, s, s', unreadable)
    ensures View(s', w) == View(s, w).(queued := if w in unreadable then None else View(s, w).disk,
                                       quarantined := w in unreadable)
    ensures w in unreadable ==> View(s, w).disk.Some?
  {
  }

  lemma BootSlices(c: Config, s: State, s': State, unreadable: set<string>)
    requires Slices(s) && BootNext(c, s, s', unreadable)
    ensures Slices(s')
  {
    hide SliceInv, View;
    forall w ensures SliceInv(Starting, w, View(s', w)) {
      InstantiateSlice(s, w);
      BootView(c, s, s', unreadable, w);
      BootSlice(w, View(s, w), w in unreadable);
    }
  }

  lemma BootKeeps(c: Config, s: State, s': State, unreadable: set<string>)
    requires Inv(c, s) && BootNext(c, s, s', unreadable)
    ensures Inv(c, s')
  {
    hide Slices, CreatesWorkload;
    BootSlices(c, s, s', unreadable);
    forall w ensures w !in s.mutations {
      StoppedHasNoTask(s, w);
    }
  }

  lemma StoppedHasNoTask(s: State, w: string)
    requires Slices(s) && s.mode.Down?
    ensures w !in s.mutations
  {
    InstantiateSlice(s, w);
    assert View(s, w).task.None?;
  }

  /** A restore that has worked through its queue leaves a slice ready to serve. */
  lemma FinishedSlice(w: string, v: Slice)
    requires SliceInv(Starting, w, v) && v.queued.None? && v.task.None?
    ensures SliceInv(Serving, w, v)
    ensures v.memory.Some? ==> v.disk.Some? && !v.quarantined
    ensures v.quarantined ==> v.disk.Some?
  {
  }

  lemma RestoreDoneKeeps(c: Config, s: State)
    requires Inv(c, s) && RestoreFinished(s)
    ensures Inv(c, s.(mode := Up))
  {
    hide SliceInv, CreatesWorkload;
    var s' := s.(mode := Up);
    forall w
      ensures SliceInv(Serving, w, View(s', w))
      ensures w in s.active ==> w in s.store && w !in s.quarantined
      ensures w in s.quarantined ==> w in s.store
    {
      InstantiateSlice(s, w);
      FinishedSlice(w, View(s, w));
      assert View(s', w) == View(s, w);
    }
    assert s.active.Keys !! s.quarantined;
    SubsetCardinality(s.active.Keys + s.quarantined, s.store.Keys);
  }

  lemma StepKeeps(c: Config, s: State, s': State, step: Step)
    requires Inv(c, s) && c.refusesUncertain && NextStep(c, s, s', step)
    ensures Inv(c, s')
  {
    hide Inv, AdmitNext, AcquireNext, DeployStartNext, UpdateStartNext, BootNext, LocalStepNext, RestoredFits;
    match step
    case Admit(request, now, id) => AdmitKeeps(c, s, s', request, now, id);
    case Sweep(now) => SweepKeeps(c, s, now);
    case Acquire(w, task) => AcquireKeeps(c, s, s', w, task);
    case DeployStart(w, now, measured, saved) => DeployStartKeeps(c, s, s', w, now, measured, saved);
    case UpdateStart(w, saved) => UpdateStartKeeps(c, s, s', w, saved);
    case Local(w, e) => LocalKeeps(c, s, s', w, e);
    case Crash => CrashKeeps(c, s);
    case BootFailed =>
    case Boot(unreadable) => BootKeeps(c, s, s', unreadable);
    case RestoreDone => RestoreDoneKeeps(c, s);
    case RestoreRefused => CrashKeeps(c, s);
  }

  /** The invariant holds after every run, hence after every prefix of a run. */
  lemma {:induction false} InvariantHolds(c: Config, run: Run)
    requires Valid(c, run) && c.refusesUncertain
    ensures Inv(c, Last(run))
  {
    match run
    case Begin =>
    case After(before, step, state) =>
      InvariantHolds(c, before);
      StepKeeps(c, Last(before), state, step);
  }

  /** In every run each pod has a stored record, and while the agent serves each stored record is
      charged in `active` or quarantined. */
  lemma StoresNested(c: Config, run: Run)
    requires Valid(c, run) && c.refusesUncertain
    ensures Last(run).pods.Keys <= Last(run).store.Keys
    ensures Last(run).mode.Up? ==> Last(run).store.Keys <= Last(run).active.Keys + Last(run).quarantined
  {
    InvariantHolds(c, run);
    var s := Last(run);
    forall w | w in s.pods ensures w in s.store {
      InstantiateSlice(s, w);
    }
    if s.mode.Up? {
      StoreCovered(s);
    }
  }

  /** In every run a pod runs the revision its stored record grants or, while that record is
      `Updating`, the previous or the requested revision. */
  lemma PodRevisionAllowed(c: Config, run: Run, w: string)
    requires Valid(c, run) && c.refusesUncertain
    requires w in Last(run).pods
    ensures w in Last(run).store
    ensures var r := Last(run).store[w];
            || Last(run).pods[w] == r.grant.revision
            || (r.phase.Updating? && Last(run).pods[w] == r.phase.request.requested)
  {
    InvariantHolds(c, run);
    InstantiateSlice(Last(run), w);
  }

  /** In every run each id is held at most once across `active`, `quarantined` and the reservations. */
  lemma HeldOnce(c: Config, run: Run)
    requires Valid(c, run) && c.refusesUncertain
    ensures var s := Last(run);
            && s.active.Keys !! s.quarantined
            && (forall id | id in s.reservations ::
                  s.reservations[id].workload !in s.active.Keys + s.quarantined)
            && (forall i, j | i in s.reservations && j in s.reservations
                  && s.reservations[i].workload == s.reservations[j].workload :: i == j)
  {
    InvariantHolds(c, run);
    var s := Last(run);
    forall w | w in s.active ensures w !in s.quarantined {
      InstantiateSlice(s, w);
    }
  }

  /** A deploy whose reservation names its workload never finds that workload already active. */
  lemma AlreadyActiveNeverFires(c: Config, run: Run, w: string)
    requires Valid(c, run) && c.refusesUncertain
    requires w in Last(run).mutations && Last(run).mutations[w].DeployGuarded?
    requires Last(run).mutations[w].grant.reservation in Last(run).reservations
    requires Last(run).reservations[Last(run).mutations[w].grant.reservation].workload == w
    ensures w !in Last(run).active
  {
    HeldOnce(c, run);
  }

  /** Once a record is quarantined, nothing is reserved and no creation is in progress. */
  lemma QuarantineStopsPlacement(c: Config, run: Run)
    requires Valid(c, run) && c.refusesUncertain
    requires Last(run).quarantined != {}
    ensures Last(run).reservations == map[]
    ensures forall w | w in Last(run).mutations :: !CreatesWorkload(Last(run).mutations[w])
  {
    InvariantHolds(c, run);
  }

  /** Serving, only a crash changes the quarantine; so a process that starts with one never places again. */
  lemma QuarantineIsPermanent(c: Config, s: State, s': State, step: Step)
    requires s.mode.Up? && NextStep(c, s, s', step) && !step.Crash?
    ensures s'.quarantined == s.quarantined && s'.mode.Up?
  {
    hide UsageWithout, Verdict, LocalNext, DeployBinds;
  }
}
