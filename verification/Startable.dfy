/** Which steps can leave records that stop the agent from starting again.

    The start-up checks count the persisted records and add up those that could be read.  Four steps save a
    record at a size the store may not have held before; each has a test on the store, and a run can be
    started again at every point exactly when all of its saves pass.
 */
module Startable {
  import opened Options
  import opened Quantities
  import opened Records
  import opened Accounting
  import opened AccountingLaws
  import opened Lifecycle
  import opened LifecycleInvariant
  import opened LifecycleRuns

  /** The records a start reads, when some of them are unreadable. */
  function Readable(store: map<string, Record>, unreadable: set<string>): map<string, Record> {
    store - unreadable
  }

  /** Whichever of the stored records can be read, they pass the capacity check of the next start. */
  ghost predicate StoreFits(c: Config, store: map<string, Record>) {
    forall unreadable :: Sum(Readable(store, unreadable), RecordSize).Within(c.capacity.Exact())
  }

  lemma StoreFitsExactly(c: Config, store: map<string, Record>)
    ensures StoreFits(c, store) <==> Sum(store, RecordSize).Within(c.capacity.Exact())
  {
    hide Sum;
    assert Readable(store, {}) == store;
    forall unreadable ensures Sum(Readable(store, unreadable), RecordSize).Within(Sum(store, RecordSize)) {
      SumMonotone(Readable(store, unreadable), store, RecordSize);
    }
  }

  lemma StoreShrinks(c: Config, store: map<string, Record>, store': map<string, Record>)
    requires StoreFits(c, store)
    requires forall w | w in store' :: w in store && store'[w].size.Within(store[w].size)
    ensures StoreFits(c, store')
  {
    hide Sum, StoreFits;
    StoreFitsExactly(c, store);
    StoreFitsExactly(c, store');
    SumMonotone(store', store, RecordSize);
  }

  /** A record a step is about to save. */
  datatype Save = Save(workload: string, size: Size)

  /** What a step saves at a size of its own: a creation, an update, the old sizes a rollback returns to, and a
      record marked for deletion (which may be in memory only). */
  ghost function Saves(c: Config, s: State, step: Step): Option<Save> {
    match step
    case DeployStart(w, now, measured, saved) =>
      if saved && w in s.mutations && s.mutations[w].DeployGuarded? && DeployBinds(s, s.mutations[w].grant, now, measured)
      then Some(Save(w, s.reservations[s.mutations[w].grant.reservation].size)) else None
    case UpdateStart(w, saved) =>
      if saved && w in s.mutations && s.mutations[w].UpdateGuarded? && s.mutations[w].request.workload == w
         && JudgeUpdate(c, s, s.mutations[w].request).Accepted?
      then Some(Save(w, s.mutations[w].request.size)) else None
    case Local(w, RollbackReturn(ok, saved)) =>
      if ok && saved && w in s.mutations && s.mutations[w].RollbackRunning?
      then Some(Save(w, s.mutations[w].prior.size)) else None
    case Local(w, DeleteSave(saved)) =>
      if saved && w in s.mutations && s.mutations[w].DeleteSaving?
      then Some(Save(w, s.mutations[w].marked.size)) else None
    case _ => None
  }

  /** The capacity test on the store with the new record in place of the old one. */
  ghost predicate FitsStore(c: Config, s: State, save: Save) {
    UsageWithout(s.store, map[], save.workload).Plus(save.size).FitsWithin(Limit(c.capacity))
  }

  ghost predicate PassesStoreTest(c: Config, s: State, step: Step) {
    Saves(c, s, step).Some? ==> FitsStore(c, s, Saves(c, s, step).value)
  }

  // ---- the store after a save ----

  lemma SavedStoreFits(c: Config, store: map<string, Record>, w: string, r: Record)
    requires BelowMax(c)
    ensures StoreFits(c, store[w := r]) <==>
            UsageWithout(store, map[], w).Plus(r.size).FitsWithin(Limit(c.capacity))
  {
    hide Sum, StoreFits;
    StoreFitsExactly(c, store[w := r]);
    var rest := store - {w};
    NoneReserved();
    ClampPlus(Sum(rest, RecordSize), r.size);
    FitsExactly(c, Sum(rest, RecordSize).Plus(r.size.Exact()));
    SumInsert(rest, RecordSize, w, r);
    assert rest[w := r] == store[w := r];
  }

  lemma SaveWrites(c: Config, s: State, s': State, step: Step)
    requires NextStep(c, s, s', step) && Saves(c, s, step).Some?
    ensures var save := Saves(c, s, step).value;
            save.workload in s'.store && s'.store[save.workload].size == save.size
            && s'.store == s.store[save.workload := s'.store[save.workload]]
  {
    hide JudgeUpdate, DeployBinds;
    if step.Local? {
      hide LocalStepNext;
      LocalSaveWrites(c, s, s', step.workload, step.event);
    }
  }

  lemma LocalSaveWrites(c: Config, s: State, s': State, w: string, e: Event)
    requires LocalStepNext(c, s, s', w, e) && Saves(c, s, Local(w, e)).Some?
    ensures w in s'.store && s'.store[w].size == Saves(c, s, Local(w, e)).value.size
    ensures s'.store == s.store[w := s'.store[w]]
  {
  }

  /** After a step that saves, the agent can start again if and only if the save passes the test on the store. */
  lemma SaveExactly(c: Config, s: State, s': State, step: Step)
    requires BelowMax(c) && NextStep(c, s, s', step) && Saves(c, s, step).Some?
    ensures StoreFits(c, s'.store) <==> FitsStore(c, s, Saves(c, s, step).value)
  {
    hide NextStep, Saves, StoreFits, UsageWithout;
    SaveWrites(c, s, s', step);
    var w := Saves(c, s, step).value.workload;
    SavedStoreFits(c, s.store, w, s'.store[w]);
  }

  // ---- every other step ----

  predicate DiskShrinks(v: Slice, v': Slice) {
    v'.disk.Some? ==> v.disk.Some? && v'.disk.value.size.Within(v.disk.value.size)
  }

  predicate SavesLocally(v: Slice, e: Event) {
    v.task.Some? && ((e == RollbackReturn(true, true) && v.task.value.RollbackRunning?)
                     || (e == DeleteSave(true) && v.task.value.DeleteSaving?))
  }

  lemma QuietDisk(kind: Kind, w: string, v: Slice, v': Slice, e: Event)
    requires Follows(kind, w, v, v', e) && !SavesLocally(v, e) && !kind.Serving?
    ensures DiskShrinks(v, v')
  {
  }

  lemma ServingDisk(w: string, v: Slice, v': Slice, e: Event)
    requires Follows(Serving, w, v, v', e) && !SavesLocally(v, e)
    ensures DiskShrinks(v, v')
  {
    hide NeedsCleanup, WellFormed;
  }

  lemma SliceDisk(c: Config, s: State, s': State, w: string, e: Event)
    requires Slices(s) && c.refusesUncertain && LocalStepNext(c, s, s', w, e)
    requires Saves(c, s, Local(w, e)).None?
    ensures DiskShrinks(View(s, w), View(s', w))
    ensures forall x | x != w :: View(s', x) == View(s, x)
  {
    hide Slices, LocalNext, Follows, SliceInv, Put, LocalStepNext, DiskShrinks;
    LocalSlices(c, s, s', w, e);
    var v, v' := View(s, w), View(s', w);
    assert v.task.Some? ==> w in s.mutations && v.task.value == s.mutations[w];
    if KindOf(s.mode).Serving? {
      ServingDisk(w, v, v', e);
    } else {
      QuietDisk(KindOf(s.mode), w, v, v', e);
    }
  }

  lemma LocalDisk(c: Config, s: State, s': State, w: string, e: Event)
    requires Slices(s) && c.refusesUncertain && LocalStepNext(c, s, s', w, e)
    requires Saves(c, s, Local(w, e)).None?
    ensures forall x | x in s'.store :: x in s.store && s'.store[x].size.Within(s.store[x].size)
  {
    hide Slices, Saves, LocalStepNext;
    SliceDisk(c, s, s', w, e);
    forall x | x in s'.store ensures x in s.store && s'.store[x].size.Within(s.store[x].size) {
      assert View(s', x).disk == Some(s'.store[x]);
      assert x != w ==> View(s', x) == View(s, x);
    }
  }

  /** A step that saves nothing of its own never makes a start impossible. */
  lemma OtherStepKeepsStore(c: Config, s: State, s': State, step: Step)
    requires Slices(s) && c.refusesUncertain && NextStep(c, s, s', step)
    requires Saves(c, s, step).None? && StoreFits(c, s.store)
    ensures StoreFits(c, s'.store)
  {
    hide Slices, StoreFits, Sum, LocalStepNext, AdmitNext, RestoredFits, JudgeUpdate, DeployBinds, Crashed;
    if step.Local? {
      LocalDisk(c, s, s', step.workload, step.event);
      StoreShrinks(c, s.store, s'.store);
    } else {
      OtherStore(c, s, s', step);
    }
  }

  lemma OtherStore(c: Config, s: State, s': State, step: Step)
    requires NextStep(c, s, s', step) && !step.Local? && Saves(c, s, step).None?
    ensures s'.store == s.store
  {
    hide Verdict, RestoredFits, JudgeUpdate, DeployBinds;
  }

  // ---- whole runs ----

  /** At every point of the run the stored records would pass the next start's capacity check. */
  ghost predicate StartableThroughout(c: Config, run: Run) {
    match run
    case Begin => true
    case After(before, _, state) => StartableThroughout(c, before) && StoreFits(c, state.store)
  }

  ghost predicate AllSavesFit(c: Config, run: Run) {
    match run
    case Begin => true
    case After(before, step, _) => AllSavesFit(c, before) && PassesStoreTest(c, Last(before), step)
  }

  lemma EmptyStoreFits(c: Config)
    ensures StoreFits(c, INITIAL.store)
  {
    hide StoreFits;
    StoreFitsExactly(c, INITIAL.store);
    NoneActive();
  }

  lemma LastStartable(c: Config, run: Run)
    requires StartableThroughout(c, run)
    ensures StoreFits(c, Last(run).store)
  {
    hide StoreFits;
    EmptyStoreFits(c);
  }

  lemma StepStartable(c: Config, s: State, s': State, step: Step)
    requires Slices(s) && c.refusesUncertain && BelowMax(c) && NextStep(c, s, s', step) && StoreFits(c, s.store)
    ensures StoreFits(c, s'.store) <==> PassesStoreTest(c, s, step)
  {
    hide Slices, NextStep, StoreFits, FitsStore, Saves;
    if Saves(c, s, step).Some? {
      SaveExactly(c, s, s', step);
    } else {
      OtherStepKeepsStore(c, s, s', step);
    }
  }

  /** A run can be started again at every point if and only if everything it saved fitted the store at the time. */
  lemma {:induction false} StartableExactly(c: Config, run: Run)
    requires Valid(c, run) && c.refusesUncertain && BelowMax(c)
    ensures StartableThroughout(c, run) <==> AllSavesFit(c, run)
  {
    hide NextStep, StoreFits, PassesStoreTest, Slices, PlacementInv, CountInv;
    match run
    case Begin =>
    case After(before, step, state) =>
      StartableExactly(c, before);
      InvariantHolds(c, before);
      if StartableThroughout(c, before) {
        LastStartable(c, before);
        StepStartable(c, Last(before), state, step);
      }
  }
}
