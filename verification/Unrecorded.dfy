/** Records that are only in memory.

    Deleting a workload removes its stored record before its entry in `active`.  Between the two the task waits,
    and a task that waits can be cancelled; that is the only way the agent comes to charge a workload that has
    no record.
 */
module Unrecorded {
  import opened Records
  import opened Accounting
  import opened Lifecycle
  import opened LifecycleInvariant
  import opened LifecycleRuns

  /** Everything in memory has a stored record, unless a task has removed it and is about to finish. */
  predicate Recorded(s: State) {
    forall w | w in s.active :: w in s.store || (w in s.mutations && s.mutations[w].Forgetting?)
  }

  predicate SliceRecorded(v: Slice) {
    v.memory.Some? ==> v.disk.Some? || (v.task.Some? && v.task.value.Forgetting?)
  }

  /** The cancellation of a task between removing the record and removing the entry. */
  predicate CancelsForgetting(s: State, step: Step) {
    step.Local? && step.event.Cancel? && step.workload in s.mutations && s.mutations[step.workload].Forgetting?
  }

  // ---- one workload ----

  lemma ServingRecorded(w: string, v: Slice, v': Slice, e: Event)
    requires Follows(Serving, w, v, v', e) && SliceRecorded(v)
    ensures SliceRecorded(v') <==> !(e.Cancel? && v.task.Some? && v.task.value.Forgetting?)
  {
    hide NeedsCleanup, WellFormed, InSync, AllowedRevisions, Swap;
  }

  lemma QuietRecorded(kind: Kind, w: string, v: Slice, v': Slice, e: Event)
    requires Follows(kind, w, v, v', e) && !kind.Serving?
    ensures SliceRecorded(v') && !e.Cancel?
  {
  }

  // ---- the whole agent ----

  lemma RecordedSlice(s: State, w: string)
    requires Recorded(s)
    ensures SliceRecorded(View(s, w))
  {
  }

  lemma SlicesRecorded(s: State)
    requires forall w :: SliceRecorded(View(s, w))
    ensures Recorded(s)
  {
    forall w | w in s.active ensures w in s.store || (w in s.mutations && s.mutations[w].Forgetting?) {
      assert SliceRecorded(View(s, w));
    }
  }

  lemma LocalRecorded(c: Config, s: State, s': State, w: string, e: Event)
    requires Slices(s) && c.refusesUncertain && LocalStepNext(c, s, s', w, e) && Recorded(s)
    ensures Recorded(s') <==> !CancelsForgetting(s, Local(w, e))
  {
    hide Slices, LocalNext, LocalStepNext, Follows, SliceRecorded, Recorded;
    LocalSlices(c, s, s', w, e);
    var v, v' := View(s, w), View(s', w);
    assert v.task.Some? <==> w in s.mutations;
    assert v.task.Some? ==> v.task.value == s.mutations[w];
    RecordedSlice(s, w);
    if KindOf(s.mode).Serving? {
      ServingRecorded(w, v, v', e);
    } else {
      QuietRecorded(KindOf(s.mode), w, v, v', e);
    }
    if CancelsForgetting(s, Local(w, e)) {
      if Recorded(s') {
        RecordedSlice(s', w);
      }
    } else {
      forall x ensures SliceRecorded(View(s', x)) {
        RecordedSlice(s, x);
      }
      SlicesRecorded(s');
    }
  }

  lemma WholeRecorded(c: Config, s: State, s': State, step: Step)
    requires NextStep(c, s, s', step) && !step.Local? && Recorded(s)
    ensures Recorded(s')
  {
    hide Verdict, RestoredFits, JudgeUpdate, DeployBinds, Abandoned;
  }

  /** A step leaves a charged workload without a record if and only if it cancels a task that has just removed
      the record. */
  lemma StepRecorded(c: Config, s: State, s': State, step: Step)
    requires Inv(c, s) && c.refusesUncertain && NextStep(c, s, s', step) && Recorded(s)
    ensures Recorded(s') <==> !CancelsForgetting(s, step)
  {
    hide Slices, LocalStepNext, Recorded, PlacementInv, CountInv;
    if step.Local? {
      LocalRecorded(c, s, s', step.workload, step.event);
    } else {
      hide NextStep;
      WholeRecorded(c, s, s', step);
    }
  }

  predicate RecordedThroughout(run: Run) {
    match run
    case Begin => true
    case After(before, _, state) => RecordedThroughout(before) && Recorded(state)
  }

  predicate NeverCancelsForgetting(run: Run) {
    match run
    case Begin => true
    case After(before, step, _) => NeverCancelsForgetting(before) && !CancelsForgetting(Last(before), step)
  }

  /** Everything charged has a record throughout a run if and only if no such task is cancelled in it. */
  lemma {:induction false} RecordedExactly(c: Config, run: Run)
    requires Valid(c, run) && c.refusesUncertain
    ensures RecordedThroughout(run) <==> NeverCancelsForgetting(run)
  {
    hide NextStep, Recorded, CancelsForgetting, Inv;
    match run
    case Begin =>
    case After(before, step, state) =>
      RecordedExactly(c, before);
      InvariantHolds(c, before);
      if RecordedThroughout(before) {
        LastRecorded(before);
        StepRecorded(c, Last(before), state, step);
      }
  }

  lemma LastRecorded(run: Run)
    requires RecordedThroughout(run)
    ensures Recorded(Last(run))
  {
  }

  /** Restarting clears such entries: right after a start everything charged has a record. */
  lemma StartIsRecorded(c: Config, run: Run)
    requires Valid(c, run) && c.refusesUncertain && run.After? && run.step.RestoreDone?
    ensures Last(run).active.Keys <= Last(run).store.Keys
  {
    hide Valid, Slices;
    assert Valid(c, run.before) && NextStep(c, Last(run.before), run.state, run.step) by { Unfold(c, run); }
    InvariantHolds(c, run.before);
    var s := Last(run.before);
    forall w | w in s.active ensures w in s.store {
      InstantiateSlice(s, w);
      assert View(s, w).memory.Some?;
    }
  }

  lemma Unfold(c: Config, run: Run)
    requires Valid(c, run) && run.After?
    ensures Valid(c, run.before) && NextStep(c, Last(run.before), run.state, run.step)
  {
    hide NextStep;
  }
}
