/** Whose doing each change is, over every run: which guard a task works under, by whose request a workload is
    deployed, updated or deleted, and what a finished operation leaves.
 */
module Ownership {
  import opened Options
  import opened Sets
  import opened Quantities
  import opened Records
  import opened Accounting
  import opened Lifecycle
  import opened LifecycleInvariant
  import opened LifecycleRuns

  /** The task with which a workload's guard was last taken. */
  function GuardOf(run: Run, w: string): Option<Task> {
    match run
    case Begin => None
    case After(before, Acquire(x, task), _) => if x == w then Some(task) else GuardOf(before, w)
    case After(before, _, _) => GuardOf(before, w)
  }

  /** A record may be cleaned up by the deploy that made it, or by a deletion for its own namespace. */
  predicate MayRemove(guard: Option<Task>, r: Record) {
    guard == Some(DeployGuarded(r.grant)) || guard == Some(DeleteGuarded(r.grant.namespace))
  }

  /** What a working task owes to the guard it was let in with. */
  predicate Entitled(guard: Option<Task>, v: Slice, task: Task) {
    match task
    case DeployRunning(stored) => guard == Some(DeployGuarded(stored.grant))
    case DeployCommitting(stored) => guard == Some(DeployGuarded(stored.grant)) && v.pod == Some(stored.grant.revision)
    case DeployFailing(stored, _) => guard == Some(DeployGuarded(stored.grant))
    case CleaningUp(stored) => MayRemove(guard, stored)
    case Forgetting => v.memory.Some? && MayRemove(guard, v.memory.value) && v.pod.None?
    case UpdateRunning(_, request) => guard == Some(UpdateGuarded(request))
    case UpdateCommitting(updated) =>
      && v.memory.Some? && v.memory.value.phase.Updating?
      && guard == Some(UpdateGuarded(v.memory.value.phase.request))
      && v.pod == Some(updated.grant.revision)
    case RollbackRunning(_, request) => guard == Some(UpdateGuarded(request))
    case RollbackCommitting(prior, request) =>
      guard == Some(UpdateGuarded(request)) && v.pod == Some(prior.grant.revision)
    case DeleteMarking(_) => v.memory.Some? && guard == Some(DeleteGuarded(v.memory.value.grant.namespace))
    case DeleteSaving(_, _) => v.memory.Some? && guard == Some(DeleteGuarded(v.memory.value.grant.namespace))
    case DeleteUnmarking => v.memory.Some? && guard == Some(DeleteGuarded(v.memory.value.grant.namespace))
    case DeleteRunning(_) => v.memory.Some? && guard == Some(DeleteGuarded(v.memory.value.grant.namespace))
    case DeleteRestoring(_) => v.memory.Some? && guard == Some(DeleteGuarded(v.memory.value.grant.namespace))
    case _ => guard == Some(task)
  }

  predicate SliceEntitled(guard: Option<Task>, v: Slice) {
    v.task.Some? ==> Entitled(guard, v, v.task.value)
  }

  ghost predicate AllEntitled(run: Run) {
    Last(run).mode.Up? ==> forall w :: SliceEntitled(GuardOf(run, w), View(Last(run), w))
  }

  // ---- steps of one workload ----

  lemma QuietEntitled(w: string, v: Slice, v': Slice, e: Event, guard: Option<Task>)
    requires Follows(Serving, w, v, v', e) && SliceEntitled(guard, v)
    requires e.LateLand? || e.LateGone? || e.Land? || e.Vanish? || e.Cancel?
    ensures SliceEntitled(guard, v')
  {
  }

  lemma DeployEntitled(w: string, v: Slice, v': Slice, e: Event, guard: Option<Task>)
    requires Follows(Serving, w, v, v', e) && SliceEntitled(guard, v)
    requires e.DeployReturn? || e.FailDeploy? || e.CleanupReturn?
    ensures SliceEntitled(guard, v')
  {
  }

  lemma UpdateEntitled(w: string, v: Slice, v': Slice, e: Event, guard: Option<Task>)
    requires Follows(Serving, w, v, v', e) && SliceEntitled(guard, v)
    requires e.UpdateReturn? || e.UpdateFail? || e.RollbackReturn?
    ensures SliceEntitled(guard, v')
  {
    hide NeedsCleanup, AllowedRevisions, InSync;
  }

  lemma DeleteEntitled(w: string, v: Slice, v': Slice, e: Event, guard: Option<Task>)
    requires Follows(Serving, w, v, v', e) && SliceEntitled(guard, v)
    requires e.DeleteRead? || e.DeleteMark? || e.DeleteSave? || e.DeleteReturn?
    ensures SliceEntitled(guard, v')
  {
    hide AllowedRevisions, InSync;
  }

  lemma LocalEntitled(w: string, v: Slice, v': Slice, e: Event, guard: Option<Task>)
    requires Follows(Serving, w, v, v', e) && SliceEntitled(guard, v)
    ensures SliceEntitled(guard, v')
  {
    hide SliceInv, SliceEntitled;
    match e
    case DeployReturn(_, _) => DeployEntitled(w, v, v', e, guard);
    case FailDeploy(_) => DeployEntitled(w, v, v', e, guard);
    case CleanupReturn(_, _) => DeployEntitled(w, v, v', e, guard);
    case UpdateReturn(_) => UpdateEntitled(w, v, v', e, guard);
    case UpdateFail(_) => UpdateEntitled(w, v, v', e, guard);
    case RollbackReturn(_, _) => UpdateEntitled(w, v, v', e, guard);
    case DeleteRead => DeleteEntitled(w, v, v', e, guard);
    case DeleteMark => DeleteEntitled(w, v, v', e, guard);
    case DeleteSave(_) => DeleteEntitled(w, v, v', e, guard);
    case DeleteReturn(_, _) => DeleteEntitled(w, v, v', e, guard);
    case Publish => PublishFinishes(v, v', guard);
    case _ => QuietEntitled(w, v, v', e, guard);
  }

  lemma PublishFinishes(v: Slice, v': Slice, guard: Option<Task>)
    requires LocalNext(true, v, v', Publish)
    ensures SliceEntitled(guard, v')
  {
  }

  // ---- every run ----

  lemma OneEntitled(run: Run, w: string)
    requires AllEntitled(run) && Last(run).mode.Up?
    ensures SliceEntitled(GuardOf(run, w), View(Last(run), w))
  {
  }

  /** A step that changes at most one workload and takes no other guard. */
  lemma EntitledExcept(before: Run, after: Run, w: string)
    requires AllEntitled(before) && Last(before).mode.Up?
    requires forall x | x != w ::
               GuardOf(after, x) == GuardOf(before, x) && View(Last(after), x) == View(Last(before), x)
    requires SliceEntitled(GuardOf(after, w), View(Last(after), w))
    ensures AllEntitled(after)
  {
    hide SliceEntitled, View, GuardOf;
    forall x ensures SliceEntitled(GuardOf(after, x), View(Last(after), x)) {
      OneEntitled(before, x);
    }
  }

  lemma AcquireEntitled(before: Run, w: string, task: Task, s': State)
    requires AllEntitled(before) && AcquireNext(Last(before), s', w, task)
    ensures AllEntitled(After(before, Acquire(w, task), s'))
  {
    EntitledExcept(before, After(before, Acquire(w, task), s'), w);
  }

  lemma DeployStartEntitled(c: Config, before: Run, step: Step, s': State)
    requires Inv(c, Last(before)) && AllEntitled(before) && NextStep(c, Last(before), s', step) && step.DeployStart?
    ensures AllEntitled(After(before, step, s'))
  {
    hide Inv, Slices;
    var s, w := Last(before), step.workload;
    assert SliceEntitled(GuardOf(before, w), View(s', w)) by {
      OneEntitled(before, w);
      assert View(s, w).task == Some(s.mutations[w]);
    }
    DeployStartFrame(s, s', w, step.now, step.measured, step.saved);
    EntitledExcept(before, After(before, step, s'), w);
  }

  lemma UpdateStartEntitled(c: Config, before: Run, step: Step, s': State)
    requires Inv(c, Last(before)) && AllEntitled(before) && NextStep(c, Last(before), s', step) && step.UpdateStart?
    ensures AllEntitled(After(before, step, s'))
  {
    hide Inv, Slices, JudgeUpdate;
    var s, w := Last(before), step.workload;
    assert SliceEntitled(GuardOf(before, w), View(s', w)) by {
      OneEntitled(before, w);
      assert View(s, w).task == Some(s.mutations[w]);
    }
    UpdateStartFrame(c, s, s', w, step.saved);
    EntitledExcept(before, After(before, step, s'), w);
  }

  lemma LocalStepEntitled(c: Config, before: Run, w: string, e: Event, s': State)
    requires Inv(c, Last(before)) && c.refusesUncertain && AllEntitled(before) && Last(before).mode.Up?
    requires LocalStepNext(c, Last(before), s', w, e)
    ensures AllEntitled(After(before, Local(w, e), s'))
  {
    hide Slices, PlacementInv, CountInv, LocalStepNext, Follows, SliceEntitled, AllEntitled;
    var s := Last(before);
    LocalSlices(c, s, s', w, e);
    OneEntitled(before, w);
    LocalEntitled(w, View(s, w), View(s', w), e, GuardOf(before, w));
    EntitledExcept(before, After(before, Local(w, e), s'), w);
  }

  lemma SameTasksEntitled(before: Run, step: Step, s': State)
    requires AllEntitled(before) && !step.Acquire? && Last(before).mode.Up?
    requires forall w :: View(s', w) == View(Last(before), w)
    ensures AllEntitled(After(before, step, s'))
  {
    hide SliceEntitled, View;
    OneEntitled(before, "");
    EntitledExcept(before, After(before, step, s'), "");
  }

  lemma StepEntitled(c: Config, before: Run, step: Step, s': State)
    requires Inv(c, Last(before)) && c.refusesUncertain && AllEntitled(before) && NextStep(c, Last(before), s', step)
    ensures AllEntitled(After(before, step, s'))
  {
    hide Inv, DeployBinds, JudgeUpdate, LocalStepNext, RestoredFits, Verdict, SliceEntitled;
    match step
    case Admit(request, now, id) => SameTasksEntitled(before, step, s');
    case Sweep(now) => SameTasksEntitled(before, step, s');
    case Acquire(w, task) => AcquireEntitled(before, w, task, s');
    case DeployStart(_, _, _, _) => DeployStartEntitled(c, before, step, s');
    case UpdateStart(_, _) => UpdateStartEntitled(c, before, step, s');
    case Local(w, e) =>
      if Last(before).mode.Up? {
        LocalStepEntitled(c, before, w, e, s');
      } else {
        StaysDown(c, Last(before), s', w, e);
      }
    case RestoreDone => NoTaskEntitled(before, step, s');
    case _ =>
  }

  lemma StaysDown(c: Config, s: State, s': State, w: string, e: Event)
    requires LocalStepNext(c, s, s', w, e) && !s.mode.Up?
    ensures !s'.mode.Up?
  {
    hide LocalNext;
  }

  lemma NoTaskEntitled(before: Run, step: Step, s': State)
    requires s'.mutations == map[]
    ensures AllEntitled(After(before, step, s'))
  {
    forall w ensures View(s', w).task.None? {
    }
  }

  /** In every run each task works under the guard it was let in with: a deploy for the grant, an update for the
      request, a deletion for the namespace of the workload it is deleting. */
  lemma {:induction false} TasksAreEntitled(c: Config, run: Run)
    requires Valid(c, run) && c.refusesUncertain
    ensures AllEntitled(run)
  {
    hide Inv, NextStep;
    match run
    case Begin => BeginEntitled();
    case After(before, step, state) =>
      hide AllEntitled;
      TasksAreEntitled(c, before);
      InvariantHolds(c, before);
      StepEntitled(c, before, step, state);
  }

  lemma BeginEntitled()
    ensures AllEntitled(Begin)
  {
  }

  // ---- deletions ----

  /** The steps by which a record or a pod goes away. */
  lemma WhatRemoves(v: Slice, v': Slice, e: Event)
    requires LocalNext(true, v, v', e) && Allowed(Serving, e)
    requires (v.disk.Some? && v'.disk.None?) || (v.pod.Some? && v'.pod.None?)
    ensures v.task.Some? && (v.task.value.CleaningUp? || v.task.value.DeleteRunning? || v.task.value.RestoreRemoving?
                             || v.task.value.RestoreUndoing?)
  {
    hide NeedsCleanup, Abandoned, Published;
  }

  /** The steps by which a record comes to be marked. */
  lemma WhatMarks(w: string, v: Slice, v': Slice, e: Event)
    requires Follows(Serving, w, v, v', e)
    requires v.disk.Some? && v'.disk.Some? && v'.disk.value.deleting && !v.disk.value.deleting
    ensures v.task.Some? && (v.task.value.DeleteSaving? || v.task.value.DeleteRunning?)
  {
    hide NeedsCleanup, AllowedRevisions, Published, InSync;
  }

  lemma EntitledToRemove(w: string, v: Slice, guard: Option<Task>)
    requires SliceInv(Serving, w, v) && SliceEntitled(guard, v) && v.disk.Some? && v.task.Some?
    ensures v.task.value.CleaningUp? || v.task.value.DeleteRunning? ==> MayRemove(guard, v.disk.value)
    ensures v.task.value.DeleteSaving? || v.task.value.DeleteRunning? ==>
              guard == Some(DeleteGuarded(v.disk.value.grant.namespace))
    ensures !v.task.value.RestoreRemoving? && !v.task.value.RestoreUndoing?
  {
    hide AllowedRevisions, NeedsCleanup;
  }

  lemma LocalRemoves(w: string, v: Slice, v': Slice, e: Event, guard: Option<Task>)
    requires Follows(Serving, w, v, v', e) && SliceEntitled(guard, v) && v.disk.Some?
    ensures v'.disk.None? || (v.pod.Some? && v'.pod.None?) ==> MayRemove(guard, v.disk.value)
    ensures v'.disk.Some? && v'.disk.value.deleting && !v.disk.value.deleting ==>
              guard == Some(DeleteGuarded(v.disk.value.grant.namespace))
  {
    hide SliceInv, SliceEntitled, LocalNext;
    if v'.disk.None? || (v.pod.Some? && v'.pod.None?) {
      WhatRemoves(v, v', e);
      EntitledToRemove(w, v, guard);
    }
    if v'.disk.Some? && v'.disk.value.deleting && !v.disk.value.deleting {
      WhatMarks(w, v, v', e);
      EntitledToRemove(w, v, guard);
    }
  }

  /** While the agent serves, a workload's record or pod goes away only by the deploy that made it or by a deletion
      guarded for the namespace of the record, and only such a deletion marks a record as being deleted. */
  lemma RemovedByOwner(c: Config, run: Run, step: Step, s': State, w: string)
    requires Valid(c, run) && c.refusesUncertain && Last(run).mode.Up? && NextStep(c, Last(run), s', step)
    requires w in Last(run).store
    ensures var s := Last(run);
            && (w !in s'.store || (w in s.pods && w !in s'.pods) ==>
                  || GuardOf(run, w) == Some(DeployGuarded(s.store[w].grant))
                  || GuardOf(run, w) == Some(DeleteGuarded(s.store[w].grant.namespace)))
            && (w in s'.store && s'.store[w].deleting && !s.store[w].deleting ==>
                  GuardOf(run, w) == Some(DeleteGuarded(s.store[w].grant.namespace)))
  {
    hide Inv, NextStep, AllEntitled;
    InvariantHolds(c, run);
    TasksAreEntitled(c, run);
    if step.Local? {
      assert LocalStepNext(c, Last(run), s', step.workload, step.event) by { LocalOnly(c, Last(run), s', step); }
      LocalRemovedByOwner(c, run, step.workload, step.event, s', w);
    } else {
      OthersRemoveNothing(c, Last(run), s', step, w);
    }
  }

  lemma LocalOnly(c: Config, s: State, s': State, step: Step)
    requires NextStep(c, s, s', step) && step.Local?
    ensures LocalStepNext(c, s, s', step.workload, step.event)
  {
    hide LocalStepNext;
  }

  lemma OthersRemoveNothing(c: Config, s: State, s': State, step: Step, w: string)
    requires NextStep(c, s, s', step) && !step.Local? && w in s.store
    ensures w in s'.store && (w in s.pods ==> w in s'.pods)
    ensures s'.store[w].deleting ==> s.store[w].deleting
  {
    hide RestoredFits, Verdict, DeployBinds, UsageWithout, Abandoned;
  }

  lemma LocalRemovedByOwner(c: Config, run: Run, x: string, e: Event, s': State, w: string)
    requires Inv(c, Last(run)) && c.refusesUncertain && Last(run).mode.Up? && AllEntitled(run)
    requires LocalStepNext(c, Last(run), s', x, e) && w in Last(run).store
    ensures var s := Last(run);
            && (w !in s'.store || (w in s.pods && w !in s'.pods) ==> MayRemove(GuardOf(run, w), s.store[w]))
            && (w in s'.store && s'.store[w].deleting && !s.store[w].deleting ==>
                  GuardOf(run, w) == Some(DeleteGuarded(s.store[w].grant.namespace)))
  {
    hide Slices, PlacementInv, CountInv, LocalStepNext, Follows, SliceEntitled, AllEntitled;
    var s := Last(run);
    LocalSlices(c, s, s', x, e);
    if x == w {
      OneEntitled(run, w);
      LocalRemoves(w, View(s, w), View(s', w), e, GuardOf(run, w));
    } else {
      assert View(s', w) == View(s, w);
    }
  }

  /** A deletion guarded with another namespace, or for a workload that is not there, does nothing but give its guard
      back. */
  lemma ForeignDeleteChangesNothing(c: Config, run: Run, w: string, e: Event, s': State)
    requires Valid(c, run) && c.refusesUncertain && Last(run).mode.Up?
    requires w in Last(run).mutations && Last(run).mutations[w].DeleteGuarded?
    requires w in Last(run).active ==> Last(run).active[w].grant.namespace != Last(run).mutations[w].namespace
    requires NextStep(c, Last(run), s', Local(w, e)) && !e.LateLand? && !e.LateGone?
    ensures var s := Last(run);
            s'.store == s.store && s'.active == s.active && s'.pods == s.pods && w !in s'.mutations
  {
    hide NeedsCleanup;
    var s := Last(run);
    var v' :| LocalNext(c.refusesUncertain, View(s, w), v', e) && s' == Put(s, w, v');
    assert v'.disk == Get(s.store, w) && v'.memory == Get(s.active, w) && v'.pod == Get(s.pods, w) && v'.task.None?;
    SetGet(s.store, w);
    SetGet(s.active, w);
    SetGet(s.pods, w);
  }

  // ---- what a finished operation leaves ----

  predicate Settled(s: State, w: string, revision: string) {
    && w in s.store && w in s.active && s.store[w] == s.active[w]
    && s.store[w].phase.Active? && s.store[w].grant.revision == revision
    && w in s.pods && s.pods[w] == revision
  }

  predicate Gone(s: State, w: string) {
    w !in s.store && w !in s.active && w !in s.pods
  }

  /** The last section of an operation, by the guard it was let in with: a deploy leaves its grant stored, charged and
      running, or nothing; an update leaves what it asked for, or the revision it expected, stored, charged and
      running; a deletion leaves nothing, or the workload charged as it was. */
  ghost predicate Finished(guard: Option<Task>, s': State, w: string) {
    && guard.Some?
    && match guard.value
       case DeployGuarded(grant) => (Settled(s', w, grant.revision) && s'.store[w].grant == grant) || Gone(s', w)
       case UpdateGuarded(request) =>
         || (Settled(s', w, request.requested) && s'.store[w].grant == request.grant
             && s'.store[w].size == request.size)
         || Settled(s', w, request.expected)
       case DeleteGuarded(namespace) =>
         Gone(s', w) || (w in s'.active && s'.active[w].grant.namespace == namespace && s'.active[w].phase.Active?)
       case _ => false
  }

  lemma SliceFinishes(w: string, v: Slice, v': Slice, guard: Option<Task>)
    requires Follows(Serving, w, v, v', Publish) && SliceEntitled(guard, v)
    ensures v'.task.None? && guard.Some?
    ensures match guard.value
            case DeployGuarded(grant) =>
              || (v'.disk == v'.memory && v'.disk.Some? && v'.disk.value.phase.Active? && v'.disk.value.grant == grant
                  && v'.pod == Some(grant.revision))
              || (v'.disk.None? && v'.memory.None? && v'.pod.None?)
            case UpdateGuarded(request) =>
              && v'.disk == v'.memory && v'.disk.Some? && v'.disk.value.phase.Active?
              && v'.pod == Some(v'.disk.value.grant.revision)
              && (|| (v'.disk.value.grant == request.grant && v'.disk.value.size == request.size
                      && request.grant.revision == request.requested)
                  || v'.disk.value.grant.revision == request.expected)
            case DeleteGuarded(namespace) =>
              || (v'.disk.None? && v'.memory.None? && v'.pod.None?)
              || (v'.memory.Some? && v'.memory.value.grant.namespace == namespace && v'.memory.value.phase.Active?)
            case _ => false
  {
    hide AllowedRevisions, NeedsCleanup, InSync;
  }

  lemma OperationsFinish(c: Config, run: Run, w: string, s': State)
    requires Valid(c, run) && c.refusesUncertain && Last(run).mode.Up? && NextStep(c, Last(run), s', Local(w, Publish))
    ensures Finished(GuardOf(run, w), s', w) && w !in s'.mutations
  {
    hide Slices, PlacementInv, CountInv, LocalStepNext, Follows, SliceEntitled, AllEntitled;
    var s := Last(run);
    InvariantHolds(c, run);
    TasksAreEntitled(c, run);
    LocalSlices(c, s, s', w, Publish);
    OneEntitled(run, w);
    SliceFinishes(w, View(s, w), View(s', w), GuardOf(run, w));
  }

  // ---- reservations ----

  datatype Admission = Admission(request: AdmissionRequest, now: nat)

  /** The admission that last made a reservation under an id. */
  function AdmissionOf(run: Run, id: string): Option<Admission> {
    match run
    case Begin => None
    case After(before, Admit(request, now, x), state) =>
      if x == id && id in state.reservations then Some(Admission(request, now)) else AdmissionOf(before, id)
    case After(before, _, _) => AdmissionOf(before, id)
  }

  predicate Reserves(a: Option<Admission>, r: Reservation) {
    && a.Some?
    && r.namespace == a.value.request.namespace
    && r.workload == a.value.request.workload
    && r.size == a.value.request.size
    && r.expiresAt == a.value.now + 30
  }

  /** The reservations one namespace holds. */
  function Of(reservations: ReservationMap, namespace: string): set<string> {
    set id | id in reservations && reservations[id].namespace == namespace
  }

  /** Every reservation is what an admission asked for, and there are not too many, in all or for one namespace. */
  ghost predicate ReservationsInOrder(run: Run) {
    && (forall id | id in Last(run).reservations :: Reserves(AdmissionOf(run, id), Last(run).reservations[id]))
    && |Last(run).reservations| <= 1024
    && forall namespace :: |Of(Last(run).reservations, namespace)| <= 16
  }

  lemma FewerInOrder(before: Run, step: Step, s': State)
    requires ReservationsInOrder(before) && !step.Admit?
    requires s'.reservations.Keys <= Last(before).reservations.Keys
    requires forall id | id in s'.reservations :: s'.reservations[id] == Last(before).reservations[id]
    ensures ReservationsInOrder(After(before, step, s'))
  {
    hide Reserves;
    FewerOf(s'.reservations, Last(before).reservations);
  }

  lemma FewerOf(fewer: ReservationMap, more: ReservationMap)
    requires fewer.Keys <= more.Keys && forall id | id in fewer :: fewer[id] == more[id]
    ensures |fewer| <= |more| && forall namespace :: |Of(fewer, namespace)| <= |Of(more, namespace)|
  {
    SubsetCardinality(fewer.Keys, more.Keys);
    forall namespace ensures |Of(fewer, namespace)| <= |Of(more, namespace)| {
      SubsetCardinality(Of(fewer, namespace), Of(more, namespace));
    }
  }

  lemma OneMoreOf(live: ReservationMap, id: string, r: Reservation)
    requires id !in live
    ensures |live[id := r]| == |live| + 1
    ensures forall namespace ::
              |Of(live[id := r], namespace)| == |Of(live, namespace)| + if namespace == r.namespace then 1 else 0
  {
    InsertCounts(live, id, r);
    var more := live[id := r];
    forall namespace
      ensures |Of(more, namespace)| == |Of(live, namespace)| + if namespace == r.namespace then 1 else 0
    {
      if namespace == r.namespace {
        assert Of(more, namespace) == Of(live, namespace) + {id};
      } else {
        assert Of(more, namespace) == Of(live, namespace);
      }
    }
  }

  lemma RoomToReserve(c: Config, s: State, live: ReservationMap, request: AdmissionRequest)
    requires Verdict(c, s.active, live, s.quarantined, request).None?
    ensures |live| < 1024 && |Of(live, request.namespace)| < 16
  {
    hide CombinedUsage, ReservedUsage, ReservedCeiling, Holds;
    assert Of(live, request.namespace) == set id | id in live && live[id].namespace == request.namespace;
  }

  lemma AdmitInOrder(c: Config, before: Run, request: AdmissionRequest, now: nat, id: string, s': State)
    requires ReservationsInOrder(before) && AdmitNext(c, Last(before), s', request, now, id)
    ensures ReservationsInOrder(After(before, Admit(request, now, id), s'))
  {
    hide Verdict, Of;
    var s := Last(before);
    var live := Live(s.reservations, now);
    FewerOf(live, s.reservations);
    if Verdict(c, s.active, live, s.quarantined, request).None? {
      RoomToReserve(c, s, live, request);
      var r := s'.reservations[id];
      assert s'.reservations == live[id := r];
      OneMoreOf(live, id, r);
      forall namespace ensures |Of(s'.reservations, namespace)| <= 16 {
        assert |Of(live, namespace)| <= |Of(s.reservations, namespace)|;
      }
    }
  }

  lemma StepInOrder(c: Config, before: Run, step: Step, s': State)
    requires ReservationsInOrder(before) && NextStep(c, Last(before), s', step)
    ensures ReservationsInOrder(After(before, step, s'))
  {
    hide ReservationsInOrder, Verdict, DeployBinds, JudgeUpdate, LocalNext, RestoredFits, Abandoned;
    if step.Admit? {
      AdmitInOrder(c, before, step.request, step.now, step.id, s');
    } else {
      FewerInOrder(before, step, s');
    }
  }

  /** In every run each reservation is what an accepted admission asked for, for thirty seconds; at most 1024 are held
      at once, and at most 16 by one namespace. */
  lemma {:induction false} ReservationsAreAdmitted(c: Config, run: Run)
    requires Valid(c, run)
    ensures ReservationsInOrder(run)
  {
    hide NextStep;
    match run
    case Begin =>
    case After(before, step, state) =>
      hide ReservationsInOrder;
      ReservationsAreAdmitted(c, before);
      StepInOrder(c, before, step, state);
  }

  /** A deploy goes on exactly when its save succeeds and its reservation is held and still live, was admitted for its
      own namespace and workload, and covers what was measured, and the workload has a name; it is then recorded and
      charged with the admitted size.  In every case the reservation is used up. */
  lemma DeployedAsAdmitted(c: Config, run: Run, w: string, now: nat, measured: Option<Size>, saved: bool, s': State)
    requires Valid(c, run) && c.refusesUncertain && NextStep(c, Last(run), s', DeployStart(w, now, measured, saved))
    ensures var s := Last(run);
            && GuardOf(run, w).Some? && GuardOf(run, w).value.DeployGuarded?
            && var grant := GuardOf(run, w).value.grant;
               var admission := AdmissionOf(run, grant.reservation);
               && grant.reservation !in s'.reservations
               && (w in s'.mutations <==>
                     && saved && w != "" && grant.reservation in s.reservations
                     && admission.Some? && now <= admission.value.now + 30
                     && admission.value.request.namespace == grant.namespace
                     && admission.value.request.workload == w
                     && measured.Some? && measured.value.Within(admission.value.request.size))
               && (if w in s'.mutations then
                     && w in s'.store && w in s'.active && s'.store[w] == s'.active[w]
                     && s'.store[w] == Record(Creating, grant, w, false, admission.value.request.size, grant.execution)
                   else s'.store == s.store && s'.active == s.active)
  {
    hide Inv, AllEntitled, ReservationsInOrder, DeployBinds;
    var s := Last(run);
    InvariantHolds(c, run);
    TasksAreEntitled(c, run);
    ReservationsAreAdmitted(c, run);
    DeployGuard(c, run, w);
    BindsExactly(c, run, w, now, measured);
  }

  lemma DeployGuard(c: Config, run: Run, w: string)
    requires Inv(c, Last(run)) && AllEntitled(run) && Last(run).mode.Up?
    requires w in Last(run).mutations && Last(run).mutations[w].DeployGuarded?
    ensures GuardOf(run, w) == Some(Last(run).mutations[w]) && Last(run).mutations[w].grant.workload == w
  {
    hide Slices, PlacementInv, CountInv;
    OneEntitled(run, w);
    assert View(Last(run), w).task == Some(Last(run).mutations[w]);
    GuardNames(Last(run), w);
  }

  lemma BindsExactly(c: Config, run: Run, w: string, now: nat, measured: Option<Size>)
    requires Inv(c, Last(run)) && Last(run).mode.Up? && ReservationsInOrder(run)
    requires w in Last(run).mutations && Last(run).mutations[w].DeployGuarded?
    requires Last(run).mutations[w].grant.workload == w
    ensures var s, grant := Last(run), Last(run).mutations[w].grant;
            var admission := AdmissionOf(run, grant.reservation);
            DeployBinds(s, grant, now, measured) <==>
              && w != "" && grant.reservation in s.reservations
              && admission.Some? && now <= admission.value.now + 30
              && admission.value.request.namespace == grant.namespace
              && admission.value.request.workload == w
              && measured.Some? && measured.value.Within(admission.value.request.size)
    ensures DeployBinds(Last(run), Last(run).mutations[w].grant, now, measured) ==>
              Last(run).reservations[Last(run).mutations[w].grant.reservation].size
              == AdmissionOf(run, Last(run).mutations[w].grant.reservation).value.request.size
  {
    hide Slices, CountInv, Of;
  }

  /** An admission that is accepted can be deployed: any grant for it with a fitting measurement goes on until it
      expires. */
  lemma AdmittedCanDeploy(c: Config, s: State, s': State, request: AdmissionRequest, now: nat, id: string, grant: Grant,
                          later: nat, measured: Size)
    requires PlacementInv(s) && AdmitNext(c, s, s', request, now, id)
    requires Verdict(c, s.active, Live(s.reservations, now), s.quarantined, request).None?
    requires grant.reservation == id && grant.namespace == request.namespace && grant.workload == request.workload
    requires request.workload != "" && later <= now + 30 && measured.Within(request.size)
    ensures DeployBinds(s', grant, later, Some(measured))
  {
    hide CombinedUsage, ReservedUsage, ReservedCeiling, ReservationsFor;
  }

  /** An offer or an admission, accepted or not, drops exactly the reservations that have expired. */
  lemma SweepsExactly(c: Config, s: State, s': State, step: Step, id: string)
    requires NextStep(c, s, s', step) && (step.Sweep? || (step.Admit? && step.id != id))
    ensures id in s'.reservations <==> id in s.reservations && step.now <= s.reservations[id].expiresAt
    ensures id in s'.reservations ==> s'.reservations[id] == s.reservations[id]
  {
    hide Verdict;
  }
}
