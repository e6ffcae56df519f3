/** What each operation does when its calls succeed, and when they fail in the way it is prepared for: from every state
    of the invariant in which it may begin there is a run of its own steps to exactly the state it promises, with
    nothing else touched.
 */
module Completion {
  import opened Options
  import opened Quantities
  import opened Records
  import opened Accounting
  import opened Lifecycle
  import opened LifecycleInvariant
  import opened LifecycleRuns

  /** A workload as an operation leaves it; the rest of the agent stays. */
  function With(s: State, w: string, disk: Option<Record>, memory: Option<Record>, pod: Option<string>): State {
    s.(store := Set(s.store, w, disk), active := Set(s.active, w, memory), pods := Set(s.pods, w, pod))
  }

  /** The guard is free, and there is room to take it. */
  ghost predicate MayStart(c: Config, s: State, w: string) {
    Inv(c, s) && c.refusesUncertain && s.mode.Up? && w !in s.mutations && |s.mutations| < MAX_CONFIGURED_WORKLOADS
  }

  lemma Free(c: Config, s: State, w: string)
    requires MayStart(c, s, w)
    ensures SliceInv(Serving, w, View(s, w)) && View(s, w).task.None? && View(s, w).queued.None?
  {
    InstantiateSlice(s, w);
  }

  // ---- runs of one workload's steps ----

  lemma OneStep(c: Config, s: State, trail: Trail, step: Step, s': State)
    requires Follow(c, s, trail) && NextStep(c, End(s, trail), s', step)
    ensures Follow(c, s, Onward(trail, step, s')) && End(s, Onward(trail, step, s')) == s'
  {
    hide NextStep;
  }

  /** From a state in which the workload's slice is `v`, one of its own steps. */
  lemma OneLocal(c: Config, s: State, trail: Trail, base: State, w: string, v: Slice, v': Slice, e: Event)
    returns (longer: Trail)
    requires Follow(c, s, trail) && End(s, trail) == Put(base, w, v) && base.mode.Up?
    requires v.queued.None? && v.quarantined == (w in base.quarantined)
    requires c.refusesUncertain && LocalNext(true, v, v', e) && Allowed(Serving, e)
    ensures Follow(c, s, longer) && End(s, longer) == Put(base, w, v')
    ensures longer == Onward(trail, Local(w, e), Put(base, w, v'))
  {
    hide LocalNext, Follow, Put, NextStep;
    var t := End(s, trail);
    assert t.mode.Up? && View(t, w) == v by { PutView(base, w, v); }
    assert Put(t, w, v') == Put(base, w, v') by { PutTwice(base, w, v, v'); }
    ApplyLocal(c, t, w, v', e);
    OneStep(c, s, trail, Local(w, e), Put(base, w, v'));
    longer := Onward(trail, Local(w, e), Put(base, w, v'));
  }

  lemma PutView(s: State, w: string, v: Slice)
    requires s.mode.Up? && v.queued.None? && v.quarantined == (w in s.quarantined)
    ensures Put(s, w, v).mode.Up? && View(Put(s, w, v), w) == v
  {
    ViewPut(s, w, v, w);
  }

  /** A state is its own slice put back. */
  lemma PutBack(s: State, w: string)
    requires s.mode.Up?
    ensures Put(s, w, View(s, w)) == s
  {
    hide Set;
    SetGet(s.store, w);
    SetGet(s.active, w);
    SetGet(s.pods, w);
    SetGet(s.late, w);
    SetGet(s.mutations, w);
  }

  /** The end of an operation whose late effects are as they were. */
  lemma PutIsWith(s: State, w: string, v: Slice)
    requires s.mode.Up? && v.task.None? && w !in s.mutations && v.late == Get(s.late, w)
    ensures Put(s, w, v) == With(s, w, v.disk, v.memory, v.pod)
  {
    hide Set;
    SetGet(s.late, w);
    SetGet(s.mutations, w);
  }

  lemma SetSome<V>(m: map<string, V>, w: string, v: V)
    ensures Set(m, w, Some(v)) == m[w := v]
  {
  }

  function Guarded(s: State, w: string, task: Task): State {
    s.(mutations := s.mutations[w := task],
       submitted := if task.UpdateGuarded? then s.submitted + {task.request} else s.submitted)
  }

  /** Taking the guard. */
  lemma Begin(c: Config, s: State, w: string, task: Task) returns (trail: Trail)
    requires MayStart(c, s, w)
    requires task.DeleteGuarded? || (task.DeployGuarded? && task.grant.workload == w)
             || (task.UpdateGuarded? && task.request.workload == w && Bound(task.request))
    ensures Follow(c, s, trail) && End(s, trail) == Guarded(s, w, task)
  {
    hide Inv;
    assert NextStep(c, s, Guarded(s, w, task), Acquire(w, task));
    trail := Onward(Here, Acquire(w, task), Guarded(s, w, task));
    assert End(s, Here) == s;
  }

  lemma GuardedIsPut(s: State, w: string, task: Task)
    requires s.mode.Up? && task.DeleteGuarded?
    ensures Guarded(s, w, task) == Put(s, w, View(s, w).(task := Some(task)))
  {
    hide Set;
    SetGet(s.store, w);
    SetGet(s.active, w);
    SetGet(s.pods, w);
    SetGet(s.late, w);
    SetSome(s.mutations, w, task);
  }

  /** A workload recorded, charged and being worked on. */
  lemma WorkingIsPut(s: State, w: string, r: Record, task: Task)
    requires s.mode.Up?
    ensures s.(store := s.store[w := r], active := s.active[w := r], mutations := s.mutations[w := task])
            == Put(s, w, View(s, w).(disk := Some(r), memory := Some(r), task := Some(task)))
  {
    hide Set;
    SetSome(s.store, w, r);
    SetSome(s.active, w, r);
    SetGet(s.pods, w);
    SetGet(s.late, w);
    SetSome(s.mutations, w, task);
  }

  /** What the invariant says of a workload in memory. */
  lemma ChargedIsPlain(w: string, v: Slice)
    requires SliceInv(Serving, w, v) && v.memory.Some?
    ensures v.memory.value.runtimeId == w != "" && v.memory.value.grant.workload == w
    ensures v.memory.value.phase.Active? ==> v.late.None?
  {
  }

  // ---- deletion ----

  function Marked(v: Slice, seen: Record): Slice {
    v.(memory := Some(seen.(deleting := true)), task := Some(DeleteSaving(seen, seen.(deleting := true))))
  }

  lemma MarkSteps(v: Slice, seen: Record, namespace: string)
    requires v.memory == Some(seen) && seen.phase.Active? && seen.runtimeId != "" && seen.grant.namespace == namespace
    ensures LocalNext(true, v.(task := Some(DeleteGuarded(namespace))), v.(task := Some(DeleteMarking(seen))),
                      DeleteRead)
    ensures LocalNext(true, v.(task := Some(DeleteMarking(seen))), Marked(v, seen), DeleteMark)
  {
  }

  ghost predicate MayDelete(c: Config, s: State, w: string, namespace: string) {
    MayStart(c, s, w) && w in s.active && s.active[w].phase.Active? && s.active[w].grant.namespace == namespace
  }

  lemma Marking(c: Config, s: State, w: string, namespace: string) returns (trail: Trail)
    requires MayDelete(c, s, w, namespace)
    ensures Follow(c, s, trail) && End(s, trail) == Put(s, w, Marked(View(s, w), s.active[w]))
    ensures View(s, w).queued.None? && View(s, w).late.None? && View(s, w).task.None?
  {
    hide Inv, Follow, Put, SliceInv, LocalNext, Marked;
    Free(c, s, w);
    var v, seen := View(s, w), s.active[w];
    ChargedIsPlain(w, v);
    trail := Begin(c, s, w, DeleteGuarded(namespace));
    GuardedIsPut(s, w, DeleteGuarded(namespace));
    MarkSteps(v, seen, namespace);
    MarkedShape(v, seen);
    trail := OneLocal(c, s, trail, s, w, v.(task := Some(DeleteGuarded(namespace))),
                      v.(task := Some(DeleteMarking(seen))), DeleteRead);
    trail := OneLocal(c, s, trail, s, w, v.(task := Some(DeleteMarking(seen))), Marked(v, seen), DeleteMark);
  }

  lemma MarkedShape(v: Slice, seen: Record)
    ensures Marked(v, seen).queued == v.queued && Marked(v, seen).quarantined == v.quarantined
  {
  }

  /** The mark is saved, and the runtime is asked to delete the pod. */
  lemma Running(c: Config, s: State, w: string, namespace: string) returns (trail: Trail)
    requires MayDelete(c, s, w, namespace)
    ensures Follow(c, s, trail)
    ensures var v := Marked(View(s, w), s.active[w]);
            End(s, trail) == Put(s, w, v.(disk := v.memory, task := Some(DeleteRunning(s.active[w]))))
    ensures View(s, w).queued.None? && View(s, w).late.None? && View(s, w).task.None?
  {
    hide Inv, Follow, Put;
    trail := Marking(c, s, w, namespace);
    var v := Marked(View(s, w), s.active[w]);
    trail := OneLocal(c, s, trail, s, w, v, v.(disk := v.memory, task := Some(DeleteRunning(s.active[w]))),
                      DeleteSave(true));
  }

  /** A cleanup that succeeds, and forgetting the workload. */
  lemma CleanedUp(c: Config, s: State, trail: Trail, base: State, w: string, v: Slice) returns (longer: Trail)
    requires Follow(c, s, trail) && End(s, trail) == Put(base, w, v) && base.mode.Up? && c.refusesUncertain
    requires v.queued.None? && v.quarantined == (w in base.quarantined)
    requires v.task.Some? && v.task.value.CleaningUp?
    ensures Follow(c, s, longer)
    ensures End(s, longer) == Put(base, w, v.(pod := None, disk := None, memory := None, task := None))
  {
    hide Follow, Put;
    var v1 := v.(pod := None, disk := None, task := Some(Forgetting));
    longer := OneLocal(c, s, trail, base, w, v, v1, CleanupReturn(true, true));
    longer := OneLocal(c, s, longer, base, w, v1, v1.(memory := None, task := None), Publish);
  }

  /** Deleting an active workload for its namespace, with every call succeeding, leaves nothing of it. */
  lemma DeleteCompletes(c: Config, s: State, w: string, namespace: string) returns (trail: Trail)
    requires MayDelete(c, s, w, namespace)
    ensures Follow(c, s, trail) && End(s, trail) == With(s, w, None, None, None)
  {
    hide Inv, Follow, With, Put;
    trail := Running(c, s, w, namespace);
    var seen := s.active[w];
    var v0 := Marked(View(s, w), seen);
    var v1 := v0.(disk := v0.memory, task := Some(DeleteRunning(seen)));
    var v2 := v1.(pod := None, disk := None, task := Some(Forgetting));
    var v3 := v2.(memory := None, task := None);
    trail := OneLocal(c, s, trail, s, w, v1, v2, DeleteReturn(true, true));
    trail := OneLocal(c, s, trail, s, w, v2, v3, Publish);
    PutIsWith(s, w, v3);
  }

  /** When the runtime cannot delete the pod, the workload stays as it was before the deletion. */
  lemma FailedDeleteRestores(c: Config, s: State, w: string, namespace: string) returns (trail: Trail)
    requires MayDelete(c, s, w, namespace)
    ensures Follow(c, s, trail)
    ensures End(s, trail) == With(s, w, Some(s.active[w]), Some(s.active[w]), Get(s.pods, w))
  {
    hide Inv, Follow, With, Put;
    trail := Running(c, s, w, namespace);
    var seen := s.active[w];
    var v0 := Marked(View(s, w), seen);
    var v1 := v0.(disk := v0.memory, task := Some(DeleteRunning(seen)));
    var v2 := v1.(disk := Some(seen), task := Some(DeleteRestoring(seen)));
    var v3 := v2.(memory := Some(seen), task := None);
    trail := OneLocal(c, s, trail, s, w, v1, v2, DeleteReturn(false, true));
    trail := OneLocal(c, s, trail, s, w, v2, v3, Publish);
    PutIsWith(s, w, v3);
  }

  /** When the pod is deleted but the record cannot be removed, the workload stays marked, so that deleting it can be
      tried again and a start finishes it. */
  lemma UnremovedDeleteStaysMarked(c: Config, s: State, w: string, namespace: string) returns (trail: Trail)
    requires MayDelete(c, s, w, namespace)
    ensures var marked := s.active[w].(deleting := true);
            Follow(c, s, trail) && End(s, trail) == With(s, w, Some(marked), Some(marked), None)
  {
    hide Inv, Follow, With, Put;
    trail := Running(c, s, w, namespace);
    var seen := s.active[w];
    var v0 := Marked(View(s, w), seen);
    var v1 := v0.(disk := v0.memory, task := Some(DeleteRunning(seen)));
    var v2 := v1.(pod := None, task := None);
    trail := OneLocal(c, s, trail, s, w, v1, v2, DeleteReturn(true, false));
    PutIsWith(s, w, v2);
  }

  /** A deletion whose mark cannot be saved is taken back: the workload is charged as one that is not being deleted. */
  lemma UnsavedDeleteIsTakenBack(c: Config, s: State, w: string, namespace: string) returns (trail: Trail)
    requires MayDelete(c, s, w, namespace)
    ensures Follow(c, s, trail)
    ensures End(s, trail) == With(s, w, Get(s.store, w), Some(s.active[w].(deleting := false)), Get(s.pods, w))
  {
    hide Inv, Follow, With, Put;
    trail := Marking(c, s, w, namespace);
    var seen := s.active[w];
    var v0 := Marked(View(s, w), seen);
    var v1 := v0.(task := Some(DeleteUnmarking));
    var v2 := v1.(memory := Some(seen.(deleting := false)), task := None);
    trail := OneLocal(c, s, trail, s, w, v0, v1, DeleteSave(false));
    trail := OneLocal(c, s, trail, s, w, v1, v2, Publish);
    PutIsWith(s, w, v2);
  }

  /** Deleting a workload whose creation certainly failed cleans it up. */
  lemma DeleteCleansUp(c: Config, s: State, w: string, namespace: string) returns (trail: Trail)
    requires MayStart(c, s, w) && w in s.active && s.active[w].grant.namespace == namespace
    requires s.active[w].phase == CleanupPending(false)
    ensures Follow(c, s, trail) && End(s, trail) == With(s, w, None, None, None)
  {
    hide Inv, Follow, With, Put, SliceInv;
    Free(c, s, w);
    var v0, stored := View(s, w), s.active[w];
    trail := Begin(c, s, w, DeleteGuarded(namespace));
    GuardedIsPut(s, w, DeleteGuarded(namespace));
    var v1 := v0.(task := Some(DeleteGuarded(namespace)));
    var v2 := v0.(task := Some(CleaningUp(stored)));
    trail := OneLocal(c, s, trail, s, w, v1, v2, DeleteRead);
    trail := CleanedUp(c, s, trail, s, w, v2);
    CertainIsNotLate(w, v0);
    PutIsWith(s, w, v0.(pod := None, disk := None, memory := None, task := None));
  }

  lemma CertainIsNotLate(w: string, v: Slice)
    requires SliceInv(Serving, w, v) && v.memory.Some? && v.memory.value.phase == CleanupPending(false)
    ensures v.late.None?
  {
  }

  // ---- update ----

  lemma Started(c: Config, s: State, w: string, request: UpdateRequest) returns (trail: Trail)
    requires MayStart(c, s, w) && request.workload == w && Bound(request) && JudgeUpdate(c, s, request).Accepted?
    ensures w in s.active && Follow(c, s, trail)
    ensures var next := Transitioning(s.active[w], request);
            End(s, trail) == Put(s.(submitted := s.submitted + {request}), w,
                                 View(s, w).(disk := Some(next), memory := Some(next),
                                             task := Some(UpdateRunning(s.active[w], request))))
  {
    hide Inv, Follow, UsageWithout, Transitioning, Put;
    trail := Begin(c, s, w, UpdateGuarded(request));
    var base, t := s.(submitted := s.submitted + {request}), Guarded(s, w, UpdateGuarded(request));
    var prior, next := s.active[w], Transitioning(s.active[w], request);
    var t' := base.(store := s.store[w := next], active := s.active[w := next],
                    mutations := s.mutations[w := UpdateRunning(prior, request)]);
    assert t'.mutations == t.mutations[w := UpdateRunning(prior, request)];
    assert NextStep(c, t, t', UpdateStart(w, true));
    OneStep(c, s, trail, UpdateStart(w, true), t');
    trail := Onward(trail, UpdateStart(w, true), t');
    WorkingIsPut(base, w, next, UpdateRunning(prior, request));
    assert View(base, w) == View(s, w);
  }

  /** An accepted update whose calls succeed leaves the requested grant and size, stored, charged and running. */
  lemma UpdateCompletes(c: Config, s: State, w: string, request: UpdateRequest) returns (trail: Trail)
    requires MayStart(c, s, w) && request.workload == w && Bound(request) && JudgeUpdate(c, s, request).Accepted?
    ensures var updated := Record(Active, request.grant, w, false, request.size, request.grant.execution);
            && Follow(c, s, trail)
            && End(s, trail) == With(s.(submitted := s.submitted + {request}), w, Some(updated), Some(updated),
                                     Some(request.requested))
  {
    hide Inv, Follow, With, Put, SliceInv, UsageWithout;
    Free(c, s, w);
    var v0, base := View(s, w), s.(submitted := s.submitted + {request});
    ChargedIsPlain(w, v0);
    var prior := s.active[w];
    trail := Started(c, s, w, request);
    var next, updated := Transitioning(prior, request), Applied(Transitioning(prior, request));
    var v1 := v0.(disk := Some(next), memory := Some(next), task := Some(UpdateRunning(prior, request)));
    var v2 := v1.(pod := Some(request.grant.revision), disk := Some(updated), task := Some(UpdateCommitting(updated)));
    var v3 := v2.(memory := Some(updated), task := None);
    trail := OneLocal(c, s, trail, base, w, v1, v2, UpdateReturn(true));
    trail := OneLocal(c, s, trail, base, w, v2, v3, Publish);
    PutIsWith(base, w, v3);
  }

  /** An accepted update that the runtime refuses is rolled back: the workload is stored, charged and running as it
      was. */
  lemma UpdateRollsBack(c: Config, s: State, w: string, request: UpdateRequest) returns (trail: Trail)
    requires MayStart(c, s, w) && request.workload == w && Bound(request) && JudgeUpdate(c, s, request).Accepted?
    ensures w in s.active && Follow(c, s, trail)
    ensures End(s, trail) == With(s.(submitted := s.submitted + {request}), w, Some(s.active[w]), Some(s.active[w]),
                                  Some(s.active[w].grant.revision))
  {
    hide Inv, Follow, With, Put, SliceInv, UsageWithout;
    Free(c, s, w);
    var v0, base := View(s, w), s.(submitted := s.submitted + {request});
    ChargedIsPlain(w, v0);
    var prior := s.active[w];
    trail := Started(c, s, w, request);
    var next := Transitioning(prior, request);
    var v1 := v0.(disk := Some(next), memory := Some(next), task := Some(UpdateRunning(prior, request)));
    var v2 := v1.(task := Some(RollbackRunning(prior, request)));
    trail := OneLocal(c, s, trail, base, w, v1, v2, UpdateFail(true));
    trail := RolledBack(c, s, trail, base, w, v2);
    PutIsWith(base, w, v2.(disk := Some(prior), memory := Some(prior), pod := Some(prior.grant.revision),
                           task := None));
  }

  /** An update that runs but cannot be saved stays recorded as in progress, for a start to roll forward. */
  lemma UnsavedUpdateStaysPending(c: Config, s: State, w: string, request: UpdateRequest) returns (trail: Trail)
    requires MayStart(c, s, w) && request.workload == w && Bound(request) && JudgeUpdate(c, s, request).Accepted?
    ensures w in s.active && Follow(c, s, trail)
    ensures var pending := s.active[w].(size := request.size,
                                        phase := Updating(s.active[w].grant, s.active[w].runtimeId, request));
            End(s, trail) == With(s.(submitted := s.submitted + {request}), w, Some(pending), Some(pending),
                                  Some(request.requested))
  {
    hide Inv, Follow, With, Put, SliceInv, UsageWithout;
    Free(c, s, w);
    var v0, base := View(s, w), s.(submitted := s.submitted + {request});
    var prior := s.active[w];
    ChargedIsPlain(w, v0);
    trail := Started(c, s, w, request);
    var next := Transitioning(prior, request);
    var v1 := v0.(disk := Some(next), memory := Some(next), task := Some(UpdateRunning(prior, request)));
    var v2 := v1.(pod := Some(request.grant.revision), task := None);
    trail := OneLocal(c, s, trail, base, w, v1, v2, UpdateReturn(false));
    PutIsWith(base, w, v2);
  }

  /** So does one that the runtime refuses and that cannot be rolled back. */
  lemma FailedRollbackStaysPending(c: Config, s: State, w: string, request: UpdateRequest) returns (trail: Trail)
    requires MayStart(c, s, w) && request.workload == w && Bound(request) && JudgeUpdate(c, s, request).Accepted?
    ensures w in s.active && Follow(c, s, trail)
    ensures var pending := s.active[w].(size := request.size,
                                        phase := Updating(s.active[w].grant, s.active[w].runtimeId, request));
            End(s, trail) == With(s.(submitted := s.submitted + {request}), w, Some(pending), Some(pending),
                                  Get(s.pods, w))
  {
    hide Inv, Follow, With, Put, SliceInv, UsageWithout;
    Free(c, s, w);
    var v0, base := View(s, w), s.(submitted := s.submitted + {request});
    var prior := s.active[w];
    ChargedIsPlain(w, v0);
    trail := Started(c, s, w, request);
    var next := Transitioning(prior, request);
    var v1 := v0.(disk := Some(next), memory := Some(next), task := Some(UpdateRunning(prior, request)));
    var v2 := v1.(task := Some(RollbackRunning(prior, request)));
    trail := OneLocal(c, s, trail, base, w, v1, v2, UpdateFail(true));
    trail := OneLocal(c, s, trail, base, w, v2, v2.(task := None), RollbackReturn(false, true));
    PutIsWith(base, w, v2.(task := None));
  }

  /** A rollback that succeeds. */
  lemma RolledBack(c: Config, s: State, trail: Trail, base: State, w: string, v: Slice) returns (longer: Trail)
    requires Follow(c, s, trail) && End(s, trail) == Put(base, w, v) && base.mode.Up? && c.refusesUncertain
    requires v.queued.None? && v.quarantined == (w in base.quarantined)
    requires v.task.Some? && v.task.value.RollbackRunning?
    ensures Follow(c, s, longer)
    ensures var prior := v.task.value.prior;
            End(s, longer) == Put(base, w, v.(disk := Some(prior), memory := Some(prior),
                                              pod := Some(prior.grant.revision), task := None))
  {
    hide Follow, Put;
    var prior, request := v.task.value.prior, v.task.value.request;
    var v1 := v.(pod := Some(prior.grant.revision), disk := Some(prior),
                 task := Some(RollbackCommitting(prior, request)));
    longer := OneLocal(c, s, trail, base, w, v, v1, RollbackReturn(true, true));
    longer := OneLocal(c, s, longer, base, w, v1, v1.(memory := Some(prior), task := None), Publish);
  }

  // ---- deployment ----

  function Used(s: State, grant: Grant): State {
    s.(reservations := s.reservations - {grant.reservation})
  }

  ghost predicate MayDeploy(c: Config, s: State, w: string, grant: Grant, now: nat, measured: Option<Size>) {
    MayStart(c, s, w) && grant.workload == w && DeployBinds(s, grant, now, measured)
  }

  lemma FreeToDeploy(c: Config, s: State, w: string, grant: Grant, now: nat, measured: Option<Size>)
    requires MayDeploy(c, s, w, grant, now, measured)
    ensures w !in s.store && w !in s.active && w !in s.pods && w !in s.late
  {
    hide CountInv;
    ReservedIsFree(s, grant.reservation);
    InstantiateSlice(s, w);
  }

  lemma Deploying(c: Config, s: State, w: string, grant: Grant, now: nat, measured: Option<Size>) returns (trail: Trail)
    requires MayDeploy(c, s, w, grant, now, measured)
    ensures Follow(c, s, trail)
    ensures var stored := Record(Creating, grant, w, false, s.reservations[grant.reservation].size, grant.execution);
            End(s, trail) == Put(Used(s, grant), w, View(s, w).(disk := Some(stored), memory := Some(stored),
                                                                task := Some(DeployRunning(stored))))
  {
    hide Inv, Follow, Put;
    trail := Begin(c, s, w, DeployGuarded(grant));
    var base, t := Used(s, grant), Guarded(s, w, DeployGuarded(grant));
    var stored := Record(Creating, grant, w, false, s.reservations[grant.reservation].size, grant.execution);
    var t' := base.(store := s.store[w := stored], active := s.active[w := stored],
                    mutations := s.mutations[w := DeployRunning(stored)]);
    assert NextStep(c, t, t', DeployStart(w, now, measured, true)) by {
      assert t'.mutations == t.mutations[w := DeployRunning(stored)];
      hide Inv, View;
    }
    hide NextStep, DeployBinds;
    OneStep(c, s, trail, DeployStart(w, now, measured, true), t');
    trail := Onward(trail, DeployStart(w, now, measured, true), t');
    WorkingIsPut(base, w, stored, DeployRunning(stored));
    assert View(base, w) == View(s, w);
  }

  /** A deploy whose calls succeed leaves its grant stored, charged with the reserved size, and running. */
  lemma DeployCompletes(c: Config, s: State, w: string, grant: Grant, now: nat, measured: Option<Size>)
    returns (trail: Trail)
    requires MayDeploy(c, s, w, grant, now, measured)
    ensures var r := Record(Active, grant, w, false, s.reservations[grant.reservation].size, grant.execution);
            && Follow(c, s, trail)
            && End(s, trail) == With(Used(s, grant), w, Some(r), Some(r), Some(grant.revision))
  {
    hide Inv, Follow, With, Put, SliceInv;
    FreeToDeploy(c, s, w, grant, now, measured);
    Free(c, s, w);
    var v0, base := View(s, w), Used(s, grant);
    trail := Deploying(c, s, w, grant, now, measured);
    var stored := Record(Creating, grant, w, false, s.reservations[grant.reservation].size, grant.execution);
    var done := stored.(phase := Active);
    var v1 := v0.(disk := Some(stored), memory := Some(stored), task := Some(DeployRunning(stored)));
    var v2 := v1.(pod := Some(grant.revision), disk := Some(done), task := Some(DeployCommitting(done)));
    var v3 := v2.(memory := Some(done), task := None);
    trail := OneLocal(c, s, trail, base, w, v1, v2, DeployReturn(Deployed, true));
    trail := OneLocal(c, s, trail, base, w, v2, v3, Publish);
    PutIsWith(base, w, v3);
  }

  /** A deploy that certainly failed, and whose cleanup succeeds, leaves nothing but the used reservation. */
  lemma FailedDeployCleansUp(c: Config, s: State, w: string, grant: Grant, now: nat, measured: Option<Size>)
    returns (trail: Trail)
    requires MayDeploy(c, s, w, grant, now, measured)
    ensures Follow(c, s, trail) && End(s, trail) == Used(s, grant)
  {
    hide Inv, Follow, With, Put, SliceInv;
    FreeToDeploy(c, s, w, grant, now, measured);
    Free(c, s, w);
    var v0, base := View(s, w), Used(s, grant);
    trail := Deploying(c, s, w, grant, now, measured);
    var stored := Record(Creating, grant, w, false, s.reservations[grant.reservation].size, grant.execution);
    var pending := stored.(phase := CleanupPending(false));
    var v1 := v0.(disk := Some(stored), memory := Some(stored), task := Some(DeployRunning(stored)));
    var v2 := v1.(task := Some(DeployFailing(stored, false)));
    var v3 := v2.(disk := Some(pending), memory := Some(pending), task := Some(CleaningUp(pending)));
    trail := OneLocal(c, s, trail, base, w, v1, v2, DeployReturn(Failed(false), true));
    trail := OneLocal(c, s, trail, base, w, v2, v3, FailDeploy(true));
    trail := CleanedUp(c, s, trail, base, w, v3);
    PutBack(base, w);
    assert View(base, w) == v0;
  }

  /** So does one that ran but could not be saved. */
  lemma UnsavedDeployCleansUp(c: Config, s: State, w: string, grant: Grant, now: nat, measured: Option<Size>)
    returns (trail: Trail)
    requires MayDeploy(c, s, w, grant, now, measured)
    ensures Follow(c, s, trail) && End(s, trail) == Used(s, grant)
  {
    hide Inv, Follow, With, Put, SliceInv;
    FreeToDeploy(c, s, w, grant, now, measured);
    Free(c, s, w);
    var v0, base := View(s, w), Used(s, grant);
    trail := Deploying(c, s, w, grant, now, measured);
    var stored := Record(Creating, grant, w, false, s.reservations[grant.reservation].size, grant.execution);
    var pending := stored.(phase := CleanupPending(false));
    var v1 := v0.(disk := Some(stored), memory := Some(stored), task := Some(DeployRunning(stored)));
    var v2 := v1.(pod := Some(grant.revision), task := Some(DeployFailing(stored.(phase := Active), false)));
    var v3 := v2.(disk := Some(pending), memory := Some(pending), task := Some(CleaningUp(pending)));
    trail := OneLocal(c, s, trail, base, w, v1, v2, DeployReturn(Deployed, false));
    trail := OneLocal(c, s, trail, base, w, v2, v3, FailDeploy(true));
    trail := CleanedUp(c, s, trail, base, w, v3);
    PutBack(base, w);
    assert View(base, w) == v0;
  }

  /** A deploy whose cleanup fails keeps its record, charged and marked for cleanup, for a deletion or a start to
      finish. */
  lemma FailedCleanupIsKept(c: Config, s: State, w: string, grant: Grant, now: nat, measured: Option<Size>)
    returns (trail: Trail)
    requires MayDeploy(c, s, w, grant, now, measured)
    ensures var r := Record(CleanupPending(false), grant, w, false, s.reservations[grant.reservation].size,
                            grant.execution);
            Follow(c, s, trail) && End(s, trail) == With(Used(s, grant), w, Some(r), Some(r), None)
  {
    hide Inv, Follow, With, Put, SliceInv;
    FreeToDeploy(c, s, w, grant, now, measured);
    Free(c, s, w);
    var v0, base := View(s, w), Used(s, grant);
    trail := Deploying(c, s, w, grant, now, measured);
    var stored := Record(Creating, grant, w, false, s.reservations[grant.reservation].size, grant.execution);
    var pending := stored.(phase := CleanupPending(false));
    var v1 := v0.(disk := Some(stored), memory := Some(stored), task := Some(DeployRunning(stored)));
    var v2 := v1.(task := Some(DeployFailing(stored, false)));
    var v3 := v2.(disk := Some(pending), memory := Some(pending), task := Some(CleaningUp(pending)));
    trail := OneLocal(c, s, trail, base, w, v1, v2, DeployReturn(Failed(false), true));
    trail := OneLocal(c, s, trail, base, w, v2, v3, FailDeploy(true));
    trail := OneLocal(c, s, trail, base, w, v3, v3.(task := None), CleanupReturn(false, true));
    PutIsWith(base, w, v3.(task := None));
  }

  /** A deploy that may still take effect keeps its record, charged and marked for cleanup. */
  lemma UncertainDeployIsKept(c: Config, s: State, w: string, grant: Grant, now: nat, measured: Option<Size>)
    returns (trail: Trail)
    requires MayDeploy(c, s, w, grant, now, measured)
    ensures var r := Record(CleanupPending(true), grant, w, false, s.reservations[grant.reservation].size,
                            grant.execution);
            && Follow(c, s, trail)
            && End(s, trail) == With(Used(s, grant), w, Some(r), Some(r), None).(late := s.late[w := grant.revision])
  {
    hide Inv, Follow, SliceInv, Put, With;
    FreeToDeploy(c, s, w, grant, now, measured);
    Free(c, s, w);
    var v0, base := View(s, w), Used(s, grant);
    trail := Deploying(c, s, w, grant, now, measured);
    var stored := Record(Creating, grant, w, false, s.reservations[grant.reservation].size, grant.execution);
    var pending := stored.(phase := CleanupPending(true));
    var v1 := v0.(disk := Some(stored), memory := Some(stored), task := Some(DeployRunning(stored)));
    var v2 := v1.(late := Some(grant.revision), task := Some(DeployFailing(stored, true)));
    var v3 := v2.(disk := Some(pending), memory := Some(pending), task := None);
    trail := OneLocal(c, s, trail, base, w, v1, v2, DeployReturn(Failed(true), true));
    trail := OneLocal(c, s, trail, base, w, v2, v3, FailDeploy(true));
    PutIsLate(base, w, v3, grant.revision);
  }

  /** A deploy that is cancelled in flight keeps its record, charged, and its creation may still take effect. */
  lemma CancelledDeployMayLand(c: Config, s: State, w: string, grant: Grant, now: nat, measured: Option<Size>)
    returns (trail: Trail)
    requires MayDeploy(c, s, w, grant, now, measured)
    ensures var r := Record(Creating, grant, w, false, s.reservations[grant.reservation].size, grant.execution);
            && Follow(c, s, trail)
            && End(s, trail) == With(Used(s, grant), w, Some(r), Some(r), Some(grant.revision))
                                  .(late := s.late[w := grant.revision])
  {
    hide Inv, Follow, SliceInv, Put, With;
    FreeToDeploy(c, s, w, grant, now, measured);
    Free(c, s, w);
    var v0, base := View(s, w), Used(s, grant);
    trail := Deploying(c, s, w, grant, now, measured);
    var stored := Record(Creating, grant, w, false, s.reservations[grant.reservation].size, grant.execution);
    var v1 := v0.(disk := Some(stored), memory := Some(stored), task := Some(DeployRunning(stored)));
    var v2 := v1.(late := Some(grant.revision), task := None);
    var v3 := v2.(pod := Some(grant.revision));
    trail := OneLocal(c, s, trail, base, w, v1, v2, Cancel);
    trail := OneLocal(c, s, trail, base, w, v2, v3, LateLand);
    PutIsLate(base, w, v3, grant.revision);
  }

  lemma PutIsLate(s: State, w: string, v: Slice, revision: string)
    requires s.mode.Up? && v.task.None? && w !in s.mutations && v.late == Some(revision)
    ensures Put(s, w, v) == With(s, w, v.disk, v.memory, v.pod).(late := s.late[w := revision])
  {
    hide Set;
    SetSome(s.late, w, revision);
    SetGet(s.mutations, w);
  }
}
