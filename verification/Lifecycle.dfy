/** The agent's workload lifecycle as a state machine.

    One step is one stretch of `AgentService` code between two awaits or lock
    releases.  Between steps any other task may run, any task waiting at an await
    may be cancelled, and the process may crash.  Every store call may fail, and
    then changes nothing (`Landing` lifts this), and every runtime call may fail
    with or without having taken effect.

    Most steps touch a single workload.  They are written on a `Slice`, the part of
    the state that belongs to one workload: its durable record, its entry in the
    in-memory `active` map, its pod, and the task holding its mutation guard.
 */
module Lifecycle {
  import opened Options
  import opened Quantities
  import opened Records
  import opened Accounting

  const MAX_CONFIGURED_WORKLOADS: nat := 10_000

  /** The holder of a workload's mutation guard, and where in its code it is. */
  datatype Task =
    | Enrolling
    // deploy_inner and failed_deploy
    | DeployGuarded(grant: Grant)
    | DeployRunning(stored: Record)
    | DeployCommitting(stored: Record)
    | DeployFailing(stored: Record, uncertain: bool)
    | CleaningUp(stored: Record)
    | Forgetting
    // update_inner
    | UpdateGuarded(request: UpdateRequest)
    | UpdateRunning(prior: Record, request: UpdateRequest)
    | UpdateCommitting(updated: Record)
    | RollbackRunning(prior: Record, request: UpdateRequest)
    | RollbackCommitting(prior: Record, request: UpdateRequest)
    // command(Delete)
    | DeleteGuarded(namespace: string)
    | DeleteMarking(seen: Record)
    | DeleteSaving(seen: Record, marked: Record)
    | DeleteUnmarking
    | DeleteRunning(seen: Record)
    | DeleteRestoring(seen: Record)
    // restore_one
    | RestoreRemoving(stored: Record)
    | RestoreUpdating(stored: Record)
    | RestoreDeploying(stored: Record)
    | RestoreUndoing(stored: Record)

  /** `queued` holds the loaded records `restore_inner` has not reached yet. */
  datatype Mode = Down | Restoring(queued: map<string, Record>) | Up

  /** `active`, `quarantined`, `reservations` and `mutations` are process memory; the rest survives a
      crash.  `late` holds creations that were abandoned in flight and may still take effect.
      `submitted` records, for the proofs, every update request that reached the guard. */
  datatype State = State(
    mode: Mode,
    store: map<string, Record>,
    pods: map<string, string>,
    late: map<string, string>,
    active: map<string, Record>,
    quarantined: set<string>,
    reservations: map<string, Reservation>,
    mutations: map<string, Task>,
    submitted: set<UpdateRequest>)

  const INITIAL := State(Down, map[], map[], map[], map[], {}, map[], map[], {})

  datatype Slice = Slice(
    disk: Option<Record>,
    memory: Option<Record>,
    pod: Option<string>,
    late: Option<string>,
    task: Option<Task>,
    queued: Option<Record>,
    quarantined: bool)

  function Get<V>(m: map<string, V>, w: string): Option<V> {
    if w in m then Some(m[w]) else None
  }

  function Set<V>(m: map<string, V>, w: string, v: Option<V>): map<string, V> {
    if v.Some? then m[w := v.value] else m - {w}
  }

  function View(s: State, w: string): Slice {
    Slice(Get(s.store, w), Get(s.active, w), Get(s.pods, w), Get(s.late, w), Get(s.mutations, w),
          if s.mode.Restoring? then Get(s.mode.queued, w) else None, w in s.quarantined)
  }

  /** Write one workload's slice back; no local step changes the quarantine. */
  function Put(s: State, w: string, v: Slice): State {
    s.(store := Set(s.store, w, v.disk),
       active := Set(s.active, w, v.memory),
       pods := Set(s.pods, w, v.pod),
       late := Set(s.late, w, v.late),
       mutations := Set(s.mutations, w, v.task),
       mode := if s.mode.Restoring? then Restoring(Set(s.mode.queued, w, v.queued)) else s.mode)
  }

  /** Whether the runtime carries out a cleanup for a record in this phase. */
  predicate Accepts(refuses: bool, phase: Phase) {
    phase == CleanupPending(false) || !refuses
  }

  datatype DeployOutcome = Deployed | WrongIdentity | Failed(uncertain: bool)
  datatype Plan = Healthy | Proceed | GiveUp

  datatype Event =
    // the environment
    | Cancel
    | Land
    | Vanish
    | LateLand
    | LateGone
    // deploy, cleanup
    | DeployReturn(outcome: DeployOutcome, saved: bool)
    | FailDeploy(saved: bool)
    | CleanupReturn(ok: bool, removed: bool)
    // update
    | UpdateReturn(saved: bool)
    | UpdateFail(decoded: bool)
    | RollbackReturn(ok: bool, saved: bool)
    // delete
    | DeleteRead
    | DeleteMark
    | DeleteSave(saved: bool)
    | DeleteReturn(ok: bool, written: bool)
    // the last locked section of a task
    | Publish
    // restore
    | RestorePick(plan: Plan)
    | RestoreReturn(ok: bool, saved: bool)

  /** The revision a task's in-flight `runtime.deploy` would put in place. */
  function DeployTarget(task: Task): Option<string> {
    match task
    case DeployRunning(stored) => Some(stored.grant.revision)
    case UpdateRunning(_, request) => Some(request.grant.revision)
    case RollbackRunning(prior, _) => Some(prior.grant.revision)
    case RestoreUpdating(stored) =>
      if stored.phase.Updating? then Some(stored.phase.request.grant.revision) else None
    case RestoreDeploying(stored) => Some(stored.grant.revision)
    case _ => None
  }

  predicate Deletes(task: Task) {
    task.CleaningUp? || task.DeleteRunning? || task.RestoreRemoving? || task.RestoreUndoing?
  }

  /** Between setting `deleting` and saving it there is no await, and a restore is not cancelled alone. */
  predicate Cancellable(task: Task) {
    !task.DeleteSaving? && !task.RestoreRemoving? && !task.RestoreUpdating?
    && !task.RestoreDeploying? && !task.RestoreUndoing?
  }

  /** What a process is doing, leaving aside what it has still to restore. */
  datatype Kind = Stopped | Starting | Serving

  function KindOf(mode: Mode): Kind {
    if mode.Down? then Stopped else if mode.Up? then Serving else Starting
  }

  predicate Allowed(kind: Kind, e: Event) {
    match e
    case LateLand => true
    case LateGone => true
    case Land => !kind.Stopped?
    case Vanish => !kind.Stopped?
    case RestorePick(_) => kind.Starting?
    case RestoreReturn(_, _) => kind.Starting?
    case _ => kind.Serving?
  }

  function Finish(v: Slice): Slice {
    v.(task := None)
  }

  /** The state a crash or a cancelled task leaves of an in-flight first creation. */
  function Abandoned(v: Slice): Option<string> {
    if v.task.Some? && v.task.value.DeployRunning? then Some(v.task.value.stored.grant.revision) else v.late
  }

  /** `deploy_inner` after the runtime call returns. */
  function AfterDeploy(v: Slice, stored: Record, outcome: DeployOutcome, saved: bool): Slice {
    match outcome
    case Deployed =>
      var running := v.(pod := Some(stored.grant.revision));
      var done := stored.(phase := Active);
      if saved then running.(disk := Some(done), task := Some(DeployCommitting(done)))
      else running.(task := Some(DeployFailing(done, false)))
    case WrongIdentity =>
      v.(late := Some(stored.grant.revision), task := Some(DeployFailing(stored, true)))
    case Failed(uncertain) =>
      v.(late := if uncertain then Some(stored.grant.revision) else v.late,
         task := Some(DeployFailing(stored, uncertain)))
  }

  /** The locked section of `failed_deploy`, and the entry to `cleanup_pending`. */
  function AfterFailure(v: Slice, refuses: bool, stored: Record, uncertain: bool, saved: bool): Slice {
    var pending := stored.(phase := CleanupPending(uncertain));
    v.(memory := Some(pending),
       disk := if saved then Some(pending) else v.disk,
       task := if Accepts(refuses, pending.phase) then Some(CleaningUp(pending)) else None)
  }

  /** `command(Delete)` re-reading the record under the guard. */
  function AfterDeleteRead(v: Slice, refuses: bool, namespace: string): Slice {
    if v.memory.None? || v.memory.value.grant.namespace != namespace then Finish(v)
    else if NeedsCleanup(v.memory.value) then
      if Accepts(refuses, v.memory.value.phase) then v.(task := Some(CleaningUp(v.memory.value))) else Finish(v)
    else if v.memory.value.phase.Updating? then Finish(v)
    else v.(task := Some(DeleteMarking(v.memory.value)))
  }

  function AfterDeleteMark(v: Slice, seen: Record): Slice {
    if v.memory.None? then Finish(v)
    else
      var marked := v.memory.value.(deleting := true);
      v.(memory := Some(marked), task := Some(DeleteSaving(seen, marked)))
  }

  function AfterDelete(v: Slice, seen: Record, ok: bool, written: bool): Slice {
    if ok then
      if written then v.(pod := None, disk := None, task := Some(Forgetting)) else v.(pod := None, task := None)
    else if written then v.(disk := Some(seen), task := Some(DeleteRestoring(seen)))
    else Finish(v)
  }

  predicate Publishes(task: Task) {
    task.DeployCommitting? || task.UpdateCommitting? || task.RollbackCommitting? || task.DeleteRestoring?
    || task.Forgetting? || task.DeleteUnmarking?
  }

  /** The `active` entry left by a task's last locked section. */
  function Published(v: Slice, task: Task): Option<Record>
    requires Publishes(task)
  {
    match task
    case DeployCommitting(stored) => Some(stored)
    case UpdateCommitting(updated) => Some(updated)
    case RollbackCommitting(prior, _) => Some(prior)
    case DeleteRestoring(seen) => Some(seen)
    case Forgetting => None
    case DeleteUnmarking => if v.memory.Some? then Some(v.memory.value.(deleting := false)) else None
  }

  /** `restore_one` up to its first runtime call that changes something. */
  function AfterPick(v: Slice, refuses: bool, stored: Record, plan: Plan): Slice {
    var kept := v.(queued := None, memory := Some(stored));
    var next := v.(queued := None);
    if NeedsCleanup(stored) then
      if Accepts(refuses, stored.phase) then next.(task := Some(RestoreRemoving(stored))) else kept
    else if stored.deleting then next.(task := Some(RestoreRemoving(stored)))
    else if !plan.Proceed? then kept
    else if stored.phase.Updating? then next.(task := Some(RestoreUpdating(stored)))
    else next.(task := Some(RestoreDeploying(stored)))
  }

  /** `restore_one` after that call returns.  A record that could not be reconciled is retained. */
  function AfterRestore(v: Slice, task: Task, ok: bool, saved: bool): Slice {
    match task
    case RestoreRemoving(stored) =>
      var gone := Finish(v).(pod := if ok then None else v.pod);
      if ok && saved then gone.(disk := None) else gone.(memory := Some(stored))
    case RestoreUpdating(stored) =>
      if !ok || !stored.phase.Updating? then Finish(v).(memory := Some(stored))
      else
        var running := Finish(v).(pod := Some(stored.phase.request.grant.revision));
        if saved then running.(disk := Some(Applied(stored)), memory := Some(Applied(stored)))
        else running.(memory := Some(stored))
    case RestoreDeploying(stored) =>
      if !ok then Finish(v).(memory := Some(stored))
      else
        var renamed := stored.(runtimeId := TargetId(stored.grant.workload));
        var running := v.(pod := Some(stored.grant.revision));
        if saved then Finish(running).(disk := Some(renamed), memory := Some(renamed))
        else running.(task := Some(RestoreUndoing(stored)))
    case RestoreUndoing(stored) =>
      Finish(v).(pod := if ok then None else v.pod, memory := Some(stored))
    case _ => v
  }

  /** One step of one workload. */
  predicate LocalNext(refuses: bool, v: Slice, v': Slice, e: Event) {
    match e
    case LateLand => v.late.Some? && v' == v.(pod := v.late)
    case LateGone => v.late.Some? && v' == v.(late := None)
    case Land => v.task.Some? && DeployTarget(v.task.value).Some? && v' == v.(pod := DeployTarget(v.task.value))
    case Vanish => v.task.Some? && Deletes(v.task.value) && v' == v.(pod := None)
    case Cancel => v.task.Some? && Cancellable(v.task.value) && v' == Finish(v).(late := Abandoned(v))
    case DeployReturn(outcome, saved) =>
      v.task.Some? && v.task.value.DeployRunning? && v' == AfterDeploy(v, v.task.value.stored, outcome, saved)
    case FailDeploy(saved) =>
      v.task.Some? && v.task.value.DeployFailing?
      && v' == AfterFailure(v, refuses, v.task.value.stored, v.task.value.uncertain, saved)
    case CleanupReturn(ok, removed) =>
      v.task.Some? && v.task.value.CleaningUp?
      && v' == (if ok && removed then v.(pod := None, disk := None, task := Some(Forgetting))
                else Finish(v).(pod := if ok then None else v.pod))
    case UpdateReturn(saved) =>
      v.task.Some? && v.task.value.UpdateRunning?
      && var updated := Applied(Transitioning(v.task.value.prior, v.task.value.request));
         var running := v.(pod := Some(v.task.value.request.grant.revision));
         v' == (if saved then running.(disk := Some(updated), task := Some(UpdateCommitting(updated)))
                else Finish(running))
    case UpdateFail(decoded) =>
      v.task.Some? && v.task.value.UpdateRunning?
      && v' == (if decoded then v.(task := Some(RollbackRunning(v.task.value.prior, v.task.value.request)))
                else Finish(v))
    case RollbackReturn(ok, saved) =>
      v.task.Some? && v.task.value.RollbackRunning?
      && var prior := v.task.value.prior;
         v' == (if !ok then Finish(v)
                else if saved then
                  v.(pod := Some(prior.grant.revision), disk := Some(prior),
                     task := Some(RollbackCommitting(prior, v.task.value.request)))
                else Finish(v).(pod := Some(prior.grant.revision)))
    case DeleteRead =>
      v.task.Some? && v.task.value.DeleteGuarded? && v' == AfterDeleteRead(v, refuses, v.task.value.namespace)
    case DeleteMark =>
      v.task.Some? && v.task.value.DeleteMarking? && v' == AfterDeleteMark(v, v.task.value.seen)
    case DeleteSave(saved) =>
      v.task.Some? && v.task.value.DeleteSaving?
      && v' == (if saved then v.(disk := Some(v.task.value.marked), task := Some(DeleteRunning(v.task.value.seen)))
                else v.(task := Some(DeleteUnmarking)))
    case DeleteReturn(ok, written) =>
      v.task.Some? && v.task.value.DeleteRunning? && v' == AfterDelete(v, v.task.value.seen, ok, written)
    case Publish =>
      v.task.Some? && Publishes(v.task.value) && v' == Finish(v).(memory := Published(v, v.task.value))
    case RestorePick(plan) =>
      v.queued.Some? && (plan.Healthy? ==> v.pod.Some? && !v.queued.value.phase.Updating?)
      && v' == AfterPick(v, refuses, v.queued.value, plan)
    case RestoreReturn(ok, saved) =>
      v.task.Some? && v' == AfterRestore(v, v.task.value, ok, saved)
      && (v.task.value.RestoreRemoving? || v.task.value.RestoreUpdating? || v.task.value.RestoreDeploying?
          || v.task.value.RestoreUndoing?)
  }

  /** What `update_inner` decides under the state lock. */
  datatype UpdateVerdict = NotFound | NotActive | Unchanged | IdentityMismatch | Conflict | OverCapacity | Accepted

  ghost function JudgeUpdate(c: Config, s: State, request: UpdateRequest): UpdateVerdict {
    if request.workload !in s.active || s.active[request.workload].grant.namespace != request.namespace then NotFound
    else
      var current := s.active[request.workload];
      if current.deleting || !current.phase.Active? || current.runtimeId == "" then NotActive
      else if current.grant.revision == request.requested && !request.refresh then Unchanged
      else if request.grant.execution != current.execution then IdentityMismatch
      else if current.grant.revision != request.expected then Conflict
      else if !UsageWithout(s.active, s.reservations, request.workload).Plus(request.size)
                 .FitsWithin(Limit(c.capacity)) then OverCapacity
      else Accepted
  }

  /** The record `deploy_inner` saves before it calls the runtime. */
  function Planned(grant: Grant, size: Size): Record {
    Record(Creating, grant, TargetId(grant.workload), false, size, grant.execution)
  }

  /** Whether `deploy_inner` goes on after consuming the reservation. */
  predicate DeployBinds(s: State, grant: Grant, now: nat, measured: Option<Size>) {
    && grant.reservation in s.reservations
    && var r := s.reservations[grant.reservation];
       && r.expiresAt >= now
       && r.namespace == grant.namespace
       && r.workload == grant.workload
       && grant.workload !in s.active
       && measured.Some? && measured.value.Within(r.size)
       && TargetId(grant.workload) != ""
  }

  datatype Step =
    | Admit(request: AdmissionRequest, now: nat, id: string)
    | Sweep(now: nat)
    | Acquire(workload: string, task: Task)
    | DeployStart(workload: string, now: nat, measured: Option<Size>, saved: bool)
    | UpdateStart(workload: string, saved: bool)
    | Local(workload: string, event: Event)
    | Crash
    | BootFailed
    | Boot(unreadable: set<string>)
    | RestoreDone
    | RestoreRefused

  ghost predicate AdmitNext(c: Config, s: State, s': State, request: AdmissionRequest, now: nat, id: string) {
    && s.mode.Up?
    && id !in s.reservations
    && var live := Live(s.reservations, now);
       s' == s.(reservations :=
         if Verdict(c, s.active, live, s.quarantined, request).None?
         then live[id := Reservation(request.namespace, request.workload, request.size, now + RESERVATION_TTL_SECS)]
         else live)
  }

  predicate AcquireNext(s: State, s': State, w: string, task: Task) {
    && s.mode.Up?
    && w !in s.mutations
    && |s.mutations| < MAX_CONFIGURED_WORKLOADS
    && (task.Enrolling? || task.DeleteGuarded? || (task.DeployGuarded? && task.grant.workload == w)
        || (task.UpdateGuarded? && task.request.workload == w && Bound(task.request)))
    && s' == s.(mutations := s.mutations[w := task],
                submitted := if task.UpdateGuarded? then s.submitted + {task.request} else s.submitted)
  }

  predicate DeployStartNext(s: State, s': State, w: string, now: nat, measured: Option<Size>, saved: bool) {
    && s.mode.Up?
    && w in s.mutations && s.mutations[w].DeployGuarded?
    && var grant := s.mutations[w].grant;
       var consumed := s.reservations - {grant.reservation};
       if DeployBinds(s, grant, now, measured) && saved then
         var stored := Planned(grant, s.reservations[grant.reservation].size);
         s' == s.(reservations := consumed,
                  store := s.store[w := stored],
                  active := s.active[w := stored],
                  mutations := s.mutations[w := DeployRunning(stored)])
       else s' == s.(reservations := consumed, mutations := s.mutations - {w})
  }

  ghost predicate UpdateStartNext(c: Config, s: State, s': State, w: string, saved: bool) {
    && s.mode.Up?
    && w in s.mutations && s.mutations[w].UpdateGuarded?
    && var request := s.mutations[w].request;
       if w == request.workload && JudgeUpdate(c, s, request).Accepted? && saved then
         var prior := s.active[w];
         s' == s.(store := s.store[w := Transitioning(prior, request)],
                  active := s.active[w := Transitioning(prior, request)],
                  mutations := s.mutations[w := UpdateRunning(prior, request)])
       else s' == s.(mutations := s.mutations - {w})
  }

  /** In-flight first creations join `late`; everything in process memory is gone. */
  function Crashed(s: State): State {
    s.(mode := Down, active := map[], quarantined := {}, reservations := map[], mutations := map[],
       late := map w | w in s.late.Keys + s.mutations.Keys && Abandoned(View(s, w)).Some?
                 :: Abandoned(View(s, w)).value)
  }

  /** A process starts: it counts the stored records and loads those it can read. */
  predicate BootNext(c: Config, s: State, s': State, unreadable: set<string>) {
    && s.mode.Down?
    && |s.store| <= c.maxWorkloads
    && unreadable <= s.store.Keys
    && s' == s.(mode := Restoring(s.store - unreadable), quarantined := unreadable)
  }

  ghost predicate RestoredFits(c: Config, s: State) {
    CombinedUsage(s.active, map[]).FitsWithin(Limit(c.capacity))
  }

  /** A restore between two records. */
  predicate BetweenRecords(s: State) {
    s.mode.Restoring? && s.mutations == map[]
  }

  predicate RestoreFinished(s: State) {
    s.mode == Restoring(map[]) && s.mutations == map[]
  }

  ghost predicate LocalStepNext(c: Config, s: State, s': State, w: string, e: Event) {
    && Allowed(KindOf(s.mode), e)
    && (e.RestorePick? ==> s.mutations == map[])
    && exists v' :: LocalNext(c.refusesUncertain, View(s, w), v', e) && s' == Put(s, w, v')
  }

  ghost predicate NextStep(c: Config, s: State, s': State, step: Step) {
    match step
    case Admit(request, now, id) => AdmitNext(c, s, s', request, now, id)
    case Sweep(now) => s.mode.Up? && s' == s.(reservations := Live(s.reservations, now))
    case Acquire(w, task) => AcquireNext(s, s', w, task)
    case DeployStart(w, now, measured, saved) => DeployStartNext(s, s', w, now, measured, saved)
    case UpdateStart(w, saved) => UpdateStartNext(c, s, s', w, saved)
    case Local(w, e) => LocalStepNext(c, s, s', w, e)
    case Crash => !s.mode.Down? && s' == Crashed(s)
    case BootFailed => s.mode.Down? && s' == s
    case Boot(unreadable) => BootNext(c, s, s', unreadable)
    case RestoreDone => RestoreFinished(s) && RestoredFits(c, s) && s' == s.(mode := Up)
    case RestoreRefused => RestoreFinished(s) && !RestoredFits(c, s) && s' == Crashed(s)
  }

  /** A run from an agent that has never started. */
  datatype Run = Begin | After(before: Run, step: Step, state: State)

  function Last(run: Run): State {
    match run
    case Begin => INITIAL
    case After(_, _, state) => state
  }

  ghost predicate Valid(c: Config, run: Run) {
    match run
    case Begin => true
    case After(before, step, state) => Valid(c, before) && NextStep(c, Last(before), state, step)
  }

  /** Steps taken from some given state. */
  datatype Trail = Here | Onward(before: Trail, step: Step, state: State)

  function End(s: State, trail: Trail): State {
    match trail
    case Here => s
    case Onward(_, _, state) => state
  }

  ghost predicate Follow(c: Config, s: State, trail: Trail) {
    match trail
    case Here => true
    case Onward(before, step, state) => Follow(c, s, before) && NextStep(c, End(s, before), state, step)
  }
}
