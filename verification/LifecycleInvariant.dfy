/** The inductive invariant of the lifecycle.

    `SliceInv` is the whole invariant of one workload, kept by every local step (`LocalStepKeeps`); `Inv` adds
    what relates workloads to each other.
 */
module LifecycleInvariant {
  import opened Options
  import opened Records
  import opened Accounting
  import opened Lifecycle

  /** Every record names its own workload and pod, and an update in progress was a valid swap. */
  predicate WellFormed(w: string, r: Record) {
    && w != ""
    && r.grant.workload == w
    && r.runtimeId == TargetId(w)
    && (r.phase.Updating? ==>
          && r.phase.previousGrant == r.grant
          && Bound(r.phase.request)
          && r.phase.request.workload == w
          && r.phase.request.namespace == r.grant.namespace
          && r.phase.request.expected == r.grant.revision
          && r.phase.request.grant.execution == r.execution
          && r.size == r.phase.request.size
          && !r.deleting)
    && (!r.phase.Active? ==> !r.deleting)
  }

  /** The creation of this record may still be happening. */
  predicate Uncertain(r: Record) {
    r.phase.Creating? || r.phase == CleanupPending(true)
  }

  predicate Deployable(r: Record) {
    r.phase.Active? && !r.deleting
  }

  /** How far the stored record `d` can be from the in-memory record `m`. */
  predicate InSync(d: Record, m: Record) {
    || d == m
    || (m.phase.Creating? && d == m.(phase := Active))
    || (m.phase.CleanupPending? && d == m.(phase := Creating))
    || (m.phase.Updating? && d == Applied(m))
    || (m.phase.Updating? && d == m.(phase := Active, size := d.size))
    || (m.phase.Active? && d == m.(deleting := d.deleting))
  }

  /** The guard is held but nothing has been done under it yet. */
  predicate OnlyGuards(task: Task) {
    task.Enrolling? || task.DeployGuarded? || task.UpdateGuarded? || task.DeleteGuarded?
  }

  predicate CreatesWorkload(task: Task) {
    task.DeployRunning? || task.DeployCommitting? || task.DeployFailing?
  }

  /** An update that `update_inner` accepted against `prior`. */
  predicate Swap(w: string, prior: Record, request: UpdateRequest) {
    && WellFormed(w, prior) && Deployable(prior)
    && WellFormed(w, Transitioning(prior, request))
  }

  /** What the two copies of the record look like at each point of a task while serving. */
  predicate TaskInv(w: string, v: Slice, task: Task) {
    match task
    case Enrolling => true
    case DeployGuarded(grant) => grant.workload == w
    case UpdateGuarded(request) => request.workload == w && Bound(request)
    case DeleteGuarded(_) => true
    case DeployRunning(stored) =>
      stored.phase.Creating? && v.disk == v.memory == Some(stored) && v.late.None?
    case DeployCommitting(stored) =>
      stored.phase.Active? && v.disk == Some(stored) && v.memory == Some(stored.(phase := Creating)) && v.late.None?
    case DeployFailing(stored, uncertain) =>
      v.disk == v.memory == Some(stored.(phase := Creating)) && (v.late.Some? ==> uncertain)
    case CleaningUp(stored) => v.memory == Some(stored) && stored.phase == CleanupPending(false)
    case Forgetting => v.disk.None? && v.memory.Some?
    case UpdateRunning(prior, request) =>
      Swap(w, prior, request) && v.disk == v.memory == Some(Transitioning(prior, request))
    case UpdateCommitting(updated) =>
      v.memory.Some? && v.memory.value.phase.Updating? && v.disk == Some(updated) && updated == Applied(v.memory.value)
    case RollbackRunning(prior, request) =>
      Swap(w, prior, request) && v.disk == v.memory == Some(Transitioning(prior, request))
    case RollbackCommitting(prior, request) =>
      Swap(w, prior, request) && v.disk == Some(prior) && v.memory == Some(Transitioning(prior, request))
    case DeleteMarking(seen) => v.memory == Some(seen) && seen.phase.Active?
    case DeleteSaving(seen, marked) =>
      seen.phase.Active? && marked == seen.(deleting := true) && v.memory == Some(marked)
    case DeleteUnmarking => v.memory.Some? && v.memory.value.phase.Active?
    case DeleteRunning(seen) => seen.phase.Active? && v.disk == v.memory == Some(seen.(deleting := true))
    case DeleteRestoring(seen) =>
      seen.phase.Active? && v.disk == Some(seen) && v.memory == Some(seen.(deleting := true))
    case _ => false
  }

  predicate RestoreInv(v: Slice, task: Task) {
    && v.memory.None? && v.queued.None? && !v.quarantined
    && match task
       case RestoreRemoving(stored) =>
         v.disk == Some(stored) && (stored.phase == CleanupPending(false) || (stored.phase.Active? && stored.deleting))
       case RestoreUpdating(stored) => v.disk == Some(stored) && stored.phase.Updating?
       case RestoreDeploying(stored) => v.disk == Some(stored) && Deployable(stored)
       case RestoreUndoing(stored) => v.disk == Some(stored) && Deployable(stored)
       case _ => false
  }

  /** What holds whatever the process is doing: a pod always has a record that allows its revision. */
  predicate DurableInv(w: string, v: Slice) {
    && (v.disk.Some? ==> WellFormed(w, v.disk.value))
    && (v.pod.Some? ==> v.disk.Some? && v.pod.value in AllowedRevisions(v.disk.value))
    && (v.late.Some? ==> v.disk.Some? && Uncertain(v.disk.value) && v.late.value == v.disk.value.grant.revision)
  }

  predicate ServingInv(w: string, v: Slice) {
    && v.queued.None?
    && (v.memory.Some? ==> WellFormed(w, v.memory.value) && !v.quarantined)
    && (v.disk.Some? ==> v.memory.Some? || v.quarantined)
    && (v.disk.Some? && v.memory.Some? ==> InSync(v.disk.value, v.memory.value))
    && (v.late.Some? && v.memory.Some? ==> Uncertain(v.memory.value))
    && (v.quarantined ==> v.disk.Some?)
    && (v.task.Some? ==> TaskInv(w, v, v.task.value))
    && (v.task.Some? && !OnlyGuards(v.task.value) ==> v.memory.Some?)
  }

  /** While restoring, each stored record is queued, being reconciled, done, or quarantined. */
  predicate StartingInv(v: Slice) {
    && (v.disk.Some? ==> v.queued.Some? || v.task.Some? || v.memory.Some? || v.quarantined)
    && (v.queued.Some? ==> v.disk == v.queued && v.memory.None? && v.task.None? && !v.quarantined)
    && (v.memory.Some? ==> v.disk == v.memory && v.task.None? && !v.quarantined)
    && (v.task.Some? ==> RestoreInv(v, v.task.value))
    && (v.quarantined ==> v.disk.Some?)
  }

  predicate StoppedInv(v: Slice) {
    v.memory.None? && v.task.None? && v.queued.None? && !v.quarantined
  }

  predicate SliceInv(kind: Kind, w: string, v: Slice) {
    && DurableInv(w, v)
    && match kind
       case Stopped => StoppedInv(v)
       case Starting => StartingInv(v)
       case Serving => ServingInv(w, v)
  }

  /** `v'` follows `v` by event `e` in a process of this kind. */
  predicate Follows(kind: Kind, w: string, v: Slice, v': Slice, e: Event) {
    SliceInv(kind, w, v) && Allowed(kind, e) && LocalNext(true, v, v', e)
  }

  lemma LateStepKeeps(kind: Kind, w: string, v: Slice, v': Slice, e: Event)
    requires Follows(kind, w, v, v', e) && (e.LateLand? || e.LateGone?)
    ensures SliceInv(kind, w, v')
  {
  }

  lemma LandKeeps(kind: Kind, w: string, v: Slice, v': Slice, e: Event)
    requires Follows(kind, w, v, v', e) && (e.Land?)
    ensures SliceInv(kind, w, v')
  {
  }

  lemma VanishKeeps(kind: Kind, w: string, v: Slice, v': Slice, e: Event)
    requires Follows(kind, w, v, v', e) && (e.Vanish?)
    ensures SliceInv(kind, w, v')
  {
  }

  lemma CancelKeeps(kind: Kind, w: string, v: Slice, v': Slice, e: Event)
    requires Follows(kind, w, v, v', e) && (e.Cancel?)
    ensures SliceInv(kind, w, v')
  {
  }

  lemma DeployReturnKeeps(kind: Kind, w: string, v: Slice, v': Slice, e: Event)
    requires Follows(kind, w, v, v', e) && (e.DeployReturn?)
    ensures SliceInv(kind, w, v')
  {
  }

  lemma FailDeployKeeps(kind: Kind, w: string, v: Slice, v': Slice, e: Event)
    requires Follows(kind, w, v, v', e) && (e.FailDeploy?)
    ensures SliceInv(kind, w, v')
  {
  }

  lemma CleanupReturnKeeps(kind: Kind, w: string, v: Slice, v': Slice, e: Event)
    requires Follows(kind, w, v, v', e) && (e.CleanupReturn?)
    ensures SliceInv(kind, w, v')
  {
  }

  lemma UpdateReturnKeeps(kind: Kind, w: string, v: Slice, v': Slice, e: Event)
    requires Follows(kind, w, v, v', e) && (e.UpdateReturn?)
    ensures SliceInv(kind, w, v')
  {
  }

  lemma UpdateFailKeeps(kind: Kind, w: string, v: Slice, v': Slice, e: Event)
    requires Follows(kind, w, v, v', e) && (e.UpdateFail?)
    ensures SliceInv(kind, w, v')
  {
  }

  lemma RollbackReturnKeeps(kind: Kind, w: string, v: Slice, v': Slice, e: Event)
    requires Follows(kind, w, v, v', e) && (e.RollbackReturn?)
    ensures SliceInv(kind, w, v')
  {
  }

  lemma FinishKeeps(w: string, v: Slice)
    requires SliceInv(Serving, w, v)
    ensures SliceInv(Serving, w, Finish(v))
  {
  }

  lemma DeleteReadKeeps(kind: Kind, w: string, v: Slice, v': Slice, e: Event)
    requires Follows(kind, w, v, v', e) && e.DeleteRead?
    ensures SliceInv(kind, w, v')
  {
    FinishKeeps(w, v);
    if v' != Finish(v) {
      assert v'.task.value == CleaningUp(v.memory.value) || v'.task.value == DeleteMarking(v.memory.value);
    }
  }

  lemma DeleteMarkKeeps(kind: Kind, w: string, v: Slice, v': Slice, e: Event)
    requires Follows(kind, w, v, v', e) && (e.DeleteMark?)
    ensures SliceInv(kind, w, v')
  {
  }

  lemma DeleteSaveKeeps(kind: Kind, w: string, v: Slice, v': Slice, e: Event)
    requires Follows(kind, w, v, v', e) && (e.DeleteSave?)
    ensures SliceInv(kind, w, v')
  {
  }

  lemma DeleteReturnKeeps(kind: Kind, w: string, v: Slice, v': Slice, e: Event)
    requires Follows(kind, w, v, v', e) && (e.DeleteReturn?)
    ensures SliceInv(kind, w, v')
  {
  }

  lemma PublishKeeps(kind: Kind, w: string, v: Slice, v': Slice, e: Event)
    requires Follows(kind, w, v, v', e) && (e.Publish?)
    ensures SliceInv(kind, w, v')
  {
  }

  lemma RestorePickKeeps(kind: Kind, w: string, v: Slice, v': Slice, e: Event)
    requires Follows(kind, w, v, v', e) && (e.RestorePick?)
    ensures SliceInv(kind, w, v')
  {
  }

  lemma RestoreReturnKeeps(kind: Kind, w: string, v: Slice, v': Slice, e: Event)
    requires Follows(kind, w, v, v', e) && (e.RestoreReturn?)
    ensures SliceInv(kind, w, v')
  {
  }

  lemma EnvironmentKeeps(kind: Kind, w: string, v: Slice, v': Slice, e: Event)
    requires Follows(kind, w, v, v', e)
    requires e.LateLand? || e.LateGone? || e.Land? || e.Vanish? || e.Cancel?
    ensures SliceInv(kind, w, v')
  {
    if e.LateLand? || e.LateGone? {
      LateStepKeeps(kind, w, v, v', e);
    } else if e.Land? {
      LandKeeps(kind, w, v, v', e);
    } else if e.Vanish? {
      VanishKeeps(kind, w, v, v', e);
    } else {
      CancelKeeps(kind, w, v, v', e);
    }
  }

  lemma DeployEventKeeps(kind: Kind, w: string, v: Slice, v': Slice, e: Event)
    requires Follows(kind, w, v, v', e)
    requires e.DeployReturn? || e.FailDeploy? || e.CleanupReturn?
    ensures SliceInv(kind, w, v')
  {
    if e.DeployReturn? {
      DeployReturnKeeps(kind, w, v, v', e);
    } else if e.FailDeploy? {
      FailDeployKeeps(kind, w, v, v', e);
    } else {
      CleanupReturnKeeps(kind, w, v, v', e);
    }
  }

  lemma UpdateEventKeeps(kind: Kind, w: string, v: Slice, v': Slice, e: Event)
    requires Follows(kind, w, v, v', e)
    requires e.UpdateReturn? || e.UpdateFail? || e.RollbackReturn?
    ensures SliceInv(kind, w, v')
  {
    if e.UpdateReturn? {
      UpdateReturnKeeps(kind, w, v, v', e);
    } else if e.UpdateFail? {
      UpdateFailKeeps(kind, w, v, v', e);
    } else {
      RollbackReturnKeeps(kind, w, v, v', e);
    }
  }

  lemma DeleteEventKeeps(kind: Kind, w: string, v: Slice, v': Slice, e: Event)
    requires Follows(kind, w, v, v', e)
    requires e.DeleteRead? || e.DeleteMark? || e.DeleteSave? || e.DeleteReturn?
    ensures SliceInv(kind, w, v')
  {
    if e.DeleteRead? {
      DeleteReadKeeps(kind, w, v, v', e);
    } else if e.DeleteMark? {
      DeleteMarkKeeps(kind, w, v, v', e);
    } else if e.DeleteSave? {
      DeleteSaveKeeps(kind, w, v, v', e);
    } else {
      DeleteReturnKeeps(kind, w, v, v', e);
    }
  }

  lemma RestoreEventKeeps(kind: Kind, w: string, v: Slice, v': Slice, e: Event)
    requires Follows(kind, w, v, v', e)
    requires e.RestorePick? || e.RestoreReturn?
    ensures SliceInv(kind, w, v')
  {
    if e.RestorePick? {
      RestorePickKeeps(kind, w, v, v', e);
    } else {
      RestoreReturnKeeps(kind, w, v, v', e);
    }
  }

  /** The heart of the proof: one workload's step keeps that workload's invariant. */
  lemma LocalStepKeeps(kind: Kind, w: string, v: Slice, v': Slice, e: Event)
    requires Follows(kind, w, v, v', e)
    ensures SliceInv(kind, w, v')
  {
    if e.LateLand? || e.LateGone? || e.Land? || e.Vanish? || e.Cancel? {
      EnvironmentKeeps(kind, w, v, v', e);
    } else if e.DeployReturn? || e.FailDeploy? || e.CleanupReturn? {
      DeployEventKeeps(kind, w, v, v', e);
    } else if e.UpdateReturn? || e.UpdateFail? || e.RollbackReturn? {
      UpdateEventKeeps(kind, w, v, v', e);
    } else if e.DeleteRead? || e.DeleteMark? || e.DeleteSave? || e.DeleteReturn? {
      DeleteEventKeeps(kind, w, v, v', e);
    } else if e.RestorePick? || e.RestoreReturn? {
      RestoreEventKeeps(kind, w, v, v', e);
    } else {
      PublishKeeps(kind, w, v, v', e);
    }
  }

  lemma WorkingTaskHasMemory(w: string, v: Slice)
    requires SliceInv(Serving, w, v) && v.task.Some? && !OnlyGuards(v.task.value)
    ensures v.memory.Some?
  {
  }

  /** What a local step cannot do while serving: admit a workload or start a creation. */
  lemma ServingFrame(w: string, v: Slice, v': Slice, e: Event)
    requires Follows(Serving, w, v, v', e)
    ensures v'.quarantined == v.quarantined && v'.queued == v.queued
    ensures v'.memory.Some? ==> v.memory.Some?
    ensures v'.task.Some? && CreatesWorkload(v'.task.value) ==> v.task.Some? && CreatesWorkload(v.task.value)
  {
    hide SliceInv, NeedsCleanup;
    if v.task.Some? && !OnlyGuards(v.task.value) {
      WorkingTaskHasMemory(w, v);
    }
  }

  /** Outside serving, a local step cannot add a durable record. */
  lemma QuietFrame(kind: Kind, w: string, v: Slice, v': Slice, e: Event)
    requires Follows(kind, w, v, v', e) && !kind.Serving?
    ensures v'.quarantined == v.quarantined
    ensures kind.Stopped? ==> v'.queued == v.queued
    ensures v'.disk.Some? ==> v.disk.Some?
    ensures v'.task.Some? ==> !CreatesWorkload(v'.task.value)
  {
  }

  lemma ViewPut(s: State, w: string, v: Slice, other: string)
    requires v.quarantined == (w in s.quarantined)
    requires !s.mode.Restoring? ==> v.queued.None?
    ensures View(Put(s, w, v), other) == if other == w then v else View(s, other)
  {
  }

  lemma SetGet<V>(m: map<string, V>, w: string)
    ensures Set(m, w, Get(m, w)) == m
  {
  }

  lemma SetTwice<V>(m: map<string, V>, w: string, a: Option<V>, b: Option<V>)
    ensures Set(Set(m, w, a), w, b) == Set(m, w, b)
  {
  }

  lemma PutTwice(s: State, w: string, v: Slice, v': Slice)
    ensures Put(Put(s, w, v), w, v') == Put(s, w, v')
  {
    hide Set;
    SetTwice(s.store, w, v.disk, v'.disk);
    SetTwice(s.active, w, v.memory, v'.memory);
    SetTwice(s.pods, w, v.pod, v'.pod);
    SetTwice(s.late, w, v.late, v'.late);
    SetTwice(s.mutations, w, v.task, v'.task);
    if s.mode.Restoring? {
      SetTwice(s.mode.queued, w, v.queued, v'.queued);
    }
  }

  /** Every id is held once, and a quarantined record stops new workloads. */
  predicate PlacementInv(s: State) {
    && (!s.mode.Up? ==> s.reservations == map[])
    && (forall id | id in s.reservations ::
          s.reservations[id].workload !in s.active && s.reservations[id].workload !in s.quarantined)
    && (forall i, j | i in s.reservations && j in s.reservations && i != j ::
          s.reservations[i].workload != s.reservations[j].workload)
    && (s.quarantined != {} ==>
          && s.reservations == map[]
          && forall w | w in s.mutations :: !CreatesWorkload(s.mutations[w]))
  }

  predicate CountInv(c: Config, s: State) {
    && |s.store| <= c.maxWorkloads
    && (s.mode.Up? ==> |s.active| + |s.reservations| + |s.quarantined| <= c.maxWorkloads)
  }

  ghost predicate Slices(s: State) {
    forall w :: SliceInv(KindOf(s.mode), w, View(s, w))
  }

  ghost predicate Inv(c: Config, s: State) {
    Slices(s) && PlacementInv(s) && CountInv(c, s)
  }
}
