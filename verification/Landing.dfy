/** Store calls that report a failure after they took effect.

    The lifecycle's steps take a failed save or removal to have changed nothing.  Here it may also land: a `Landed`
    move is a step whose failed store call took effect all the same.  `LooseInv` is what every move then keeps of a
    workload; it differs from `SliceInv` in how far the stored record may be from the one in memory.
 */
module Landing {
  import opened Options
  import opened Records
  import opened Lifecycle
  import opened LifecycleInvariant

  /** What a store call was meant to do. */
  datatype Write = Nothing | Save(record: Record) | Remove

  /** What the store call that this event reports as failed was meant to do. */
  function Meant(v: Slice, e: Event): Write {
    if v.task.None? then Nothing
    else
      match v.task.value
      case DeployRunning(stored) =>
        if e.DeployReturn? && e.outcome.Deployed? && !e.saved then Save(stored.(phase := Active)) else Nothing
      case DeployFailing(stored, uncertain) =>
        if e.FailDeploy? && !e.saved then Save(stored.(phase := CleanupPending(uncertain))) else Nothing
      case CleaningUp(_) => if e.CleanupReturn? && e.ok && !e.removed then Remove else Nothing
      case UpdateRunning(prior, request) =>
        if e.UpdateReturn? && !e.saved then Save(Applied(Transitioning(prior, request))) else Nothing
      case RollbackRunning(prior, _) => if e.RollbackReturn? && e.ok && !e.saved then Save(prior) else Nothing
      case DeleteSaving(_, marked) => if e.DeleteSave? && !e.saved then Save(marked) else Nothing
      case DeleteRunning(seen) =>
        if e.DeleteReturn? && !e.written then (if e.ok then Remove else Save(seen)) else Nothing
      case RestoreRemoving(_) => if e.RestoreReturn? && e.ok && !e.saved then Remove else Nothing
      case RestoreUpdating(stored) =>
        if e.RestoreReturn? && e.ok && !e.saved && stored.phase.Updating? then Save(Applied(stored)) else Nothing
      case RestoreDeploying(stored) =>
        if e.RestoreReturn? && e.ok && !e.saved then Save(stored.(runtimeId := TargetId(stored.grant.workload)))
        else Nothing
      case _ => Nothing
  }

  function Onto(write: Write, disk: Option<Record>): Option<Record> {
    match write
    case Nothing => disk
    case Save(record) => Some(record)
    case Remove => None
  }

  // ---- the invariant of one workload ----

  /** How far the stored record `d` can be from the in-memory record `m`. */
  predicate LooseSync(d: Record, m: Record) {
    || InSync(d, m)
    || (m.phase == CleanupPending(false) && d == m.(phase := Active))
    || (m.phase.Active? && d.phase.Updating? && d == Transitioning(m.(deleting := false), d.phase.request))
  }

  predicate LooseTask(w: string, v: Slice, task: Task) {
    match task
    case DeployFailing(stored, uncertain) =>
      && v.memory == Some(stored.(phase := Creating))
      && (v.disk == v.memory || (v.disk == Some(stored) && stored.phase.Active? && !uncertain))
      && (v.late.Some? ==> uncertain)
    case _ => TaskInv(w, v, task)
  }

  /** What holds of the record in memory. */
  predicate Known(w: string, v: Slice)
    requires v.memory.Some?
  {
    && WellFormed(w, v.memory.value) && !v.quarantined
    && (v.disk.Some? ==> LooseSync(v.disk.value, v.memory.value))
    && (v.late.Some? ==> Uncertain(v.memory.value))
    && (v.memory.value.phase.Active? && v.pod.Some? ==> v.pod.value == v.memory.value.grant.revision)
  }

  /** A stored record that the process does not know of: a first save that failed and landed. */
  predicate Stray(v: Slice) {
    v.disk.Some? && v.memory.None? && !v.quarantined
  }

  predicate LooseServing(w: string, v: Slice) {
    && v.queued.None?
    && (v.memory.Some? ==> Known(w, v))
    && (Stray(v) ==> v.disk.value.phase.Creating? && v.pod.None? && v.late.None?)
    && (v.quarantined ==> v.disk.Some?)
    && (v.task.Some? ==> LooseTask(w, v, v.task.value))
    && (v.task.Some? && !OnlyGuards(v.task.value) ==> v.memory.Some?)
  }

  predicate LooseStarting(w: string, v: Slice) {
    && (v.disk.Some? ==> v.queued.Some? || v.task.Some? || v.memory.Some? || v.quarantined)
    && (v.queued.Some? ==> v.disk == v.queued && v.memory.None? && v.task.None? && !v.quarantined)
    && (v.memory.Some? ==> v.task.None? && Known(w, v))
    && (v.task.Some? ==> RestoreInv(v, v.task.value))
    && (v.quarantined ==> v.disk.Some?)
  }

  predicate LooseInv(kind: Kind, w: string, v: Slice) {
    && DurableInv(w, v)
    && match kind
       case Stopped => StoppedInv(v)
       case Starting => LooseStarting(w, v)
       case Serving => LooseServing(w, v)
  }

  /** `v'` follows `v` by event `e`, and a store call that fails in it has taken effect if `landed`. */
  ghost predicate LandNext(kind: Kind, w: string, v: Slice, v': Slice, e: Event, landed: bool) {
    && LooseInv(kind, w, v) && Allowed(kind, e)
    && exists mid :: LocalNext(true, v, mid, e)
                     && v' == mid.(disk := if landed then Onto(Meant(v, e), mid.disk) else mid.disk)
  }

  lemma LateLands(kind: Kind, w: string, v: Slice, v': Slice, e: Event, landed: bool)
    requires LandNext(kind, w, v, v', e, landed) && (e.LateLand? || e.LateGone?)
    ensures LooseInv(kind, w, v')
  {
  }

  lemma LandLands(kind: Kind, w: string, v: Slice, v': Slice, e: Event, landed: bool)
    requires LandNext(kind, w, v, v', e, landed) && e.Land?
    ensures LooseInv(kind, w, v')
  {
  }

  lemma VanishLands(kind: Kind, w: string, v: Slice, v': Slice, e: Event, landed: bool)
    requires LandNext(kind, w, v, v', e, landed) && e.Vanish?
    ensures LooseInv(kind, w, v')
  {
  }

  lemma CancelLands(w: string, v: Slice, v': Slice, e: Event, landed: bool)
    requires LandNext(Serving, w, v, v', e, landed) && e.Cancel?
    ensures LooseInv(Serving, w, v')
  {
  }

  lemma DeployedLands(w: string, v: Slice, v': Slice, e: Event, landed: bool)
    requires LandNext(Serving, w, v, v', e, landed) && e.DeployReturn? && e.outcome.Deployed?
    ensures LooseInv(Serving, w, v')
  {
  }

  lemma NotDeployedLands(w: string, v: Slice, v': Slice, e: Event, landed: bool)
    requires LandNext(Serving, w, v, v', e, landed) && e.DeployReturn? && !e.outcome.Deployed?
    ensures LooseInv(Serving, w, v')
  {
  }

  lemma DeployReturnLands(w: string, v: Slice, v': Slice, e: Event, landed: bool)
    requires LandNext(Serving, w, v, v', e, landed) && e.DeployReturn?
    ensures LooseInv(Serving, w, v')
  {
    hide LooseInv, AfterDeploy;
    if e.outcome.Deployed? {
      DeployedLands(w, v, v', e, landed);
    } else {
      NotDeployedLands(w, v, v', e, landed);
    }
  }

  lemma FailDeployLands(w: string, v: Slice, v': Slice, e: Event, landed: bool)
    requires LandNext(Serving, w, v, v', e, landed) && e.FailDeploy?
    ensures LooseInv(Serving, w, v')
  {
  }

  lemma CleanupReturnLands(w: string, v: Slice, v': Slice, e: Event, landed: bool)
    requires LandNext(Serving, w, v, v', e, landed) && e.CleanupReturn?
    ensures LooseInv(Serving, w, v')
  {
  }

  lemma UpdateReturnLands(w: string, v: Slice, v': Slice, e: Event, landed: bool)
    requires LandNext(Serving, w, v, v', e, landed) && e.UpdateReturn?
    ensures LooseInv(Serving, w, v')
  {
  }

  lemma UpdateFailLands(w: string, v: Slice, v': Slice, e: Event, landed: bool)
    requires LandNext(Serving, w, v, v', e, landed) && e.UpdateFail?
    ensures LooseInv(Serving, w, v')
  {
  }

  lemma RollbackReturnLands(w: string, v: Slice, v': Slice, e: Event, landed: bool)
    requires LandNext(Serving, w, v, v', e, landed) && e.RollbackReturn?
    ensures LooseInv(Serving, w, v')
  {
  }

  lemma FinishIsLoose(w: string, v: Slice)
    requires LooseInv(Serving, w, v)
    ensures LooseInv(Serving, w, Finish(v))
  {
  }

  lemma DeleteReadLands(w: string, v: Slice, v': Slice, e: Event, landed: bool)
    requires LandNext(Serving, w, v, v', e, landed) && e.DeleteRead?
    ensures LooseInv(Serving, w, v')
  {
    hide LooseSync, InSync, WellFormed, AllowedRevisions;
    FinishIsLoose(w, v);
    if v' != Finish(v) {
      assert v'.task.value == CleaningUp(v.memory.value) || v'.task.value == DeleteMarking(v.memory.value);
    }
  }

  lemma DeleteMarkLands(w: string, v: Slice, v': Slice, e: Event, landed: bool)
    requires LandNext(Serving, w, v, v', e, landed) && e.DeleteMark?
    ensures LooseInv(Serving, w, v')
  {
    hide AllowedRevisions;
  }

  lemma DeleteSaveLands(w: string, v: Slice, v': Slice, e: Event, landed: bool)
    requires LandNext(Serving, w, v, v', e, landed) && e.DeleteSave?
    ensures LooseInv(Serving, w, v')
  {
  }

  lemma DeleteReturnLands(w: string, v: Slice, v': Slice, e: Event, landed: bool)
    requires LandNext(Serving, w, v, v', e, landed) && e.DeleteReturn?
    ensures LooseInv(Serving, w, v')
  {
  }

  /** The end of a task that puts back or commits a record. */
  lemma CommitLands(w: string, v: Slice, v': Slice, e: Event, landed: bool)
    requires LandNext(Serving, w, v, v', e, landed) && e.Publish?
    requires !v.task.value.Forgetting? && !v.task.value.DeleteUnmarking?
    ensures LooseInv(Serving, w, v')
  {
    hide NeedsCleanup;
  }

  lemma ForgetLands(w: string, v: Slice, v': Slice, e: Event, landed: bool)
    requires LandNext(Serving, w, v, v', e, landed) && e.Publish?
    requires v.task.value.Forgetting? || v.task.value.DeleteUnmarking?
    ensures LooseInv(Serving, w, v')
  {
    hide NeedsCleanup;
  }

  lemma PublishLands(w: string, v: Slice, v': Slice, e: Event, landed: bool)
    requires LandNext(Serving, w, v, v', e, landed) && e.Publish?
    ensures LooseInv(Serving, w, v')
  {
    hide LooseInv, Published;
    if v.task.value.Forgetting? || v.task.value.DeleteUnmarking? {
      ForgetLands(w, v, v', e, landed);
    } else {
      CommitLands(w, v, v', e, landed);
    }
  }

  lemma RestorePickLands(w: string, v: Slice, v': Slice, e: Event, landed: bool)
    requires LandNext(Starting, w, v, v', e, landed) && e.RestorePick?
    ensures LooseInv(Starting, w, v')
  {
  }

  lemma RestoreRemovingLands(w: string, v: Slice, v': Slice, e: Event, landed: bool)
    requires LandNext(Starting, w, v, v', e, landed) && e.RestoreReturn? && v.task.Some?
    requires v.task.value.RestoreRemoving?
    ensures LooseInv(Starting, w, v')
  {
  }

  lemma RestoreUpdatingLands(w: string, v: Slice, v': Slice, e: Event, landed: bool)
    requires LandNext(Starting, w, v, v', e, landed) && e.RestoreReturn? && v.task.Some?
    requires v.task.value.RestoreUpdating?
    ensures LooseInv(Starting, w, v')
  {
  }

  lemma RestoreDeployingLands(w: string, v: Slice, v': Slice, e: Event, landed: bool)
    requires LandNext(Starting, w, v, v', e, landed) && e.RestoreReturn? && v.task.Some?
    requires v.task.value.RestoreDeploying?
    ensures LooseInv(Starting, w, v')
  {
  }

  lemma RestoreUndoingLands(w: string, v: Slice, v': Slice, e: Event, landed: bool)
    requires LandNext(Starting, w, v, v', e, landed) && e.RestoreReturn? && v.task.Some?
    requires v.task.value.RestoreUndoing?
    ensures LooseInv(Starting, w, v')
  {
  }

  lemma EnvironmentLands(kind: Kind, w: string, v: Slice, v': Slice, e: Event, landed: bool)
    requires LandNext(kind, w, v, v', e, landed) && (e.LateLand? || e.LateGone? || e.Land? || e.Vanish?)
    ensures LooseInv(kind, w, v')
  {
    hide LooseInv, LocalNext;
    if e.Land? {
      LandLands(kind, w, v, v', e, landed);
    } else if e.Vanish? {
      VanishLands(kind, w, v, v', e, landed);
    } else {
      LateLands(kind, w, v, v', e, landed);
    }
  }

  lemma RestoreLands(w: string, v: Slice, v': Slice, e: Event, landed: bool)
    requires LandNext(Starting, w, v, v', e, landed) && e.RestoreReturn?
    ensures LooseInv(Starting, w, v')
  {
    hide LooseInv, AfterRestore;
    match v.task.value
    case RestoreRemoving(_) => RestoreRemovingLands(w, v, v', e, landed);
    case RestoreUpdating(_) => RestoreUpdatingLands(w, v, v', e, landed);
    case RestoreDeploying(_) => RestoreDeployingLands(w, v, v', e, landed);
    case RestoreUndoing(_) => RestoreUndoingLands(w, v, v', e, landed);
  }

  lemma ServingLands(w: string, v: Slice, v': Slice, e: Event, landed: bool)
    requires LandNext(Serving, w, v, v', e, landed)
    requires !e.LateLand? && !e.LateGone? && !e.Land? && !e.Vanish?
    ensures LooseInv(Serving, w, v')
  {
    hide LooseInv, LocalNext;
    match e
    case Cancel => CancelLands(w, v, v', e, landed);
    case DeployReturn(_, _) => DeployReturnLands(w, v, v', e, landed);
    case FailDeploy(_) => FailDeployLands(w, v, v', e, landed);
    case CleanupReturn(_, _) => CleanupReturnLands(w, v, v', e, landed);
    case UpdateReturn(_) => UpdateReturnLands(w, v, v', e, landed);
    case UpdateFail(_) => UpdateFailLands(w, v, v', e, landed);
    case RollbackReturn(_, _) => RollbackReturnLands(w, v, v', e, landed);
    case DeleteRead => DeleteReadLands(w, v, v', e, landed);
    case DeleteMark => DeleteMarkLands(w, v, v', e, landed);
    case DeleteSave(_) => DeleteSaveLands(w, v, v', e, landed);
    case DeleteReturn(_, _) => DeleteReturnLands(w, v, v', e, landed);
    case Publish => PublishLands(w, v, v', e, landed);
  }

  /** One workload's step keeps its invariant, whether or not its failed store call takes effect. */
  lemma LocalLands(kind: Kind, w: string, v: Slice, v': Slice, e: Event, landed: bool)
    requires LandNext(kind, w, v, v', e, landed)
    ensures LooseInv(kind, w, v')
  {
    hide LooseInv, LocalNext;
    if e.LateLand? || e.LateGone? || e.Land? || e.Vanish? {
      EnvironmentLands(kind, w, v, v', e, landed);
    } else if e.RestorePick? {
      RestorePickLands(w, v, v', e, landed);
    } else if e.RestoreReturn? {
      RestoreLands(w, v, v', e, landed);
    } else {
      ServingLands(w, v, v', e, landed);
    }
  }

  lemma WorkingIsKnown(w: string, v: Slice)
    requires LooseInv(Serving, w, v) && v.task.Some? && !OnlyGuards(v.task.value)
    ensures v.memory.Some? && (v.task.value.Forgetting? ==> v.disk.None?)
  {
  }

  lemma StepMemory(v: Slice, v': Slice, e: Event)
    requires LocalNext(true, v, v', e) && Allowed(Serving, e)
    requires v.task.Some? && !OnlyGuards(v.task.value) ==> v.memory.Some?
    ensures v'.memory.Some? ==> v.memory.Some?
  {
    hide NeedsCleanup, Abandoned;
  }

  lemma StepFrame(v: Slice, v': Slice, e: Event)
    requires LocalNext(true, v, v', e) && Allowed(Serving, e)
    ensures v'.quarantined == v.quarantined && v'.queued == v.queued
    ensures v'.task.Some? && CreatesWorkload(v'.task.value) ==> v.task.Some? && CreatesWorkload(v.task.value)
  {
    hide NeedsCleanup, Abandoned, Published;
  }

  /** What a local step cannot do while serving: admit a workload or start a creation. */
  lemma ServingLandFrame(w: string, v: Slice, v': Slice, e: Event, landed: bool)
    requires LandNext(Serving, w, v, v', e, landed)
    ensures v'.quarantined == v.quarantined && v'.queued == v.queued
    ensures v'.memory.Some? ==> v.memory.Some?
    ensures v'.task.Some? && CreatesWorkload(v'.task.value) ==> v.task.Some? && CreatesWorkload(v.task.value)
  {
    hide LooseInv, Meant, Onto, LocalNext;
    var mid :| LocalNext(true, v, mid, e)
               && v' == mid.(disk := if landed then Onto(Meant(v, e), mid.disk) else mid.disk);
    if v.task.Some? && !OnlyGuards(v.task.value) {
      WorkingIsKnown(w, v);
    }
    StepMemory(v, mid, e);
    StepFrame(v, mid, e);
  }

  /** Nor can it leave a stored record that the process does not know of, whatever lands. */
  lemma NoNewStray(w: string, v: Slice, v': Slice, e: Event, landed: bool)
    requires LandNext(Serving, w, v, v', e, landed) && Stray(v')
    ensures Stray(v)
  {
    hide NeedsCleanup, LooseInv;
    if v.task.Some? && !OnlyGuards(v.task.value) {
      WorkingIsKnown(w, v);
    }
  }

  lemma QuietLandFrame(kind: Kind, w: string, v: Slice, v': Slice, e: Event, landed: bool)
    requires LandNext(kind, w, v, v', e, landed) && !kind.Serving?
    ensures v'.quarantined == v.quarantined
    ensures kind.Stopped? ==> v'.queued == v.queued
    ensures v'.task.Some? ==> !CreatesWorkload(v'.task.value)
  {
    hide NeedsCleanup, DurableInv, Known;
  }
}
