/** Updates are a compare-and-swap on the stored revision, across failures and restarts. */
module CompareAndSwap {
  import opened Options
  import opened Quantities
  import opened Records
  import opened Accounting
  import opened AccountingLaws
  import opened Lifecycle
  import opened LifecycleInvariant
  import opened LifecycleRuns

  // ---- where the requests in records come from ----

  predicate RecordTraced(submitted: set<UpdateRequest>, r: Option<Record>) {
    r.Some? && r.value.phase.Updating? ==> r.value.phase.request in submitted
  }

  predicate TaskTraced(submitted: set<UpdateRequest>, task: Option<Task>) {
    task.Some? ==>
      match task.value
      case UpdateGuarded(request) => request in submitted
      case UpdateRunning(_, request) => request in submitted
      case RollbackRunning(_, request) => request in submitted
      case RollbackCommitting(_, request) => request in submitted
      case _ => true
  }

  predicate SliceTraced(submitted: set<UpdateRequest>, v: Slice) {
    RecordTraced(submitted, v.disk) && RecordTraced(submitted, v.memory) && TaskTraced(submitted, v.task)
  }

  ghost predicate Traced(s: State) {
    forall w :: SliceTraced(s.submitted, View(s, w))
  }

  lemma ServingTraced(submitted: set<UpdateRequest>, w: string, v: Slice, v': Slice, e: Event)
    requires Follows(Serving, w, v, v', e) && SliceTraced(submitted, v)
    ensures SliceTraced(submitted, v')
  {
    hide SliceInv;
    if e.Publish? {
      PublishTraced(submitted, w, v, v');
    } else if e.Cancel? || e.Land? || e.Vanish? || e.LateLand? || e.LateGone? {
    } else {
      WorkTraced(submitted, w, v, v', e);
    }
  }

  lemma PublishTraced(submitted: set<UpdateRequest>, w: string, v: Slice, v': Slice)
    requires Follows(Serving, w, v, v', Publish) && SliceTraced(submitted, v)
    ensures SliceTraced(submitted, v')
  {
    TaskWrites(submitted, w, v);
    hide SliceInv;
  }

  lemma WorkTraced(submitted: set<UpdateRequest>, w: string, v: Slice, v': Slice, e: Event)
    requires Follows(Serving, w, v, v', e) && SliceTraced(submitted, v)
    requires e.DeployReturn? || e.FailDeploy? || e.CleanupReturn? || e.UpdateReturn? || e.UpdateFail?
             || e.RollbackReturn? || e.DeleteRead? || e.DeleteMark? || e.DeleteSave? || e.DeleteReturn?
    ensures SliceTraced(submitted, v')
  {
    if !OnlyGuards(v.task.value) {
      TaskWrites(submitted, w, v);
    }
    hide SliceInv, NeedsCleanup, Accepts;
  }

  /** The records a working task may write are not mid-update, apart from the one it saves first. */
  lemma TaskWrites(submitted: set<UpdateRequest>, w: string, v: Slice)
    requires SliceInv(Serving, w, v) && v.task.Some? && !OnlyGuards(v.task.value)
    ensures v.memory.Some?
    ensures match v.task.value
            case DeployCommitting(stored) => stored.phase.Active?
            case UpdateCommitting(updated) => updated.phase.Active?
            case RollbackRunning(prior, _) => prior.phase.Active?
            case RollbackCommitting(prior, _) => prior.phase.Active?
            case UpdateRunning(prior, _) => prior.phase.Active?
            case DeleteMarking(seen) => v.memory.value.phase.Active?
            case DeleteSaving(seen, marked) => seen.phase.Active? && marked.phase.Active?
            case DeleteRunning(seen) => seen.phase.Active?
            case DeleteRestoring(seen) => seen.phase.Active?
            case DeleteUnmarking => v.memory.value.phase.Active?
            case _ => true
  {
  }

  lemma QuietTraced(submitted: set<UpdateRequest>, kind: Kind, w: string, v: Slice, v': Slice, e: Event)
    requires Follows(kind, w, v, v', e) && !kind.Serving? && SliceTraced(submitted, v)
    ensures SliceTraced(submitted, v')
  {
  }

  lemma LocalTraced(c: Config, s: State, s': State, w: string, e: Event)
    requires Slices(s) && c.refusesUncertain && LocalStepNext(c, s, s', w, e) && Traced(s)
    ensures Traced(s')
  {
    hide Slices, LocalNext, SliceTraced, Follows;
    LocalSlices(c, s, s', w, e);
    var kind := KindOf(s.mode);
    assert SliceTraced(s.submitted, View(s, w));
    if kind.Serving? {
      ServingTraced(s.submitted, w, View(s, w), View(s', w), e);
    } else {
      QuietTraced(s.submitted, kind, w, View(s, w), View(s', w), e);
    }
    forall x ensures SliceTraced(s'.submitted, View(s', x)) {
      assert SliceTraced(s.submitted, View(s, x));
    }
  }

  lemma TracedExcept(s: State, s': State, w: string)
    requires Traced(s) && s.submitted <= s'.submitted
    requires forall x | x != w :: View(s', x) == View(s, x)
    requires SliceTraced(s'.submitted, View(s', w))
    ensures Traced(s')
  {
    hide View;
    forall x ensures SliceTraced(s'.submitted, View(s', x)) {
      assert SliceTraced(s.submitted, View(s, x));
    }
  }

  lemma AcquireTraced(s: State, s': State, w: string, task: Task)
    requires Traced(s) && AcquireNext(s, s', w, task)
    ensures Traced(s') && s.submitted <= s'.submitted
  {
    assert SliceTraced(s.submitted, View(s, w));
    assert View(s', w) == View(s, w).(task := Some(task));
    TracedExcept(s, s', w);
  }

  lemma DeployStartTraced(s: State, s': State, w: string, now: nat, measured: Option<Size>, saved: bool)
    requires Traced(s) && DeployStartNext(s, s', w, now, measured, saved)
    ensures Traced(s') && s.submitted == s'.submitted
  {
    hide DeployBinds;
    assert SliceTraced(s.submitted, View(s, w));
    DeployStartFrame(s, s', w, now, measured, saved);
    TracedExcept(s, s', w);
  }

  lemma UpdateStartTraced(c: Config, s: State, s': State, w: string, saved: bool)
    requires Traced(s) && UpdateStartNext(c, s, s', w, saved)
    ensures Traced(s') && s.submitted == s'.submitted
  {
    hide JudgeUpdate;
    assert SliceTraced(s.submitted, View(s, w));
    UpdateStartFrame(c, s, s', w, saved);
    TracedExcept(s, s', w);
  }

  /** Steps that only add or drop whole copies of stored records. */
  lemma WholeStepTraced(c: Config, s: State, s': State, step: Step)
    requires Traced(s) && NextStep(c, s, s', step)
    requires !step.Local? && !step.Acquire? && !step.DeployStart? && !step.UpdateStart?
    ensures Traced(s') && s.submitted == s'.submitted
  {
    hide Verdict, RestoredFits, Abandoned, TaskTraced;
    forall x ensures SliceTraced(s'.submitted, View(s', x)) {
      assert SliceTraced(s.submitted, View(s, x));
      NoTaskTraced(s.submitted);
    }
  }

  lemma NoTaskTraced(submitted: set<UpdateRequest>)
    ensures TaskTraced(submitted, None)
  {
  }

  lemma StepTraced(c: Config, s: State, s': State, step: Step)
    requires Slices(s) && c.refusesUncertain && NextStep(c, s, s', step) && Traced(s)
    ensures Traced(s') && s.submitted <= s'.submitted
  {
    hide Slices, Traced, LocalNext, AdmitNext, AcquireNext, DeployStartNext, UpdateStartNext, RestoredFits;
    if step.Local? {
      LocalTraced(c, s, s', step.workload, step.event);
    } else if step.Acquire? {
      AcquireTraced(s, s', step.workload, step.task);
    } else if step.DeployStart? {
      DeployStartTraced(s, s', step.workload, step.now, step.measured, step.saved);
    } else if step.UpdateStart? {
      UpdateStartTraced(c, s, s', step.workload, step.saved);
    } else {
      WholeStepTraced(c, s, s', step);
    }
  }

  lemma {:induction false} TracedHolds(c: Config, run: Run)
    requires Valid(c, run) && c.refusesUncertain
    ensures Traced(Last(run))
  {
    match run
    case Begin =>
    case After(before, step, state) =>
      hide NextStep, Traced, Slices;
      TracedHolds(c, before);
      InvariantHolds(c, before);
      StepTraced(c, Last(before), state, step);
  }

  // ---- one step ----

  /** `request` swaps the revision of workload `w` from `before` to `after`. */
  predicate Swaps(request: UpdateRequest, w: string, before: string, after: string) {
    request.workload == w && request.expected == before && request.requested == after
  }

  /** A local step changes a stored revision only by finishing the update the record carries. */
  lemma LocalRevision(kind: Kind, w: string, v: Slice, v': Slice, e: Event)
    requires Follows(kind, w, v, v', e) && v.disk.Some? && v'.disk.Some?
    ensures || v'.disk.value.grant.revision == v.disk.value.grant.revision
            || (v.disk.value.phase.Updating?
                && Swaps(v.disk.value.phase.request, w, v.disk.value.grant.revision, v'.disk.value.grant.revision))
  {
    if kind.Serving? {
      ServingRevision(w, v, v', e);
    } else {
      QuietRevision(kind, w, v, v', e);
    }
  }

  lemma ServingRevision(w: string, v: Slice, v': Slice, e: Event)
    requires Follows(Serving, w, v, v', e) && v.disk.Some? && v'.disk.Some?
    ensures || v'.disk.value.grant.revision == v.disk.value.grant.revision
            || (v.disk.value.phase.Updating?
                && Swaps(v.disk.value.phase.request, w, v.disk.value.grant.revision, v'.disk.value.grant.revision))
  {
    if v.task.Some? && !OnlyGuards(v.task.value) {
      TaskGrants(w, v);
    }
    hide SliceInv, NeedsCleanup;
  }

  /** The grants in the records a working task may save. */
  lemma TaskGrants(w: string, v: Slice)
    requires SliceInv(Serving, w, v) && v.task.Some? && !OnlyGuards(v.task.value) && v.disk.Some?
    ensures var d := v.disk.value;
            match v.task.value
            case DeployRunning(stored) => stored.grant == d.grant
            case DeployFailing(stored, _) => stored.grant == d.grant
            case UpdateRunning(prior, request) =>
              d.phase.Updating? && d.phase.request == request
              && Swaps(request, w, d.grant.revision, request.grant.revision)
            case RollbackRunning(prior, _) => prior.grant == d.grant
            case DeleteSaving(_, marked) => marked.grant == d.grant
            case DeleteRunning(seen) => seen.grant == d.grant
            case _ => true
  {
  }

  lemma QuietRevision(kind: Kind, w: string, v: Slice, v': Slice, e: Event)
    requires Follows(kind, w, v, v', e) && !kind.Serving? && v.disk.Some? && v'.disk.Some?
    ensures || v'.disk.value.grant.revision == v.disk.value.grant.revision
            || (v.disk.value.phase.Updating?
                && Swaps(v.disk.value.phase.request, w, v.disk.value.grant.revision, v'.disk.value.grant.revision))
  {
  }

  /** Starting an update keeps the stored revision, which is the one the request expects. */
  lemma UpdateStartRevision(c: Config, s: State, s': State, w: string, saved: bool)
    requires Slices(s) && UpdateStartNext(c, s, s', w, saved) && w in s.store
    ensures w in s'.store && s'.store[w].grant.revision == s.store[w].grant.revision
    ensures w in s'.mutations ==>
              && s'.mutations[w].UpdateRunning?
              && s.store[w].grant.revision == s.mutations[w].request.expected
  {
    InstantiateSlice(s, w);
    hide UsageWithout, Slices;
  }

  lemma DeployStartRevision(c: Config, s: State, s': State, w: string, now: nat, measured: Option<Size>, saved: bool)
    requires Inv(c, s) && DeployStartNext(s, s', w, now, measured, saved)
    ensures forall x | x in s.store :: x in s'.store && s'.store[x] == s.store[x]
  {
    hide Slices, PlacementInv;
    if w in s'.mutations {
      GuardNames(s, w);
      ReservedIsFree(s, s.mutations[w].grant.reservation);
    }
  }

  /** The compare-and-swap of one step: a stored revision changes only by a submitted request that expects
      the revision it replaces. */
  lemma StepIsSwap(c: Config, s: State, s': State, step: Step, w: string) returns (request: Option<UpdateRequest>)
    requires Inv(c, s) && c.refusesUncertain && Traced(s) && NextStep(c, s, s', step)
    requires w in s.store && w in s'.store
    ensures if request.None? then s'.store[w].grant.revision == s.store[w].grant.revision
            else request.value in s.submitted
                 && Swaps(request.value, w, s.store[w].grant.revision, s'.store[w].grant.revision)
  {
    hide Slices, PlacementInv, LocalStepNext, AdmitNext, AcquireNext, DeployStartNext, UpdateStartNext, BootNext,
         RestoredFits, Swaps, SliceTraced;
    request := None;
    match step
    case Local(x, e) => request := LocalIsSwap(c, s, s', x, e, w);
    case UpdateStart(x, saved) =>
      if x == w {
        UpdateStartRevision(c, s, s', w, saved);
      } else {
        UpdateStartFrame(c, s, s', x, saved);
        SameDisk(s, s', w);
      }
    case DeployStart(x, now, measured, saved) => DeployStartRevision(c, s, s', x, now, measured, saved);
    case _ => WholeStepStore(c, s, s', step);
  }

  lemma SameDisk(s: State, s': State, w: string)
    requires View(s', w) == View(s, w) && w in s.store
    ensures w in s'.store && s'.store[w] == s.store[w]
  {
  }

  lemma WholeStepStore(c: Config, s: State, s': State, step: Step)
    requires NextStep(c, s, s', step) && !step.Local? && !step.DeployStart? && !step.UpdateStart?
    ensures s'.store == s.store
  {
    hide Verdict, RestoredFits, Abandoned;
  }

  lemma LocalIsSwap(c: Config, s: State, s': State, x: string, e: Event, w: string)
    returns (request: Option<UpdateRequest>)
    requires Inv(c, s) && c.refusesUncertain && Traced(s) && LocalStepNext(c, s, s', x, e)
    requires w in s.store && w in s'.store
    ensures if request.None? then s'.store[w].grant.revision == s.store[w].grant.revision
            else request.value in s.submitted
                 && Swaps(request.value, w, s.store[w].grant.revision, s'.store[w].grant.revision)
  {
    hide Slices, LocalStepNext, Follows, Swaps;
    LocalSlices(c, s, s', x, e);
    request := None;
    if x != w {
      SameDisk(s, s', w);
    } else {
      assert SliceTraced(s.submitted, View(s, w));
      LocalRevision(KindOf(s.mode), w, View(s, w), View(s', w), e);
      if s'.store[w].grant.revision != s.store[w].grant.revision {
        request := Some(s.store[w].phase.request);
      }
    }
  }

  // ---- whole runs ----

  predicate StoredThroughout(s: State, trail: Trail, w: string)
    ensures StoredThroughout(s, trail, w) ==> w in End(s, trail).store
  {
    match trail
    case Here => w in s.store
    case Onward(before, _, state) => StoredThroughout(s, before, w) && w in state.store
  }

  /** One change of a stored revision. */
  datatype Change = Change(from: string, to: string)

  /** The changes of a workload's stored revision over a stretch, in the order they happened. */
  function Changes(s: State, trail: Trail, w: string): seq<Change>
    requires StoredThroughout(s, trail, w)
  {
    match trail
    case Here => []
    case Onward(before, _, state) =>
      var from, to := End(s, before).store[w].grant.revision, state.store[w].grant.revision;
      if from == to then Changes(s, before, w) else Changes(s, before, w) + [Change(from, to)]
  }

  /** Each change was made by its own request, which was submitted and expected the revision it replaced. */
  ghost predicate MadeBy(submitted: set<UpdateRequest>, w: string, changes: seq<Change>, requests: seq<UpdateRequest>) {
    && |requests| == |changes|
    && forall i | 0 <= i < |changes| ::
         requests[i] in submitted && Swaps(requests[i], w, changes[i].from, changes[i].to)
  }

  /** Each change starts where the one before it ended. */
  predicate Linked(from: string, changes: seq<Change>, to: string) {
    if changes == [] then from == to
    else
      var last := changes[|changes| - 1];
      last.to == to && Linked(from, changes[..|changes| - 1], last.from)
  }

  lemma {:induction false} TrailIsChain(c: Config, s: State, trail: Trail, w: string)
    returns (requests: seq<UpdateRequest>)
    requires Inv(c, s) && c.refusesUncertain && Traced(s)
    requires Follow(c, s, trail) && StoredThroughout(s, trail, w)
    ensures Inv(c, End(s, trail)) && Traced(End(s, trail))
    ensures w in s.store && w in End(s, trail).store
    ensures MadeBy(End(s, trail).submitted, w, Changes(s, trail, w), requests)
    ensures Linked(s.store[w].grant.revision, Changes(s, trail, w), End(s, trail).store[w].grant.revision)
  {
    hide Inv, Traced, NextStep, Swaps, MadeBy, Linked;
    match trail
    case Here => requests := NoChanges(s, w);
    case Onward(before, step, state) =>
      var earlier := TrailIsChain(c, s, before, w);
      var mid := End(s, before);
      StepKeeps(c, mid, state, step);
      SlicesOf(c, mid);
      StepTraced(c, mid, state, step);
      var swap := StepIsSwap(c, mid, state, step, w);
      requests := OneMore(mid.submitted, state.submitted, w, Changes(s, before, w), earlier, swap,
                          s.store[w].grant.revision, mid.store[w].grant.revision, state.store[w].grant.revision);
  }

  lemma NoChanges(s: State, w: string) returns (requests: seq<UpdateRequest>)
    requires w in s.store
    ensures MadeBy(s.submitted, w, [], requests)
    ensures Linked(s.store[w].grant.revision, [], s.store[w].grant.revision)
  {
    requests := [];
  }

  lemma OneMore(submitted: set<UpdateRequest>, more: set<UpdateRequest>, w: string, changes: seq<Change>,
                earlier: seq<UpdateRequest>, swap: Option<UpdateRequest>, start: string, from: string, to: string)
    returns (requests: seq<UpdateRequest>)
    requires MadeBy(submitted, w, changes, earlier) && Linked(start, changes, from) && submitted <= more
    requires if swap.None? then from == to else swap.value in submitted && Swaps(swap.value, w, from, to)
    ensures var next := if from == to then changes else changes + [Change(from, to)];
            MadeBy(more, w, next, requests) && Linked(start, next, to)
  {
    hide Swaps;
    if from == to {
      requests := earlier;
    } else {
      requests := earlier + [swap.value];
      assert (changes + [Change(from, to)])[..|changes|] == changes;
    }
  }

  lemma SlicesOf(c: Config, s: State)
    requires Inv(c, s)
    ensures Slices(s)
  {
  }

  /** Over any stretch of any run in which a workload stays stored, the changes of its stored revision follow on
      each other, and each was made by a submitted request that expected the revision it replaced.  The stretch
      may contain failed updates, rollbacks, cancellations, crashes and restarts that roll an update forward. */
  lemma StoredRevisionsFormChain(c: Config, run: Run, trail: Trail, w: string)
    requires Valid(c, run) && c.refusesUncertain
    requires Follow(c, Last(run), trail) && StoredThroughout(Last(run), trail, w)
    ensures w in Last(run).store && w in End(Last(run), trail).store
    ensures Linked(Last(run).store[w].grant.revision, Changes(Last(run), trail, w),
                   End(Last(run), trail).store[w].grant.revision)
    ensures exists requests :: MadeBy(End(Last(run), trail).submitted, w, Changes(Last(run), trail, w), requests)
  {
    hide Inv, Traced, NextStep, MadeBy, Linked;
    InvariantHolds(c, run);
    TracedHolds(c, run);
    var requests := TrailIsChain(c, Last(run), trail, w);
  }

  // ---- stretches in which every request is refused ----

  /** The step accepts an update of `w` and saves it. */
  ghost predicate AcceptsUpdate(c: Config, s: State, step: Step, w: string) {
    && step == UpdateStart(w, true)
    && w in s.mutations && s.mutations[w].UpdateGuarded? && s.mutations[w].request.workload == w
    && JudgeUpdate(c, s, s.mutations[w].request).Accepted?
  }

  ghost predicate NoneAccepted(c: Config, s: State, trail: Trail, w: string) {
    match trail
    case Here => true
    case Onward(before, step, _) => NoneAccepted(c, s, before, w) && !AcceptsUpdate(c, End(s, before), step, w)
  }

  lemma ServingSettled(w: string, v: Slice, v': Slice, e: Event)
    requires Follows(Serving, w, v, v', e) && v.disk.Some? && v'.disk.Some? && !v.disk.value.phase.Updating?
    ensures !v'.disk.value.phase.Updating?
  {
    hide NeedsCleanup, AllowedRevisions, WellFormed, InSync, DurableInv;
  }

  lemma QuietSettled(kind: Kind, w: string, v: Slice, v': Slice, e: Event)
    requires Follows(kind, w, v, v', e) && v.disk.Some? && v'.disk.Some? && !v.disk.value.phase.Updating?
    requires !kind.Serving?
    ensures !v'.disk.value.phase.Updating?
  {
    hide NeedsCleanup, AllowedRevisions, WellFormed, DurableInv;
  }

  lemma LocalSettled(kind: Kind, w: string, v: Slice, v': Slice, e: Event)
    requires Follows(kind, w, v, v', e) && v.disk.Some? && v'.disk.Some? && !v.disk.value.phase.Updating?
    ensures !v'.disk.value.phase.Updating?
  {
    hide Follows;
    if kind.Serving? {
      ServingSettled(w, v, v', e);
    } else {
      QuietSettled(kind, w, v, v', e);
    }
  }

  lemma StepSettled(c: Config, s: State, s': State, step: Step, w: string)
    requires Inv(c, s) && c.refusesUncertain && NextStep(c, s, s', step) && w in s.store && w in s'.store
    requires !s.store[w].phase.Updating? && !AcceptsUpdate(c, s, step, w)
    ensures !s'.store[w].phase.Updating? && s'.store[w].grant.revision == s.store[w].grant.revision
  {
    hide Slices, PlacementInv, LocalStepNext, AdmitNext, AcquireNext, DeployStartNext, BootNext, RestoredFits,
         JudgeUpdate, Crashed, Follows;
    match step
    case Local(x, e) =>
      LocalSlices(c, s, s', x, e);
      if x != w {
        SameDisk(s, s', w);
      } else {
        LocalRevision(KindOf(s.mode), w, View(s, w), View(s', w), e);
        LocalSettled(KindOf(s.mode), w, View(s, w), View(s', w), e);
      }
    case DeployStart(x, now, measured, saved) => DeployStartRevision(c, s, s', x, now, measured, saved);
    case UpdateStart(x, saved) =>
    case _ => WholeStepStore(c, s, s', step);
  }

  lemma {:induction false} StretchSettled(c: Config, s: State, trail: Trail, w: string)
    requires Inv(c, s) && c.refusesUncertain && Follow(c, s, trail) && StoredThroughout(s, trail, w)
    requires w in s.store && !s.store[w].phase.Updating? && NoneAccepted(c, s, trail, w)
    ensures Inv(c, End(s, trail)) && w in End(s, trail).store
    ensures !End(s, trail).store[w].phase.Updating?
    ensures End(s, trail).store[w].grant.revision == s.store[w].grant.revision
  {
    hide Inv, NextStep, AcceptsUpdate;
    match trail
    case Here =>
    case Onward(before, step, state) =>
      StretchSettled(c, s, before, w);
      StepKeeps(c, End(s, before), state, step);
      StepSettled(c, End(s, before), state, step, w);
  }

  /** From a state in which no update of a workload is under way, and for as long as every request for it is
      refused (already active, conflict, or anything else), its stored revision and the revision its pod runs stay
      what they were, through everything else that happens to it and around it. */
  lemma RefusedUpdatesChangeNothing(c: Config, run: Run, trail: Trail, w: string)
    requires Valid(c, run) && c.refusesUncertain
    requires Follow(c, Last(run), trail) && StoredThroughout(Last(run), trail, w)
    requires w in Last(run).store && !Last(run).store[w].phase.Updating? && NoneAccepted(c, Last(run), trail, w)
    ensures var revision := Last(run).store[w].grant.revision;
            && w in End(Last(run), trail).store && End(Last(run), trail).store[w].grant.revision == revision
            && (w in End(Last(run), trail).pods ==> End(Last(run), trail).pods[w] == revision)
  {
    hide NextStep, NoneAccepted, Slices, PlacementInv, CountInv;
    InvariantHolds(c, run);
    StretchSettled(c, Last(run), trail, w);
    var s := End(Last(run), trail);
    InstantiateSlice(s, w);
    assert View(s, w).disk == Some(s.store[w]);
    assert w in s.pods ==> View(s, w).pod == Some(s.pods[w]);
  }

  /** An update is judged on what is actually stored.  It is accepted exactly when the workload is active and not being
      deleted, is of the request's namespace and identity, has the revision the request expects and not the one it
      asks for (unless it asks to refresh), and fits with everything else; it is a conflict exactly when all but the
      expected revision hold. */
  lemma JudgedOnStoredRevision(c: Config, s: State, w: string)
    requires Inv(c, s) && s.mode.Up? && w in s.mutations && s.mutations[w].UpdateGuarded? && w in s.store
    ensures var request := s.mutations[w].request;
            var verdict := JudgeUpdate(c, s, request);
            var candidate := w in s.active && s.active[w].phase.Active? && !s.active[w].deleting
                             && s.store[w].grant.namespace == request.namespace;
            var revision := s.store[w].grant.revision;
            var same := candidate && request.grant.execution == s.active[w].execution;
            var others := Committed(s.active - {w}, s.reservations);
            && (verdict.NotFound? <==> w !in s.active || s.store[w].grant.namespace != request.namespace)
            && (verdict.NotActive? <==>
                  && w in s.active && s.store[w].grant.namespace == request.namespace
                  && (!s.active[w].phase.Active? || s.active[w].deleting))
            && (verdict.IdentityMismatch? <==>
                  && candidate && (revision != request.requested || request.refresh)
                  && request.grant.execution != s.active[w].execution)
            && (verdict.Unchanged? <==> candidate && revision == request.requested && !request.refresh)
            && (verdict.Conflict? <==>
                  same && (revision != request.requested || request.refresh) && revision != request.expected)
            && (verdict.Accepted? || verdict.OverCapacity? <==>
                  same && (revision != request.requested || request.refresh) && revision == request.expected)
            && (BelowMax(c) && (verdict.Accepted? || verdict.OverCapacity?) ==>
                  (verdict.Accepted? <==> others.Plus(request.size.Exact()).Within(c.capacity.Exact())))
  {
    hide Slices, UsageWithout, Committed, Sum;
    StoredAsCharged(c, s, w);
    if BelowMax(c) {
      FitsWithout(c, s, w, s.mutations[w].request.size);
    }
  }

  lemma StoredAsCharged(c: Config, s: State, w: string)
    requires Inv(c, s) && s.mode.Up? && w in s.mutations && s.mutations[w].UpdateGuarded? && w in s.store
    ensures s.mutations[w].request.workload == w
    ensures w in s.active ==> s.active[w].grant.namespace == s.store[w].grant.namespace && s.active[w].runtimeId != ""
    ensures w in s.active && s.active[w].phase.Active? ==> s.active[w].grant == s.store[w].grant
  {
    InstantiateSlice(s, w);
    hide Slices;
    assert View(s, w).task == Some(s.mutations[w]);
  }

  lemma FitsWithout(c: Config, s: State, w: string, size: Size)
    requires BelowMax(c)
    ensures UsageWithout(s.active, s.reservations, w).Plus(size).FitsWithin(Limit(c.capacity)) <==>
            Committed(s.active - {w}, s.reservations).Plus(size.Exact()).Within(c.capacity.Exact())
  {
    hide Sum;
    ClampPlus(Committed(s.active - {w}, s.reservations), size);
    FitsExactly(c, Committed(s.active - {w}, s.reservations).Plus(size.Exact()));
  }
}
