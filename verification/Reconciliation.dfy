/** One record's reconciliation at start-up, as the source runs it: `restore_one` and its caller's error
    rule (`podmesh-agent/src/service.rs`), tied to the one to three steps the machine takes for it.
 */
module Reconciliation {
  import opened Options
  import opened Records
  import opened Accounting
  import opened Lifecycle
  import opened LifecycleInvariant
  import opened LifecycleRuns
  import opened Recovery

  /** How the calls made for one record turn out: the status query, decoding and measuring, the runtime
      call that changes something, the store write after it, and deleting a pod that could not be saved. */
  datatype Calls = Calls(alive: bool, prepared: bool, ran: bool, written: bool, undone: bool)

  function PlanFor(stored: Record, pod: Option<string>, calls: Calls): Plan {
    if !stored.phase.Updating? && stored.runtimeId != "" && pod.Some? && calls.alive then Healthy
    else if calls.prepared then Proceed
    else GiveUp
  }

  /** The state of a queued record's workload after the machine's one to three steps for it. */
  function Picked(refuses: bool, v: Slice, calls: Calls): Slice
    requires v.queued.Some?
  {
    AfterPick(v, refuses, v.queued.value, PlanFor(v.queued.value, v.pod, calls))
  }

  function Returned(v: Slice, ok: bool, saved: bool): Slice {
    if v.task.Some? then AfterRestore(v, v.task.value, ok, saved) else v
  }

  function AfterCalls(refuses: bool, v: Slice, calls: Calls): Slice
    requires v.queued.Some?
  {
    Returned(Returned(Picked(refuses, v, calls), calls.ran, calls.written), calls.undone, false)
  }

  // ---- what the calls leave, case by case ----

  /** A workload's stored record, its entry in `active` and its pod. */
  datatype Copies = Copies(disk: Option<Record>, memory: Option<Record>, pod: Option<string>)

  /** Removing the pod and then the record: only if both succeed is the workload forgotten. */
  function Removal(r: Record, pod: Option<string>, calls: Calls): Copies {
    if calls.ran && calls.written then Copies(None, None, None)
    else Copies(Some(r), Some(r), if calls.ran then None else pod)
  }

  /** What a start leaves of a record, by its phase and the outcome of each call made for it.  A first creation that
      may still be happening is kept if the runtime refuses to clean it up; an interrupted update is rolled forward;
      a workload whose pod does not answer is created again; and whatever fails, the record is retained. */
  function LeftOf(refuses: bool, r: Record, pod: Option<string>, calls: Calls): Copies {
    var retained := Copies(Some(r), Some(r), pod);
    match r.phase
    case Creating => if refuses then retained else Removal(r, pod, calls)
    case CleanupPending(uncertain) => if refuses && uncertain then retained else Removal(r, pod, calls)
    case Updating(_, _, request) =>
      if r.deleting then Removal(r, pod, calls)
      else if !calls.prepared || !calls.ran then retained
      else
        var updated := Record(Active, request.grant, r.grant.workload, false, request.size, request.grant.execution);
        var kept := if calls.written then updated else r;
        Copies(Some(kept), Some(kept), Some(request.grant.revision))
    case Active =>
      if r.runtimeId == "" then if refuses then retained else Removal(r, pod, calls)
      else if r.deleting then Removal(r, pod, calls)
      else if (pod.Some? && calls.alive) || !calls.prepared || !calls.ran then retained
      else if calls.written then
        var again := r.(runtimeId := r.grant.workload);
        Copies(Some(again), Some(again), Some(r.grant.revision))
      else Copies(Some(r), Some(r), if calls.undone then None else Some(r.grant.revision))
  }

  predicate Refused(refuses: bool, stored: Record) {
    NeedsCleanup(stored) && !Accepts(refuses, stored.phase)
  }

  predicate Removes(refuses: bool, stored: Record) {
    if NeedsCleanup(stored) then Accepts(refuses, stored.phase) else stored.deleting
  }

  predicate Startable(v: Slice) {
    v.queued.Some? && v.task.None? && v.memory.None?
  }

  lemma RefusedCalls(refuses: bool, v: Slice, calls: Calls)
    requires Startable(v) && Refused(refuses, v.queued.value)
    ensures AfterCalls(refuses, v, calls) == v.(queued := None, memory := v.queued)
  {
  }

  lemma RemovedCalls(refuses: bool, v: Slice, calls: Calls)
    requires Startable(v) && Removes(refuses, v.queued.value)
    ensures AfterCalls(refuses, v, calls) ==
            v.(queued := None, pod := if calls.ran then None else v.pod,
               disk := if calls.ran && calls.written then None else v.disk,
               memory := if calls.ran && calls.written then None else v.queued)
  {
  }

  lemma UpdatedCalls(refuses: bool, v: Slice, calls: Calls)
    requires Startable(v) && v.queued.value.phase.Updating? && !v.queued.value.deleting
    ensures var applied := Some(Applied(v.queued.value));
            var ran := calls.prepared && calls.ran;
            AfterCalls(refuses, v, calls) ==
            v.(queued := None, pod := if ran then Some(v.queued.value.phase.request.grant.revision) else v.pod,
               disk := if ran && calls.written then applied else v.disk,
               memory := if ran && calls.written then applied else v.queued)
  {
  }

  /** `restore_one`, with the caller's rule that a record whose reconciliation failed is retained.  `held`
      and `running` are what the store and the runtime have for the workload; `disk` and `pod` are what the
      calls leave of them. */
  method RestoreOne(refuses: bool, stored: Record, held: Option<Record>, running: Option<string>, calls: Calls,
                    ghost v: Slice)
    returns (kept: Option<Record>, disk: Option<Record>, pod: Option<string>)
    requires v.queued == Some(stored) && v.task.None? && v.memory.None? && v.disk == held && v.pod == running
    ensures AfterCalls(refuses, v, calls) == v.(queued := None, memory := kept, disk := disk, pod := pod)
    ensures held == Some(stored) ==> Copies(disk, kept, pod) == LeftOf(refuses, stored, running, calls)
  {
    kept, disk, pod := Some(stored), held, running;
    if NeedsCleanup(stored) && !Accepts(refuses, stored.phase) {
      RefusedCalls(refuses, v, calls);
      return;
    }
    if NeedsCleanup(stored) || stored.deleting {
      hide AfterCalls;
      RemovedCalls(refuses, v, calls);
      if calls.ran {
        pod := None;
        if calls.written {
          disk, kept := None, None;
        }
      }
      return;
    }
    if stored.phase.Updating? {
      hide AfterCalls;
      UpdatedCalls(refuses, v, calls);
      if calls.prepared && calls.ran {
        pod := Some(stored.phase.request.grant.revision);
        if calls.written {
          disk, kept := Some(Applied(stored)), Some(Applied(stored));
        }
      }
      return;
    }
    if stored.runtimeId != "" && pod.Some? && calls.alive {
      return;
    }
    if calls.prepared && calls.ran {
      pod := Some(stored.grant.revision);
      if calls.written {
        kept := Some(stored.(runtimeId := TargetId(stored.grant.workload)));
        disk := kept;
      } else if calls.undone {
        pod := None;
      }
    }
  }

  /** Extend a run of the machine by one return of a restore call, if one is pending. */
  lemma ExtendReturn(c: Config, origin: State, trail: Trail, w: string, ok: bool, saved: bool) returns (longer: Trail)
    requires Follow(c, origin, trail) && AllRecovery(trail) && End(origin, trail).mode.Restoring?
    requires View(End(origin, trail), w).queued.None?
    requires View(End(origin, trail), w).task.Some? ==>
      && var task := View(End(origin, trail), w).task.value;
         task.RestoreRemoving? || task.RestoreUpdating? || task.RestoreDeploying? || task.RestoreUndoing?
    ensures Follow(c, origin, longer) && AllRecovery(longer)
    ensures View(End(origin, trail), w).task.None? ==> longer == trail
    ensures View(End(origin, trail), w).task.Some? ==>
              End(origin, longer) == Put(End(origin, trail), w, Returned(View(End(origin, trail), w), ok, saved))
  {
    hide NextStep, Put, AfterRestore;
    var s := End(origin, trail);
    var v := View(s, w);
    if v.task.None? {
      longer := trail;
    } else {
      ApplyLocal(c, s, w, Returned(v, ok, saved), RestoreReturn(ok, saved));
      longer := Onward(trail, Local(w, RestoreReturn(ok, saved)), Put(s, w, Returned(v, ok, saved)));
    }
  }

  lemma PickShape(refuses: bool, v: Slice, calls: Calls)
    requires v.queued.Some? && v.task.None?
    ensures LocalNext(refuses, v, Picked(refuses, v, calls), RestorePick(PlanFor(v.queued.value, v.pod, calls)))
    ensures var p := Picked(refuses, v, calls);
            p.queued.None? && p.quarantined == v.quarantined && p.late == v.late
            && (p.task.Some? ==> p.task.value.RestoreRemoving? || p.task.value.RestoreUpdating?
                                 || p.task.value.RestoreDeploying?)
  {
  }

  lemma ReturnShape(v: Slice, ok: bool, saved: bool)
    requires v.queued.None? && v.task.Some?
    requires v.task.value.RestoreRemoving? || v.task.value.RestoreUpdating? || v.task.value.RestoreDeploying?
             || v.task.value.RestoreUndoing?
    ensures var r := Returned(v, ok, saved);
            r.queued.None? && r.quarantined == v.quarantined && r.late == v.late
            && (r.task.Some? ==> v.task.value.RestoreDeploying? && r.task.value.RestoreUndoing?)
  {
  }

  lemma RestoreShapes(refuses: bool, v: Slice, calls: Calls)
    requires v.queued.Some? && v.task.None?
    ensures LocalNext(refuses, v, Picked(refuses, v, calls), RestorePick(PlanFor(v.queued.value, v.pod, calls)))
    ensures var p := Picked(refuses, v, calls);
            p.queued.None? && p.quarantined == v.quarantined
            && (p.task.Some? ==> p.task.value.RestoreRemoving? || p.task.value.RestoreUpdating?
                                 || p.task.value.RestoreDeploying?)
    ensures var r := Returned(Picked(refuses, v, calls), calls.ran, calls.written);
            r.queued.None? && r.quarantined == v.quarantined && (r.task.Some? ==> r.task.value.RestoreUndoing?)
    ensures AfterCalls(refuses, v, calls).queued.None? && AfterCalls(refuses, v, calls).task.None?
    ensures AfterCalls(refuses, v, calls).late == v.late
  {
    hide LocalNext, AfterPick, AfterRestore, Picked;
    PickShape(refuses, v, calls);
    var picked := Picked(refuses, v, calls);
    if picked.task.Some? {
      ReturnShape(picked, calls.ran, calls.written);
      var returned := Returned(picked, calls.ran, calls.written);
      if returned.task.Some? {
        ReturnShape(returned, calls.undone, false);
      }
    }
  }

  /** `AfterCalls` is what the machine does to a queued record, whatever the calls return. */
  lemma ReconcileFollows(c: Config, origin: State, trail: Trail, w: string, calls: Calls) returns (longer: Trail)
    requires Follow(c, origin, trail) && AllRecovery(trail)
    requires var s := End(origin, trail); BetweenRecords(s) && w in s.mode.queued
    ensures Follow(c, origin, longer) && AllRecovery(longer)
    ensures var s := End(origin, trail);
            End(origin, longer) == Put(s, w, AfterCalls(c.refusesUncertain, View(s, w), calls))
  {
    hide NextStep, LocalNext, Put, AfterPick, AfterRestore;
    var s := End(origin, trail);
    var v := View(s, w);
    RestoreShapes(c.refusesUncertain, v, calls);
    var picked := Picked(c.refusesUncertain, v, calls);
    var plan := PlanFor(v.queued.value, v.pod, calls);
    ApplyLocal(c, s, w, picked, RestorePick(plan));
    var first := Onward(trail, Local(w, RestorePick(plan)), Put(s, w, picked));
    ViewPut(s, w, picked, w);
    PutModes(s, w, picked);
    var second := ExtendReturn(c, origin, first, w, calls.ran, calls.written);
    var returned := Returned(picked, calls.ran, calls.written);
    PutTwice(s, w, picked, returned);
    ViewPut(s, w, returned, w);
    PutModes(s, w, returned);
    longer := ExtendReturn(c, origin, second, w, calls.undone, false);
    PutTwice(s, w, returned, Returned(returned, calls.undone, false));
  }

  /** Recognise the state a restored record leaves. */
  lemma RestoreIs(s: State, w: string, v: Slice, queued: map<string, Record>)
    requires s.mode.Restoring? && queued == s.mode.queued - {w} && v.queued.None?
    requires v.task == Get(s.mutations, w) && v.late == Get(s.late, w)
    ensures s.(store := Set(s.store, w, v.disk), pods := Set(s.pods, w, v.pod),
               active := Set(s.active, w, v.memory), mode := Restoring(queued)) == Put(s, w, v)
  {
    hide Get;
    SetGet(s.late, w);
    SetGet(s.mutations, w);
  }

  lemma Extend(c: Config, origin: State, trail: Trail, step: Step, state: State)
    requires Follow(c, origin, trail) && AllRecovery(trail)
    requires NextStep(c, End(origin, trail), state, step) && RecoveryStep(step)
    ensures Follow(c, origin, Onward(trail, step, state)) && AllRecovery(Onward(trail, step, state))
  {
    hide NextStep, RecoveryStep;
  }

  lemma BootStep(c: Config, s: State, unreadable: set<string>)
    requires s.mode.Down? && |s.store| <= c.maxWorkloads && unreadable <= s.store.Keys
    ensures NextStep(c, s, s.(mode := Restoring(s.store - unreadable), quarantined := unreadable), Boot(unreadable))
  {
  }

  lemma BootTrail(c: Config, s: State, unreadable: set<string>) returns (trail: Trail)
    requires s.mode.Down? && |s.store| <= c.maxWorkloads && unreadable <= s.store.Keys
    ensures Follow(c, s, trail) && AllRecovery(trail)
    ensures End(s, trail) == s.(mode := Restoring(s.store - unreadable), quarantined := unreadable)
  {
    hide NextStep;
    var t := s.(mode := Restoring(s.store - unreadable), quarantined := unreadable);
    BootStep(c, s, unreadable);
    Extend(c, s, Here, Boot(unreadable), t);
    trail := Onward(Here, Boot(unreadable), t);
  }

  lemma RestoreEnds(c: Config, s: State)
    requires RestoreFinished(s) && s.reservations == map[]
    ensures if CombinedUsage(s.active, s.reservations).FitsWithin(Limit(c.capacity))
            then NextStep(c, s, s.(mode := Up), RestoreDone)
            else NextStep(c, s, Crashed(s), RestoreRefused)
  {
  }

  lemma PutModes(s: State, w: string, v: Slice)
    ensures Put(s, w, v).mode.Restoring? == s.mode.Restoring?
  {
  }

  // ---- a whole start ----

  function CopiesOf(s: State, w: string): Copies {
    Copies(Get(s.store, w), Get(s.active, w), Get(s.pods, w))
  }

  /** Part of the way through a start from `s`: `todo` is untouched, the rest of what could be read is as its calls
      leave it, and nothing else has changed. */
  ghost predicate Halfway(refuses: bool, s: State, t: State, readable: map<string, Record>, todo: map<string, Record>,
                          calls: map<string, Calls>)
  {
    && todo.Keys <= readable.Keys <= calls.Keys
    && (forall w | w in todo :: todo[w] == readable[w] && CopiesOf(t, w) == Copies(Some(todo[w]), None, Get(s.pods, w)))
    && (forall w | w in readable && w !in todo ::
          CopiesOf(t, w) == LeftOf(refuses, readable[w], Get(s.pods, w), calls[w]))
    && (forall w | w !in readable :: CopiesOf(t, w) == Copies(Get(s.store, w), None, Get(s.pods, w)))
  }

  lemma HalfwayStart(refuses: bool, s: State, t: State, unreadable: set<string>, calls: map<string, Calls>)
    requires s.active == map[] && s.store.Keys <= calls.Keys
    requires t.store == s.store && t.active == s.active && t.pods == s.pods
    ensures Halfway(refuses, s, t, s.store - unreadable, s.store - unreadable, calls)
  {
    hide LeftOf;
  }

  lemma HalfwayTodo(refuses: bool, s: State, t: State, readable: map<string, Record>, todo: map<string, Record>,
                    calls: map<string, Calls>, w: string)
    requires Halfway(refuses, s, t, readable, todo, calls) && w in todo
    ensures w in calls && Get(t.store, w) == Some(todo[w]) && w !in t.active
  {
    hide LeftOf;
    assert CopiesOf(t, w) == Copies(Some(todo[w]), None, Get(s.pods, w));
  }

  lemma HalfwayStep(refuses: bool, s: State, t: State, t': State, readable: map<string, Record>,
                    todo: map<string, Record>, calls: map<string, Calls>, w: string)
    requires Halfway(refuses, s, t, readable, todo, calls) && w in todo
    requires CopiesOf(t', w) == LeftOf(refuses, todo[w], Get(t.pods, w), calls[w])
    requires forall x | x != w :: CopiesOf(t', x) == CopiesOf(t, x)
    ensures Halfway(refuses, s, t', readable, todo - {w}, calls)
  {
    hide LeftOf;
  }

  /** The records a start keeps in memory. */
  function KeptBy(refuses: bool, readable: map<string, Record>, pods: map<string, string>, calls: map<string, Calls>)
    : map<string, Record>
    requires readable.Keys <= calls.Keys
  {
    map w | w in readable && LeftOf(refuses, readable[w], Get(pods, w), calls[w]).memory.Some?
      :: LeftOf(refuses, readable[w], Get(pods, w), calls[w]).memory.value
  }

  lemma HalfwayDone(refuses: bool, s: State, t: State, readable: map<string, Record>, calls: map<string, Calls>)
    requires Halfway(refuses, s, t, readable, map[], calls)
    ensures t.active == KeptBy(refuses, readable, s.pods, calls)
  {
    hide LeftOf;
    forall w ensures w in t.active <==> w in KeptBy(refuses, readable, s.pods, calls)
      ensures w in t.active ==> t.active[w] == KeptBy(refuses, readable, s.pods, calls)[w]
    {
      assert CopiesOf(t, w).memory == Get(t.active, w);
    }
  }

  predicate Succeeds(calls: Calls) {
    calls.prepared && calls.ran && calls.written
  }

  lemma CleanCopies(w: string, v: Slice, calls: Calls)
    requires SliceInv(Stopped, w, v) && v.disk.Some? && Succeeds(calls)
    ensures var left := LeftOf(true, v.disk.value, v.pod, calls);
            if Kept(v.disk.value) then
              && left.disk == left.memory == Some(Settled(v.disk.value))
              && (!NeedsCleanup(Settled(v.disk.value)) ==> left.pod == Some(Settled(v.disk.value).grant.revision))
            else left == Copies(None, None, None)
  {
  }

  lemma StoppedPod(c: Config, s: State, w: string)
    requires Inv(c, s) && w !in s.store
    ensures w !in s.pods
  {
    InstantiateSlice(s, w);
  }

  /** When everything can be read and every call succeeds, the settled store is in memory and running. */
  lemma SucceedsRecovers(c: Config, s: State, t: State, calls: map<string, Calls>)
    requires Inv(c, s) && s.mode.Down? && Halfway(true, s, t, s.store, map[], calls)
    requires forall w | w in s.store :: Succeeds(calls[w])
    ensures Recovered(t, s.store)
  {
    hide LeftOf, Kept, Settled, Inv;
    forall w
      ensures Get(t.store, w) == Get(t.active, w) == Get(Settle(s.store), w)
      ensures w in t.pods ==> w in t.store
      ensures w in t.store && !NeedsCleanup(t.store[w]) ==> w in t.pods && t.pods[w] == t.store[w].grant.revision
    {
      if w in s.store {
        StoppedSlice(c, s, w);
        CleanCopies(w, View(s, w), calls[w]);
        assert CopiesOf(t, w) == LeftOf(true, s.store[w], Get(s.pods, w), calls[w]);
        PodsHaveRecords(true, s.store[w], Get(s.pods, w), calls[w]);
      } else {
        StoppedPod(c, s, w);
        assert CopiesOf(t, w) == Copies(None, None, None);
      }
    }
    SameEntries(t.store, Settle(s.store));
    SameEntries(t.active, t.store);
  }

  lemma AllSucceedRecovers(c: Config, s: State, t: State, unreadable: set<string>, calls: map<string, Calls>)
    requires s.mode.Down? && Halfway(c.refusesUncertain, s, t, s.store - unreadable, map[], calls)
    requires s.store.Keys <= calls.Keys
    ensures unreadable == {} && (forall w | w in s.store :: Succeeds(calls[w])) ==>
              c.refusesUncertain && Inv(c, s) ==> Recovered(t, s.store)
  {
    hide Halfway, Inv, Recovered;
    if unreadable == {} && c.refusesUncertain && Inv(c, s) && forall w | w in s.store :: Succeeds(calls[w]) {
      assert s.store - unreadable == s.store;
      SucceedsRecovers(c, s, t, calls);
    }
  }

  lemma PodsHaveRecords(refuses: bool, r: Record, pod: Option<string>, calls: Calls)
    ensures LeftOf(refuses, r, pod, calls).pod.Some? ==> LeftOf(refuses, r, pod, calls).disk.Some?
  {
  }

  lemma StoppedSlice(c: Config, s: State, w: string)
    requires Inv(c, s) && s.mode.Down?
    ensures SliceInv(Stopped, w, View(s, w))
  {
    hide SliceInv;
    InstantiateSlice(s, w);
  }

  lemma SameEntries<V>(a: map<string, V>, b: map<string, V>)
    requires forall w :: Get(a, w) == Get(b, w)
    ensures a == b
  {
    forall w ensures w in a <==> w in b
      ensures w in a ==> a[w] == b[w]
    {
      assert Get(a, w) == Get(b, w);
    }
  }

  lemma SameRecovered(s: State, t: State, original: map<string, Record>)
    requires s.store == t.store && s.active == t.active && s.pods == t.pods
    ensures Recovered(s, original) ==> Recovered(t, original)
  {
  }

  lemma SetThenGet<V>(m: map<string, V>, w: string, v: Option<V>, x: string)
    ensures Get(Set(m, w, v), x) == if x == w then v else Get(m, x)
  {
  }

  lemma CopiesPut(s: State, t: State, w: string, copies: Copies)
    requires t.store == Set(s.store, w, copies.disk) && t.active == Set(s.active, w, copies.memory)
    requires t.pods == Set(s.pods, w, copies.pod)
    ensures CopiesOf(t, w) == copies
    ensures forall x | x != w :: CopiesOf(t, x) == CopiesOf(s, x)
  {
    hide Set, Get;
    forall x ensures CopiesOf(t, x) == if x == w then copies else CopiesOf(s, x) {
      SetThenGet(s.store, w, copies.disk, x);
      SetThenGet(s.active, w, copies.memory, x);
      SetThenGet(s.pods, w, copies.pod, x);
    }
  }

  /** A start that has worked through what it could read: what it leaves in the store and the runtime. */
  lemma HalfwayLeaves(refuses: bool, s: State, t: State, unreadable: set<string>, calls: map<string, Calls>)
    requires Halfway(refuses, s, t, s.store - unreadable, map[], calls)
    ensures forall w ::
              if w in s.store && w !in unreadable
              then var left := LeftOf(refuses, s.store[w], Get(s.pods, w), calls[w]);
                   Get(t.store, w) == left.disk && Get(t.pods, w) == left.pod
              else Get(t.store, w) == Get(s.store, w) && Get(t.pods, w) == Get(s.pods, w)
  {
    hide LeftOf, Get;
    var readable := s.store - unreadable;
    forall w ensures Get(t.store, w) == CopiesOf(t, w).disk && Get(t.pods, w) == CopiesOf(t, w).pod {
    }
    assert forall w :: w in readable <==> w in s.store && w !in unreadable;
  }
}
