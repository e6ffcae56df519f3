/** The agent's in-memory state as the object the source has, with its locked sections as methods.

    Each method is proved to take exactly one step of the lifecycle state machine (`restore_inner`: one
    step after another), so everything proved about runs holds of the object.
 */
module AgentService {
  import opened Options
  import opened Quantities
  import opened Records
  import opened Accounting
  import opened AccountingLaws
  import opened Lifecycle
  import opened LifecycleInvariant
  import opened Recovery
  import opened Reconciliation

  /** A loop that adds up the sizes of all records, saturating. */
  method ActiveUsage(active: ActiveMap) returns (usage: Usage)
    ensures usage == Clamp(Sum(active, RecordSize))
  {
    usage := Usage(0, 0, 0);
    var left := active.Keys;
    ghost var done: ActiveMap := map[];
    while left != {}
      invariant left <= active.Keys && done == map w | w in active && w !in left :: active[w]
      invariant usage == Clamp(Sum(done, RecordSize))
      decreases left
    {
      var w :| w in left;
      ClampPlus(Sum(done, RecordSize), active[w].size);
      SumInsert(done, RecordSize, w, active[w]);
      usage, left := usage.Plus(active[w].size), left - {w};
      done := done[w := active[w]];
    }
    assert done == active;
  }

  method ReservedTotal(reservations: ReservationMap) returns (usage: Usage)
    ensures usage == ReservedUsage(reservations)
  {
    usage := Usage(0, 0, 0);
    var left := reservations.Keys;
    ghost var done: ReservationMap := map[];
    while left != {}
      invariant left <= reservations.Keys && done == map id | id in reservations && id !in left :: reservations[id]
      invariant usage == Clamp(Sum(done, ReservationSize))
      decreases left
    {
      var id :| id in left;
      ClampPlus(Sum(done, ReservationSize), reservations[id].size);
      SumInsert(done, ReservationSize, id, reservations[id]);
      usage, left := usage.Plus(reservations[id].size), left - {id};
      done := done[id := reservations[id]];
    }
    assert done == reservations;
  }

  /** The usage of everything but one workload, started from the reserved total. */
  method TotalWithout(active: ActiveMap, reservations: ReservationMap, workload: string) returns (usage: Usage)
    ensures usage == UsageWithout(active, reservations, workload)
  {
    hide Sum;
    usage := ReservedTotal(reservations);
    ghost var reserved := Sum(reservations, ReservationSize);
    var left := active.Keys;
    ghost var done: ActiveMap := map[];
    NoneActive();
    while left != {}
      invariant left <= active.Keys
      invariant done == map w | w in active && w !in left && w != workload :: active[w]
      invariant usage == Clamp(Sum(done, RecordSize).Plus(reserved))
      decreases left
    {
      var w :| w in left;
      if w != workload {
        ClampPlus(Sum(done, RecordSize).Plus(reserved), active[w].size);
        SumInsert(done, RecordSize, w, active[w]);
        usage := usage.Plus(active[w].size);
        done := done[w := active[w]];
      }
      left := left - {w};
    }
    assert done == active - {workload};
  }

  class Agent {
    const config: Config
    var mode: Mode
    var active: ActiveMap
    var reservations: ReservationMap
    var quarantined: set<string>
    var mutations: map<string, Task>
    /** The durable table and the runtime the agent drives. */
    var store: map<string, Record>
    var pods: map<string, string>
    ghost var late: map<string, string>
    ghost var submitted: set<UpdateRequest>

    ghost function Contents(): State
      reads this
    {
      State(mode, store, pods, late, active, quarantined, reservations, mutations, submitted)
    }

    constructor (config: Config)
      ensures this.config == config && Contents() == INITIAL
    {
      this.config := config;
      mode, active, reservations, quarantined, mutations := Down, map[], map[], {}, map[];
      store, pods, late, submitted := map[], map[], map[], {};
    }

    method TotalUsage() returns (usage: Usage)
      ensures usage == CombinedUsage(active, reservations)
    {
      var running := ActiveUsage(active);
      var reserved := ReservedTotal(reservations);
      usage := running.Plus(Narrow(reserved));
    }

    /** The locked section of `capacity_offer`; `Some` is the room an offer advertises. */
    method CapacityOffer(size: Size, now: nat) returns (room: Option<Usage>)
      requires mode.Up?
      modifies this
      ensures NextStep(config, old(Contents()), Contents(), Sweep(now))
      ensures room.Some? <==> CanOffer(config, active, reservations, quarantined, size)
      ensures room.Some? ==> room.value == Available(config, active, reservations)
    {
      reservations := Live(reservations, now);
      var usage := TotalUsage();
      var free := Usage(SaturatingSub(config.capacity.cpu, usage.cpu),
                        SaturatingSub(config.capacity.memory, usage.memory),
                        SaturatingSub(config.capacity.storage, usage.storage));
      if quarantined == {} && |active| + |reservations| < config.maxWorkloads && Limit(size).FitsWithin(free) {
        room := Some(free);
      } else {
        room := None;
      }
    }

    /** The locked section of `admit`; `None` is acceptance. */
    method Admit(request: AdmissionRequest, now: nat, id: string) returns (refusal: Option<Refusal>)
      requires mode.Up? && id !in reservations
      modifies this
      ensures NextStep(config, old(Contents()), Contents(), Lifecycle.Step.Admit(request, now, id))
      ensures refusal == Verdict(config, active, Live(old(reservations), now), quarantined, request)
    {
      reservations := Live(reservations, now);
      var usage := TotalUsage();
      var reserved := ReservedTotal(reservations);
      if quarantined != {} {
        refusal := Some(StateRequiresRepair);
      } else if Holds(active, reservations, quarantined, request.workload) {
        refusal := Some(AlreadyActive);
      } else if |active| + |reservations| + |quarantined| >= config.maxWorkloads {
        refusal := Some(WorkloadLimit);
      } else if |reservations| >= MAX_RESERVATIONS
             || ReservationsFor(reservations, request.namespace) >= MAX_RESERVATIONS_PER_NAMESPACE {
        refusal := Some(ReservationLimit);
      } else if !usage.Plus(request.size).FitsWithin(Limit(config.capacity)) {
        refusal := Some(InsufficientCapacity);
      } else if !reserved.Plus(request.size).FitsWithin(ReservedCeiling(config)) {
        refusal := Some(PendingCapacityLimit);
      } else {
        refusal := None;
        reservations := reservations[id := Reservation(request.namespace, request.workload, request.size,
                                                       now + RESERVATION_TTL_SECS)];
      }
    }

    /** `mutation_with_owner`: take a workload's guard, or fail without changing anything. */
    method Guard(w: string, task: Task) returns (taken: bool)
      requires mode.Up?
      requires task.Enrolling? || task.DeleteGuarded? || (task.DeployGuarded? && task.grant.workload == w)
               || (task.UpdateGuarded? && task.request.workload == w && Bound(task.request))
      modifies this
      ensures taken <==> |old(mutations)| < MAX_CONFIGURED_WORKLOADS && w !in old(mutations)
      ensures if taken then NextStep(config, old(Contents()), Contents(), Acquire(w, task))
              else Contents() == old(Contents())
    {
      taken := |mutations| < MAX_CONFIGURED_WORKLOADS && w !in mutations;
      if taken {
        mutations := mutations[w := task];
        submitted := if task.UpdateGuarded? then submitted + {task.request} else submitted;
      }
    }

    /** The locked section of `deploy_inner`, ending with the record saved and charged or with an error.
        `saved` says whether the store accepts the write. */
    method StartDeploy(w: string, now: nat, measured: Option<Size>, saved: bool) returns (started: bool)
      requires mode.Up? && w in mutations && mutations[w].DeployGuarded? && mutations[w].grant.workload == w
      modifies this
      ensures NextStep(config, old(Contents()), Contents(), DeployStart(w, now, measured, saved))
      ensures started <==> w in mutations
    {
      var grant := mutations[w].grant;
      started := false;
      mutations := mutations - {w};
      if grant.reservation in reservations {
        var reservation := reservations[grant.reservation];
        reservations := reservations - {grant.reservation};
        if reservation.expiresAt >= now && reservation.namespace == grant.namespace
           && reservation.workload == grant.workload && grant.workload !in active
           && measured.Some? && measured.value.Within(reservation.size) && TargetId(grant.workload) != "" && saved {
          var stored := Planned(grant, reservation.size);
          store, active := store[w := stored], active[w := stored];
          mutations := mutations[w := DeployRunning(stored)];
          started := true;
        }
      }
    }

    /** The checks `update_inner` makes before it writes anything. */
    method Judge(request: UpdateRequest) returns (verdict: UpdateVerdict)
      ensures verdict == JudgeUpdate(config, Contents(), request)
    {
      hide UsageWithout;
      if request.workload !in active || active[request.workload].grant.namespace != request.namespace {
        return NotFound;
      }
      var current := active[request.workload];
      if current.deleting || !current.phase.Active? || current.runtimeId == "" {
        return NotActive;
      }
      if current.grant.revision == request.requested && !request.refresh {
        return Unchanged;
      }
      if request.grant.execution != current.execution {
        return IdentityMismatch;
      }
      if current.grant.revision != request.expected {
        return Conflict;
      }
      var others := TotalWithout(active, reservations, request.workload);
      verdict := if others.Plus(request.size).FitsWithin(Limit(config.capacity)) then Accepted else OverCapacity;
    }

    /** The locked section of `update_inner`. */
    method StartUpdate(w: string, saved: bool) returns (verdict: UpdateVerdict)
      requires mode.Up? && w in mutations && mutations[w].UpdateGuarded? && mutations[w].request.workload == w
      modifies this
      ensures verdict == old(JudgeUpdate(config, Contents(), mutations[w].request))
      ensures NextStep(config, old(Contents()), Contents(), UpdateStart(w, saved))
    {
      hide UsageWithout, Limit, Usage.Plus, Usage.FitsWithin, Transitioning;
      var request := mutations[w].request;
      verdict := Judge(request);
      if verdict.Accepted? && saved {
        var current := active[w];
        var next := Transitioning(current, request);
        store, active := store[w := next], active[w := next];
        mutations := mutations[w := UpdateRunning(current, request)];
      } else {
        mutations := mutations - {w};
      }
    }

    /** One turn of the loop in `restore_inner`. */
    method RestoreNext(w: string, calls: Calls, ghost origin: State, ghost trail: Trail) returns (ghost longer: Trail)
      requires mode.Restoring? && mutations == map[] && w in mode.queued && w !in active
      requires mode.queued[w].grant.workload == w && Get(store, w) == Some(mode.queued[w])
      requires Follow(config, origin, trail) && AllRecovery(trail) && Contents() == End(origin, trail)
      modifies `store, `pods, `active, `mode
      ensures Follow(config, origin, longer) && AllRecovery(longer) && Contents() == End(origin, longer)
      ensures mode == Restoring(old(mode).queued - {w})
      ensures CopiesOf(Contents(), w) == old(LeftOf(config.refusesUncertain, mode.queued[w], Get(pods, w), calls))
      ensures forall x | x != w :: CopiesOf(Contents(), x) == old(CopiesOf(Contents(), x))
    {
      hide NextStep, Put, Set, AfterCalls, Follow, AllRecovery;
      ghost var before := Contents();
      ghost var v := View(before, w);
      longer := ReconcileFollows(config, origin, trail, w, calls);
      var kept, disk, pod := RestoreOne(config.refusesUncertain, mode.queued[w], Get(store, w), Get(pods, w), calls, v);
      store, pods, active := Set(store, w, disk), Set(pods, w, pod), Set(active, w, kept);
      mode := Restoring(mode.queued - {w});
      RestoreIs(before, w, AfterCalls(config.refusesUncertain, v, calls), mode.queued);
      CopiesPut(before, Contents(), w, Copies(disk, kept, pod));
    }

    /** `restore_inner`, on a process that has just started: the loop over the loaded records, then the
        capacity check.  Each record that can be read is left as its own calls leave it, and nothing else changes;
        the agent serves exactly when there are not too many records and those kept fit.  The start takes only
        recovery steps of the machine, so it never changes what the store settles to (`Recovery.RecoverySettles`). */
    method Restore(unreadable: set<string>, calls: map<string, Calls>) returns (ok: bool, ghost trail: Trail)
      requires mode.Down? && active == map[] && quarantined == {} && reservations == map[] && mutations == map[]
      requires unreadable <= store.Keys <= calls.Keys
      requires forall w | w in store :: store[w].grant.workload == w
      modifies this
      ensures Follow(config, old(Contents()), trail) && AllRecovery(trail)
      ensures Contents() == End(old(Contents()), trail)
      ensures var readable := old(store) - unreadable;
              var kept := KeptBy(config.refusesUncertain, readable, old(pods), calls);
              && (ok <==> |old(store)| <= config.maxWorkloads
                          && CombinedUsage(kept, map[]).FitsWithin(Limit(config.capacity)))
              && (if ok then mode.Up? && active == kept && quarantined == unreadable
                  else mode.Down? && active == map[] && quarantined == {})
      ensures if |old(store)| > config.maxWorkloads then store == old(store) && pods == old(pods)
              else forall w ::
                     if w in old(store) && w !in unreadable
                     then var left := LeftOf(config.refusesUncertain, old(store)[w], Get(old(pods), w), calls[w]);
                          Get(store, w) == left.disk && Get(pods, w) == left.pod
                     else Get(store, w) == Get(old(store), w) && Get(pods, w) == Get(old(pods), w)
      ensures ok && unreadable == {} && (forall w | w in old(store) :: Succeeds(calls[w])) ==>
                config.refusesUncertain && Inv(config, old(Contents())) ==> Recovered(Contents(), old(store))
    {
      hide NextStep, Put, CombinedUsage, Usage.FitsWithin, Limit, LeftOf, Inv, Recovered, KeptBy, Halfway;
      ghost var origin := Contents();
      trail := Here;
      if |store| > config.maxWorkloads {
        return false, trail;
      }
      trail := RestoreAll(unreadable, calls);
      ghost var restored := Contents();
      HalfwayDone(config.refusesUncertain, origin, restored, origin.store - unreadable, calls);
      HalfwayLeaves(config.refusesUncertain, origin, restored, unreadable, calls);
      AllSucceedRecovers(config, origin, restored, unreadable, calls);
      hide Follow, AllRecovery;
      ok, trail := FinishRestore(origin, trail);
      if ok {
        SameRecovered(restored, Contents(), origin.store);
      }
    }

    /** Starting and the loop over the loaded records. */
    method RestoreAll(unreadable: set<string>, calls: map<string, Calls>) returns (ghost trail: Trail)
      requires mode.Down? && active == map[] && quarantined == {} && reservations == map[] && mutations == map[]
      requires unreadable <= store.Keys <= calls.Keys && |store| <= config.maxWorkloads
      requires forall w | w in store :: store[w].grant.workload == w
      modifies `mode, `quarantined, `store, `pods, `active
      ensures Follow(config, old(Contents()), trail) && AllRecovery(trail)
      ensures Contents() == End(old(Contents()), trail)
      ensures mode == Restoring(map[]) && mutations == map[] && reservations == map[] && quarantined == unreadable
      ensures Halfway(config.refusesUncertain, old(Contents()), Contents(), old(store) - unreadable, map[], calls)
    {
      hide NextStep, Put, LeftOf, Halfway, Get, CopiesOf, Follow, AllRecovery;
      ghost var origin := Contents();
      var todo := store - unreadable;
      ghost var readable := todo;
      mode, quarantined := Restoring(todo), unreadable;
      trail := BootTrail(config, origin, unreadable);
      HalfwayStart(config.refusesUncertain, origin, Contents(), unreadable, calls);
      while todo != map[]
        invariant mode == Restoring(todo) && mutations == map[] && reservations == map[]
        invariant Follow(config, origin, trail) && AllRecovery(trail) && Contents() == End(origin, trail)
        invariant forall w | w in todo :: todo[w].grant.workload == w
        invariant quarantined == unreadable
        invariant Halfway(config.refusesUncertain, origin, Contents(), readable, todo, calls)
        decreases todo.Keys
      {
        var w :| w in todo;
        ghost var before := Contents();
        HalfwayTodo(config.refusesUncertain, origin, before, readable, todo, calls, w);
        trail := RestoreNext(w, calls[w], origin, trail);
        HalfwayStep(config.refusesUncertain, origin, before, Contents(), readable, todo, calls, w);
        todo := todo - {w};
      }
    }

    /** The capacity check that ends `restore_inner`. */
    method FinishRestore(ghost origin: State, ghost trail: Trail) returns (ok: bool, ghost longer: Trail)
      requires mode == Restoring(map[]) && mutations == map[] && reservations == map[]
      requires Follow(config, origin, trail) && AllRecovery(trail) && Contents() == End(origin, trail)
      modifies this
      ensures Follow(config, origin, longer) && AllRecovery(longer) && Contents() == End(origin, longer)
      ensures store == old(store) && pods == old(pods)
      ensures if ok then mode.Up? && active == old(active) && quarantined == old(quarantined)
              else mode.Down? && active == map[] && quarantined == {}
      ensures ok <==> CombinedUsage(old(active), map[]).FitsWithin(Limit(config.capacity))
    {
      hide NextStep, Follow, AllRecovery, CombinedUsage;
      var usage := TotalUsage();
      ok := usage.FitsWithin(Limit(config.capacity));
      ghost var before := Contents();
      RestoreEnds(config, before);
      if ok {
        mode := Up;
        Extend(config, origin, trail, RestoreDone, Contents());
        longer := Onward(trail, RestoreDone, Contents());
      } else {
        mode, active, quarantined, late := Down, map[], {}, Crashed(before).late;
        Extend(config, origin, trail, RestoreRefused, Contents());
        longer := Onward(trail, RestoreRefused, Contents());
      }
    }
  }
}
