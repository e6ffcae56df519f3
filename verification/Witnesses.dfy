/** Concrete runs that show each exception in the lifecycle theorems is needed. */
module Witnesses {
  import opened Options
  import opened Quantities
  import opened Records
  import opened Accounting
  import opened AccountingLaws
  import opened Lifecycle
  import opened LifecycleInvariant
  import opened LifecycleRuns

  const AGENT := Config(Size(10, 10, 10), 4, 100, true)

  function Cube(n: U32): Size {
    Size(n, n, n)
  }

  const SPEC := Execution("demo", 0, 1)

  function GrantFor(w: string, revision: string): Grant {
    Grant(w, "owner", revision, w, SPEC)
  }

  function Running(w: string, size: Size): Record {
    Planned(GrantFor(w, "v1"), size).(phase := Active)
  }

  /** An update of a workload from revision `v1` to `v2`. */
  function Resize(w: string, size: Size): UpdateRequest {
    UpdateRequest("request", "owner", w, "v1", "v2", false, GrantFor(w, "v2"), size)
  }

  lemma OneTotal<V>(w: string, v: V, f: V -> Size)
    ensures Sum(map[w := v], f) == f(v).Exact()
  {
    SumInsert(map[], f, w, v);
    assert map[][w := v] == map[w := v];
  }

  lemma TwoTotal<V>(w: string, v: V, x: string, u: V, f: V -> Size)
    requires w != x
    ensures Sum(map[w := v, x := u], f) == f(v).Exact().Plus(f(u).Exact())
  {
    OneTotal(w, v, f);
    SumInsert(map[w := v], f, x, u);
    assert map[w := v][x := u] == map[w := v, x := u];
  }

  /** An idle agent that has started with an empty store. */
  lemma StartedRun(c: Config) returns (run: Run)
    ensures Valid(c, run) && Last(run) == INITIAL.(mode := Up)
  {
    var booted := INITIAL.(mode := Restoring(map[]));
    assert INITIAL.store - {} == map[];
    assert NextStep(c, INITIAL, booted, Boot({}));
    NoneActive();
    NoneReserved();
    assert RestoredFits(c, booted);
    run := After(After(Begin, Boot({}), booted), RestoreDone, booted.(mode := Up));
  }

  function Ticket(w: string, size: Size): Reservation {
    Reservation("owner", w, size, RESERVATION_TTL_SECS)
  }

  lemma Reserve(c: Config, run: Run, w: string, size: Size) returns (next: Run)
    requires Valid(c, run) && Last(run).mode.Up? && w !in Last(run).reservations
    requires Verdict(c, Last(run).active, Last(run).reservations, Last(run).quarantined,
                     AdmissionRequest("owner", w, size)).None?
    ensures Valid(c, next)
    ensures Last(next) == Last(run).(reservations := Last(run).reservations[w := Ticket(w, size)])
  {
    hide Verdict;
    var s := Last(run);
    assert Live(s.reservations, 0) == s.reservations;
    next := After(run, Admit(AdmissionRequest("owner", w, size), 0, w),
                  s.(reservations := s.reservations[w := Ticket(w, size)]));
  }

  /** A deploy up to its runtime call. */
  lemma Place(c: Config, run: Run, w: string, size: Size) returns (next: Run)
    requires Valid(c, run) && Last(run).mode.Up? && Last(run).mutations == map[]
    requires w in Last(run).reservations && Last(run).reservations[w] == Ticket(w, size)
    requires w != "" && w !in Last(run).active
    ensures Valid(c, next)
    ensures var planned := Planned(GrantFor(w, "v1"), size);
            Last(next) == Last(run).(reservations := Last(run).reservations - {w},
                                     store := Last(run).store[w := planned],
                                     active := Last(run).active[w := planned],
                                     mutations := map[w := DeployRunning(planned)])
  {
    var s := Last(run);
    var planned := Planned(GrantFor(w, "v1"), size);
    var guarded := s.(mutations := map[w := DeployGuarded(GrantFor(w, "v1"))]);
    assert NextStep(c, s, guarded, Acquire(w, DeployGuarded(GrantFor(w, "v1"))));
    var started := guarded.(reservations := s.reservations - {w}, store := s.store[w := planned],
                            active := s.active[w := planned], mutations := map[w := DeployRunning(planned)]);
    assert NextStep(c, guarded, started, DeployStart(w, 0, Some(size), true));
    next := After(After(run, Acquire(w, DeployGuarded(GrantFor(w, "v1"))), guarded),
                  DeployStart(w, 0, Some(size), true), started);
  }

  /** A step of workload `w` while serving: from `origin` with slice `v` to `origin` with slice `v'`. */
  lemma TakeLocal(c: Config, origin: State, run: Run, w: string, v: Slice, v': Slice, e: Event) returns (next: Run)
    requires Valid(c, run) && Last(run) == Put(origin, w, v) && origin.mode.Up? && Allowed(Serving, e)
    requires LocalNext(c.refusesUncertain, v, v', e) && v.quarantined == (w in origin.quarantined) && v.queued.None?
    ensures Valid(c, next) && Last(next) == Put(origin, w, v')
  {
    ViewPut(origin, w, v, w);
    PutTwice(origin, w, v, v');
    hide LocalNext, Valid;
    TakeAny(c, run, w, v', e);
    next := After(run, Local(w, e), Put(Last(run), w, v'));
  }

  lemma TakeAny(c: Config, run: Run, w: string, v': Slice, e: Event)
    requires Valid(c, run) && LocalNext(c.refusesUncertain, View(Last(run), w), v', e)
    requires Allowed(KindOf(Last(run).mode), e)
    requires e.RestorePick? ==> Last(run).mutations == map[]
    ensures Valid(c, After(run, Local(w, e), Put(Last(run), w, v')))
  {
    hide LocalNext;
    ApplyLocal(c, Last(run), w, v', e);
  }

  lemma PutView(s: State, w: string)
    requires !s.mode.Restoring?
    ensures Put(s, w, View(s, w)) == s
  {
    SetGet(s.store, w);
    SetGet(s.active, w);
    SetGet(s.pods, w);
    SetGet(s.late, w);
    SetGet(s.mutations, w);
    hide Set, Get;
  }

  /** A finished task of workload `w` seen from the whole state. */
  lemma PutFinished(s: State, w: string, v: Slice, r: Record, task: Task)
    requires !s.mode.Restoring? && s.mutations == map[w := task]
    requires v == View(s, w).(disk := Some(r), memory := Some(r), pod := Some("v1"), task := None)
    ensures Put(s, w, v) == s.(store := s.store[w := r], active := s.active[w := r], pods := s.pods[w := "v1"],
                               mutations := map[])
  {
    SetGet(s.late, w);
  }

  /** The runtime call succeeds and the workload becomes active. */
  lemma Activate(c: Config, run: Run, w: string, size: Size) returns (next: Run)
    requires Valid(c, run) && Last(run).mode.Up?
    requires var planned := Planned(GrantFor(w, "v1"), size);
             && View(Last(run), w).disk == View(Last(run), w).memory == Some(planned)
             && Last(run).mutations == map[w := DeployRunning(planned)]
    ensures Valid(c, next)
    ensures Last(next) == Last(run).(store := Last(run).store[w := Running(w, size)],
                                     active := Last(run).active[w := Running(w, size)],
                                     pods := Last(run).pods[w := "v1"],
                                     mutations := map[])
  {
    var s := Last(run);
    var v := View(s, w);
    var done := Running(w, size);
    var saved, finished := ActivateSlices(c, v, w, size);
    PutView(s, w);
    PutFinished(s, w, finished, done, s.mutations[w]);
    hide Valid, LocalNext, Put;
    next := TakeLocal(c, s, run, w, v, saved, DeployReturn(Deployed, true));
    next := TakeLocal(c, s, next, w, saved, finished, Publish);
  }

  lemma ActivateSlices(c: Config, v: Slice, w: string, size: Size) returns (saved: Slice, finished: Slice)
    requires v.task == Some(DeployRunning(Planned(GrantFor(w, "v1"), size)))
    ensures LocalNext(c.refusesUncertain, v, saved, DeployReturn(Deployed, true))
    ensures LocalNext(c.refusesUncertain, saved, finished, Publish)
    ensures saved.quarantined == v.quarantined && saved.queued == v.queued
    ensures var done := Some(Running(w, size));
            finished == v.(disk := done, memory := done, pod := Some("v1"), task := None)
  {
    var done := Running(w, size);
    saved := v.(pod := Some("v1"), disk := Some(done), task := Some(DeployCommitting(done)));
    finished := saved.(memory := Some(done), task := None);
  }

  /** One active workload of the given size, and nothing else. */
  lemma OneActive(c: Config, w: string, size: Size) returns (run: Run)
    requires c.capacity == AGENT.capacity && c.maxWorkloads == 4 && c.reservedPercent == 100
    requires w != "" && size.Within(c.capacity)
    ensures Valid(c, run)
    ensures Last(run) == INITIAL.(mode := Up, store := map[w := Running(w, size)],
                                  active := map[w := Running(w, size)], pods := map[w := "v1"])
  {
    hide Valid;
    run := StartedRun(c);
    NoneActive();
    NoneReserved();
    FreeVerdict(c, map[], w, size);
    run := Reserve(c, run, w, size);
    run := Place(c, run, w, size);
    run := Activate(c, run, w, size);
  }

  lemma FullCeiling(c: Config)
    requires c.reservedPercent == 100
    ensures ReservedCeiling(c) == Limit(c.capacity)
  {
    ScaleFloor(c.capacity.cpu, 100);
    ScaleFloor(c.capacity.memory, 100);
    ScaleFloor(c.capacity.storage, 100);
  }

  /** With nothing reserved, an admission that fits is accepted. */
  lemma FreeVerdict(c: Config, active: ActiveMap, w: string, size: Size)
    requires c.capacity == AGENT.capacity && c.maxWorkloads == 4 && c.reservedPercent == 100
    requires w !in active && |active| < 4 && Sum(active, RecordSize).Plus(size.Exact()).Within(c.capacity.Exact())
    ensures Verdict(c, active, map[], {}, AdmissionRequest("owner", w, size)).None?
  {
    hide Sum, Scale, ReservedCeiling, Holds, ReservationsFor, CombinedUsage, ReservedUsage;
    NothingReserved(active, w);
    FreeFits(c, active, size);
    FreeReserves(c, size);
  }

  lemma FreeFits(c: Config, active: ActiveMap, size: Size)
    requires c.capacity == AGENT.capacity
    requires Sum(active, RecordSize).Plus(size.Exact()).Within(c.capacity.Exact())
    ensures CombinedUsage(active, map[]).Plus(size).FitsWithin(Limit(c.capacity))
  {
    hide Sum;
    NoneActive();
    NoneReserved();
  }

  lemma FreeReserves(c: Config, size: Size)
    requires c.reservedPercent == 100 && size.Within(c.capacity)
    ensures ReservedUsage(map[]).Plus(size).FitsWithin(ReservedCeiling(c))
  {
    hide Sum, Scale, ReservedCeiling;
    NoneActive();
    NoneReserved();
    FullCeiling(c);
  }

  lemma NothingReserved(active: ActiveMap, w: string)
    requires w !in active
    ensures ReservationsFor(map[], "owner") == 0
    ensures !Holds(active, map[], {}, w)
  {
    var none: ReservationMap := map[];
    assert (set id | id in none && none[id].namespace == "owner") == {};
  }

  // ---- the rollback of a shrinking update ----

  /** An accepted update of an active workload, up to its runtime call. */
  lemma StartUpdate(c: Config, run: Run, w: string, size: Size, wanted: Size) returns (next: Run)
    requires Valid(c, run) && Last(run).mode.Up? && Last(run).mutations == map[] && w != ""
    requires w in Last(run).active && Last(run).active[w] == Running(w, size)
    requires UsageWithout(Last(run).active, Last(run).reservations, w).Plus(wanted).FitsWithin(Limit(c.capacity))
    ensures Valid(c, next)
    ensures var updating := Transitioning(Running(w, size), Resize(w, wanted));
            Last(next) == Last(run).(store := Last(run).store[w := updating],
                                     active := Last(run).active[w := updating],
                                     mutations := map[w := UpdateRunning(Running(w, size), Resize(w, wanted))],
                                     submitted := Last(run).submitted + {Resize(w, wanted)})
  {
    hide UsageWithout;
    var s := Last(run);
    var request := Resize(w, wanted);
    var updating := Transitioning(Running(w, size), request);
    var guarded := s.(mutations := map[w := UpdateGuarded(request)], submitted := s.submitted + {request});
    assert NextStep(c, s, guarded, Acquire(w, UpdateGuarded(request)));
    var started := guarded.(store := s.store[w := updating], active := s.active[w := updating],
                            mutations := map[w := UpdateRunning(Running(w, size), request)]);
    assert JudgeUpdate(c, guarded, request).Accepted?;
    assert NextStep(c, guarded, started, UpdateStart(w, true));
    next := After(After(run, Acquire(w, UpdateGuarded(request)), guarded), UpdateStart(w, true), started);
  }

  /** The update fails, and the rollback succeeds and is saved and published. */
  lemma RollBack(c: Config, run: Run, w: string, size: Size, request: UpdateRequest) returns (next: Run)
    requires Valid(c, run) && Last(run).mode.Up? && w in Last(run).store && w in Last(run).active
    requires Last(run).mutations == map[w := UpdateRunning(Running(w, size), request)]
    ensures Valid(c, next)
    ensures Last(next) == Last(run).(store := Last(run).store[w := Running(w, size)],
                                     active := Last(run).active[w := Running(w, size)],
                                     pods := Last(run).pods[w := "v1"],
                                     mutations := map[])
  {
    var s := Last(run);
    var v := View(s, w);
    var rolling, saved, finished := RollBackSlices(c, v, Running(w, size), request);
    PutView(s, w);
    PutFinished(s, w, finished, Running(w, size), s.mutations[w]);
    hide Valid, LocalNext, Put;
    next := TakeLocal(c, s, run, w, v, rolling, UpdateFail(true));
    next := TakeLocal(c, s, next, w, rolling, saved, RollbackReturn(true, true));
    next := TakeLocal(c, s, next, w, saved, finished, Publish);
  }

  lemma RollBackSlices(c: Config, v: Slice, prior: Record, request: UpdateRequest)
    returns (rolling: Slice, saved: Slice, finished: Slice)
    requires v.task == Some(UpdateRunning(prior, request)) && prior.grant.revision == "v1"
    ensures LocalNext(c.refusesUncertain, v, rolling, UpdateFail(true))
    ensures LocalNext(c.refusesUncertain, rolling, saved, RollbackReturn(true, true))
    ensures LocalNext(c.refusesUncertain, saved, finished, Publish)
    ensures rolling.quarantined == saved.quarantined == v.quarantined
    ensures rolling.queued == saved.queued == v.queued
    ensures finished == v.(disk := Some(prior), memory := Some(prior), pod := Some("v1"), task := None)
  {
    rolling := v.(task := Some(RollbackRunning(prior, request)));
    saved := rolling.(pod := Some("v1"), disk := Some(prior), task := Some(RollbackCommitting(prior, request)));
    finished := saved.(memory := Some(prior), task := None);
  }

  const SHRUNK := State(Up, map["a" := Running("a", Cube(10))], map["a" := "v1"], map[],
                        map["a" := Running("a", Cube(10))], {}, map["b" := Ticket("b", Cube(9))], map[],
                        {Resize("a", Cube(1))})

  /** A workload of size 10 starts to shrink to 1, another of size 9 is admitted, and the update is rolled
      back: an agent of capacity 10 now owes 19. */
  lemma RollbackOvercommits() returns (run: Run)
    ensures Valid(AGENT, run) && Last(run) == SHRUNK
    ensures !Committed(Last(run).active, Last(run).reservations).Within(AGENT.capacity.Exact())
  {
    hide Valid, Sum, Verdict;
    run := OneActive(AGENT, "a", Cube(10));
    ShrinkFits();
    run := StartUpdate(AGENT, run, "a", Cube(10), Cube(1));
    var updating := Transitioning(Running("a", Cube(10)), Resize("a", Cube(1)));
    assert Last(run).active == map["a" := updating];
    OneTotal("a", updating, RecordSize);
    FreeVerdict(AGENT, map["a" := updating], "b", Cube(9));
    run := Reserve(AGENT, run, "b", Cube(9));
    run := RollBack(AGENT, run, "a", Cube(10), Resize("a", Cube(1)));
    OneTotal("a", Running("a", Cube(10)), RecordSize);
    OneTotal("b", Ticket("b", Cube(9)), ReservationSize);
  }

  lemma ShrinkFits()
    ensures UsageWithout(map["a" := Running("a", Cube(10))], map[], "a").Plus(Cube(1)).FitsWithin(Limit(AGENT.capacity))
  {
    assert map["a" := Running("a", Cube(10))] - {"a"} == map[];
    NoneActive();
    NoneReserved();
  }

  // ---- restarts that are refused ----

  /** `restore_one` giving up on a record it could not reconcile. */
  lemma RetainOne(c: Config, run: Run, w: string) returns (next: Run)
    requires Valid(c, run) && c.refusesUncertain && BetweenRecords(Last(run)) && w in Last(run).mode.queued
    requires var r := Last(run).mode.queued[w];
             r.phase.Creating? || (!NeedsCleanup(r) && !r.deleting)
    requires w !in Last(run).active
    ensures Valid(c, next) && BetweenRecords(Last(next))
    ensures Last(next) == Last(run).(mode := Restoring(Last(run).mode.queued - {w}),
                                     active := Last(run).active[w := Last(run).mode.queued[w]])
  {
    var s := Last(run);
    var v := View(s, w);
    var kept := v.(queued := None, memory := v.queued);
    KeepSlice(v, kept);
    KeepPut(s, w, kept);
    hide LocalNext, Valid;
    TakeAny(c, run, w, kept, RestorePick(GiveUp));
    next := After(run, Local(w, RestorePick(GiveUp)), Put(s, w, kept));
  }

  lemma KeepSlice(v: Slice, kept: Slice)
    requires v.queued.Some? && kept == v.(queued := None, memory := v.queued)
    requires var r := v.queued.value;
             r.phase.Creating? || (!NeedsCleanup(r) && !r.deleting)
    ensures LocalNext(true, v, kept, RestorePick(GiveUp))
  {
  }

  lemma KeepPut(s: State, w: string, kept: Slice)
    requires BetweenRecords(s) && w in s.mode.queued
    requires kept == View(s, w).(queued := None, memory := View(s, w).queued)
    ensures Put(s, w, kept) == s.(mode := Restoring(s.mode.queued - {w}), active := s.active[w := s.mode.queued[w]])
  {
    SetGet(s.store, w);
    SetGet(s.pods, w);
    SetGet(s.late, w);
    SetGet(s.mutations, w);
  }

  /** A crash, and the start of the next process. */
  lemma Reboot(c: Config, run: Run, unreadable: set<string>) returns (next: Run)
    requires Valid(c, run) && Last(run).mode.Up?
    requires |Last(run).store| <= c.maxWorkloads && unreadable <= Last(run).store.Keys
    ensures Valid(c, next)
    ensures Last(next) == Crashed(Last(run)).(mode := Restoring(Last(run).store - unreadable), quarantined := unreadable)
  {
    hide Abandoned;
    var down := Crashed(Last(run));
    next := After(After(run, Crash, down), Boot(unreadable),
                  down.(mode := Restoring(down.store - unreadable), quarantined := unreadable));
  }

  /** Two stored records that together exceed capacity stop the agent from starting. */
  lemma RefusedRestart(run: Run, a: Record, b: Record) returns (next: Run)
    requires Valid(AGENT, run) && Last(run).mode.Up? && Last(run).store == map["a" := a, "b" := b]
    requires b.phase.Creating? && !NeedsCleanup(a) && !a.deleting
    requires !a.size.Exact().Plus(b.size.Exact()).Within(AGENT.capacity.Exact())
    ensures Valid(AGENT, next) && RestoreFinished(Last(next)) && !RestoredFits(AGENT, Last(next))
  {
    hide Valid, Sum, Crashed, NeedsCleanup;
    var store := Last(run).store;
    assert store.Keys == {"a", "b"};
    next := Reboot(AGENT, run, {});
    assert store - {} == store;
    CrashedIdle(Last(run));
    next := RetainOne(AGENT, next, "a");
    next := RetainOne(AGENT, next, "b");
    assert store - {} - {"a"} - {"b"} == map[];
    assert Last(next).active == map["a" := a, "b" := b];
    TwoTotal("a", a, "b", b, RecordSize);
    Overfull(Last(next));
  }

  lemma CrashedIdle(s: State)
    ensures Crashed(s).active == map[] && Crashed(s).mutations == map[] && Crashed(s).store == s.store
  {
    hide Abandoned;
  }

  lemma Overfull(s: State)
    requires !Sum(s.active, RecordSize).Within(AGENT.capacity.Exact())
    ensures !RestoredFits(AGENT, s)
  {
    hide Sum;
    NoneActive();
    NoneReserved();
  }

  /** The overcommitted agent of `RollbackOvercommits` deploys the second workload, crashes, and cannot
      start again. */
  lemma RollbackBlocksRestart() returns (run: Run)
    ensures Valid(AGENT, run) && RestoreFinished(Last(run)) && !RestoredFits(AGENT, Last(run))
  {
    hide Valid, Sum;
    run := RollbackOvercommits();
    run := Place(AGENT, run, "b", Cube(9));
    run := RefusedRestart(run, Running("a", Cube(10)), Planned(GrantFor("b", "v1"), Cube(9)));
  }

  /** A record is unreadable at one start and readable at the next; between them another workload is
      allowed to grow into its room.  No rollback is involved. */
  lemma UncountedGrowthBlocksRestart() returns (run: Run)
    ensures Valid(AGENT, run) && RestoreFinished(Last(run)) && !RestoredFits(AGENT, Last(run))
  {
    hide Valid, Sum, Verdict, Crashed, UsageWithout, RestoredFits;
    var a, b := Running("a", Cube(5)), Planned(GrantFor("b", "v1"), Cube(5));
    run := OneActive(AGENT, "a", Cube(5));
    OneTotal("a", a, RecordSize);
    FreeVerdict(AGENT, map["a" := a], "b", Cube(5));
    run := Reserve(AGENT, run, "b", Cube(5));
    run := Place(AGENT, run, "b", Cube(5));
    assert Last(run).store == map["a" := a, "b" := b];
    assert Last(run).store.Keys == {"a", "b"};
    run := QuarantineB(run, a, b);
    GrowthFits(a);
    run := StartUpdate(AGENT, run, "a", Cube(5), Cube(10));
    run := RefusedRestart(run, Transitioning(a, Resize("a", Cube(10))), b);
  }

  lemma QuarantineB(run: Run, a: Record, b: Record) returns (next: Run)
    requires Valid(AGENT, run) && Last(run).mode.Up? && Last(run).store == map["a" := a, "b" := b]
    requires a == Running("a", Cube(5))
    ensures Valid(AGENT, next) && Last(next).mode.Up? && Last(next).mutations == map[]
    ensures Last(next).store == map["a" := a, "b" := b] && Last(next).active == map["a" := a]
    ensures Last(next).reservations == map[]
  {
    hide Valid, Sum, Crashed;
    var store := Last(run).store;
    assert store.Keys == {"a", "b"};
    next := Reboot(AGENT, run, {"b"});
    CrashedIdle(Last(run));
    CrashedUnreserved(Last(run));
    next := RetainOne(AGENT, next, "a");
    assert store - {"b"} - {"a"} == map[];
    var s := Last(next);
    assert s.active == map["a" := a];
    OneTotal("a", a, RecordSize);
    NoneActive();
    NoneReserved();
    assert RestoredFits(AGENT, s);
    next := Serve(next);
  }

  lemma CrashedUnreserved(s: State)
    ensures Crashed(s).reservations == map[]
  {
    hide Abandoned;
  }

  lemma Serve(run: Run) returns (next: Run)
    requires Valid(AGENT, run) && RestoreFinished(Last(run)) && RestoredFits(AGENT, Last(run))
    ensures Valid(AGENT, next) && Last(next) == Last(run).(mode := Up)
  {
    hide RestoredFits;
    next := After(run, RestoreDone, Last(run).(mode := Up));
  }

  lemma GrowthFits(a: Record)
    ensures UsageWithout(map["a" := a], map[], "a").Plus(Cube(10)).FitsWithin(Limit(AGENT.capacity))
  {
    assert map["a" := a] - {"a"} == map[];
    NoneActive();
    NoneReserved();
  }

  // ---- a deletion cancelled after the record is gone ----

  /** Taking the guard of a workload nobody is working on. */
  lemma TakeGuard(c: Config, origin: State, run: Run, w: string, v: Slice, namespace: string) returns (next: Run)
    requires Valid(c, run) && Last(run) == Put(origin, w, v) && origin.mode.Up? && v.task.None?
    requires origin.mutations == map[]
    ensures Valid(c, next) && Last(next) == Put(origin, w, v.(task := Some(DeleteGuarded(namespace))))
  {
    var s := Last(run);
    var task := DeleteGuarded(namespace);
    var guarded := Put(origin, w, v.(task := Some(task)));
    assert s.mutations == map[] && guarded.mutations == map[w := task];
    assert guarded == s.(mutations := s.mutations[w := task]);
    next := After(run, Acquire(w, task), guarded);
  }

  /** A deletion up to the removal of the record, and its cancellation there. */
  lemma CancelledDelete(v: Slice, r: Record) returns (read: Slice, mark: Slice, saved: Slice, gone: Slice, cut: Slice)
    requires v.disk == v.memory == Some(r) && r.phase.Active? && r.runtimeId != "" && v.late.None?
    requires v.task == Some(DeleteGuarded(r.grant.namespace))
    ensures LocalNext(true, v, read, DeleteRead) && LocalNext(true, read, mark, DeleteMark)
    ensures LocalNext(true, mark, saved, DeleteSave(true)) && LocalNext(true, saved, gone, DeleteReturn(true, true))
    ensures LocalNext(true, gone, cut, Cancel)
    ensures read.quarantined == mark.quarantined == saved.quarantined == gone.quarantined == v.quarantined
    ensures read.queued == mark.queued == saved.queued == gone.queued == v.queued
    ensures cut == v.(disk := None, memory := Some(r.(deleting := true)), pod := None, task := None)
  {
    var marked := r.(deleting := true);
    read := v.(task := Some(DeleteMarking(r)));
    mark := read.(memory := Some(marked), task := Some(DeleteSaving(r, marked)));
    saved := mark.(disk := Some(marked), task := Some(DeleteRunning(r)));
    gone := saved.(pod := None, disk := None, task := Some(Forgetting));
    cut := gone.(task := None);
  }

  /** The same deletion tried again, failing to save. */
  lemma FailedDelete(v: Slice, r: Record) returns (read: Slice, mark: Slice, unsaved: Slice, live: Slice)
    requires v.disk.None? && v.memory == Some(r) && r.phase.Active? && r.runtimeId != ""
    requires v.task == Some(DeleteGuarded(r.grant.namespace))
    ensures LocalNext(true, v, read, DeleteRead) && LocalNext(true, read, mark, DeleteMark)
    ensures LocalNext(true, mark, unsaved, DeleteSave(false)) && LocalNext(true, unsaved, live, Publish)
    ensures read.quarantined == mark.quarantined == unsaved.quarantined == v.quarantined
    ensures read.queued == mark.queued == unsaved.queued == v.queued
    ensures live == v.(memory := Some(r.(deleting := false)), task := None)
  {
    var marked := r.(deleting := true);
    read := v.(task := Some(DeleteMarking(r)));
    mark := read.(memory := Some(marked), task := Some(DeleteSaving(r, marked)));
    unsaved := mark.(task := Some(DeleteUnmarking));
    live := unsaved.(memory := Some(r.(deleting := false)), task := None);
  }

  /** A deletion is cancelled after it removed the record and tried again with a store that fails: the agent ends
      up charging a workload that looks active but has neither a record nor a pod. */
  lemma CancelledDeleteLeavesGhost() returns (run: Run)
    ensures Valid(AGENT, run)
    ensures Last(run).active == map["a" := Running("a", Cube(1))] && Last(run).mutations == map[]
    ensures Last(run).store == map[] && Last(run).pods == map[]
  {
    hide Valid, Sum, Verdict, LocalNext, Put;
    run := OneActive(AGENT, "a", Cube(1));
    var s := Last(run);
    var v := View(s, "a");
    var r := Running("a", Cube(1));
    PutView(s, "a");
    run := TakeGuard(AGENT, s, run, "a", v, "owner");
    var guarded := v.(task := Some(DeleteGuarded("owner")));
    var read, mark, saved, gone, cut := CancelledDelete(guarded, r);
    run := TakeLocal(AGENT, s, run, "a", guarded, read, DeleteRead);
    run := TakeLocal(AGENT, s, run, "a", read, mark, DeleteMark);
    run := TakeLocal(AGENT, s, run, "a", mark, saved, DeleteSave(true));
    run := TakeLocal(AGENT, s, run, "a", saved, gone, DeleteReturn(true, true));
    run := TakeLocal(AGENT, s, run, "a", gone, cut, Cancel);
    run := RetriedDelete(s, run, cut, r);
    GhostState(s, cut.(memory := Some(r)), r);
  }

  lemma RetriedDelete(s: State, run: Run, cut: Slice, r: Record) returns (next: Run)
    requires Valid(AGENT, run) && Last(run) == Put(s, "a", cut) && s.mode.Up? && s.mutations == map[]
    requires s.quarantined == {} && !cut.quarantined && cut.queued.None? && cut.task.None? && cut.disk.None?
    requires r == Running("a", Cube(1)) && cut.memory == Some(r.(deleting := true))
    ensures Valid(AGENT, next) && Last(next) == Put(s, "a", cut.(memory := Some(r)))
  {
    hide Valid, LocalNext, Put;
    next := TakeGuard(AGENT, s, run, "a", cut, "owner");
    var guarded := cut.(task := Some(DeleteGuarded("owner")));
    var read, mark, unsaved, live := FailedDelete(guarded, r.(deleting := true));
    next := TakeLocal(AGENT, s, next, "a", guarded, read, DeleteRead);
    next := TakeLocal(AGENT, s, next, "a", read, mark, DeleteMark);
    next := TakeLocal(AGENT, s, next, "a", mark, unsaved, DeleteSave(false));
    next := TakeLocal(AGENT, s, next, "a", unsaved, live, Publish);
    assert live == cut.(memory := Some(r));
  }

  lemma GhostState(s: State, v: Slice, r: Record)
    requires s.store.Keys == {"a"} && s.pods.Keys == {"a"} && s.active.Keys == {"a"} && s.mutations == map[]
    requires v.disk.None? && v.pod.None? && v.task.None? && v.memory == Some(r)
    ensures var t := Put(s, "a", v);
            t.store == map[] && t.pods == map[] && t.active == map["a" := r] && t.mutations == map[]
  {
  }

  // ---- a runtime that cleans up uncertain creations ----

  const NOTHING := Size(0, 0, 0)

  lemma NothingFits(c: Config, w: string)
    requires c.maxWorkloads > 0
    ensures Verdict(c, map[], map[], {}, AdmissionRequest("owner", w, NOTHING)).None?
  {
    hide Sum, Scale;
    NothingReserved(map[], w);
    NoneActive();
    NoneReserved();
  }

  /** With any configuration that admits workloads and a runtime that does not refuse to clean up an uncertain
      creation, the creation can take effect after its record is gone: a pod without a record. */
  lemma AcceptingRuntimeOrphansPod(c: Config) returns (run: Run)
    requires !c.refusesUncertain && c.maxWorkloads > 0
    ensures Valid(c, run)
    ensures "a" in Last(run).pods && "a" !in Last(run).store
  {
    hide Valid, Sum, Verdict;
    run := StartedRun(c);
    NothingFits(c, "a");
    run := Reserve(c, run, "a", NOTHING);
    run := Place(c, run, "a", NOTHING);
    var s := Last(run);
    var v := View(s, "a");
    PutView(s, "a");
    var failed, pending, gone, landed := OrphanSlices(v, Planned(GrantFor("a", "v1"), NOTHING));
    hide LocalNext;
    run := TakeLocal(c, s, run, "a", v, failed, DeployReturn(Failed(true), true));
    run := TakeLocal(c, s, run, "a", failed, pending, FailDeploy(true));
    run := TakeLocal(c, s, run, "a", pending, gone, CleanupReturn(true, true));
    run := TakeLocal(c, s, run, "a", gone, landed, LateLand);
  }

  /** No run leaves a pod without a record if and only if the runtime refuses to clean up uncertain creations. */
  lemma OrphanFreeExactly(c: Config)
    requires c.maxWorkloads > 0
    ensures c.refusesUncertain <==> forall run | Valid(c, run) :: Last(run).pods.Keys <= Last(run).store.Keys
  {
    hide Valid;
    if c.refusesUncertain {
      forall run | Valid(c, run) ensures Last(run).pods.Keys <= Last(run).store.Keys {
        StoresNested(c, run);
      }
    } else {
      var run := AcceptingRuntimeOrphansPod(c);
      assert "a" in Last(run).pods.Keys && "a" !in Last(run).store.Keys;
    }
  }

  lemma OrphanSlices(v: Slice, stored: Record) returns (failed: Slice, pending: Slice, gone: Slice, landed: Slice)
    requires v.task == Some(DeployRunning(stored))
    ensures LocalNext(false, v, failed, DeployReturn(Failed(true), true))
    ensures LocalNext(false, failed, pending, FailDeploy(true))
    ensures LocalNext(false, pending, gone, CleanupReturn(true, true))
    ensures LocalNext(false, gone, landed, LateLand)
    ensures failed.quarantined == pending.quarantined == gone.quarantined == v.quarantined
    ensures failed.queued == pending.queued == gone.queued == v.queued
    ensures landed.disk.None? && landed.pod.Some?
  {
    failed := v.(late := Some(stored.grant.revision), task := Some(DeployFailing(stored, true)));
    pending := AfterFailure(failed, false, stored, true, true);
    gone := pending.(pod := None, disk := None, task := Some(Forgetting));
    landed := gone.(pod := gone.late);
  }
}
