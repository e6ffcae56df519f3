/** Which of the lifecycle's run-wide results survive store calls that fail and land.

    Over every run with any such calls each pod still has a record that allows its revision, and ids are still held
    once.  That every record is charged or quarantined fails exactly when a deploy's first save does this.
 */
module LandingRuns {
  import opened Options
  import opened Quantities
  import opened Records
  import opened Accounting
  import opened Lifecycle
  import opened LifecycleInvariant
  import opened LifecycleRuns
  import opened Landing

  /** A step whose failed store call, if any, changed nothing, or one whose failed store call took effect. */
  datatype Move = Plain(step: Step) | Landed(step: Step)

  /** What the store call that a step reports as failed was meant to do. */
  ghost function MeantBy(c: Config, s: State, step: Step): Write {
    match step
    case DeployStart(w, now, measured, saved) =>
      if !saved && w in s.mutations && s.mutations[w].DeployGuarded?
         && DeployBinds(s, s.mutations[w].grant, now, measured)
      then Save(Planned(s.mutations[w].grant, s.reservations[s.mutations[w].grant.reservation].size)) else Nothing
    case UpdateStart(w, saved) =>
      if !saved && w in s.mutations && s.mutations[w].UpdateGuarded? && s.mutations[w].request.workload == w
         && JudgeUpdate(c, s, s.mutations[w].request).Accepted?
      then Save(Transitioning(s.active[w], s.mutations[w].request)) else Nothing
    case Local(w, e) => Meant(View(s, w), e)
    case _ => Nothing
  }

  function Target(step: Step): string {
    match step
    case DeployStart(w, _, _, _) => w
    case UpdateStart(w, _) => w
    case Local(w, _) => w
    case _ => ""
  }

  function Written(s: State, w: string, write: Write): State {
    s.(store := Set(s.store, w, Onto(write, Get(s.store, w))))
  }

  ghost predicate MoveNext(c: Config, s: State, s': State, move: Move) {
    match move
    case Plain(step) => NextStep(c, s, s', step)
    case Landed(step) =>
      && !MeantBy(c, s, step).Nothing?
      && exists mid :: NextStep(c, s, mid, step) && s' == Written(mid, Target(step), MeantBy(c, s, step))
  }

  datatype History = Begin | Then(before: History, move: Move, state: State)

  function Latest(h: History): State {
    match h
    case Begin => INITIAL
    case Then(_, _, state) => state
  }

  ghost predicate Possible(c: Config, h: History) {
    match h
    case Begin => true
    case Then(before, move, state) => Possible(c, before) && MoveNext(c, Latest(before), state, move)
  }

  // ---- the invariant ----

  ghost predicate LooseSlices(s: State) {
    forall w :: LooseInv(KindOf(s.mode), w, View(s, w))
  }

  ghost predicate Loose(s: State) {
    LooseSlices(s) && PlacementInv(s)
  }

  lemma LooseSlice(s: State, w: string)
    requires LooseSlices(s)
    ensures LooseInv(KindOf(s.mode), w, View(s, w))
  {
  }

  /** A step that changes at most one slice. */
  lemma LooseExcept(s: State, s': State, w: string)
    requires LooseSlices(s) && KindOf(s'.mode) == KindOf(s.mode)
    requires forall other | other != w :: View(s', other) == View(s, other)
    requires LooseInv(KindOf(s.mode), w, View(s', w))
    ensures LooseSlices(s')
  {
    hide LooseInv, View;
    forall other ensures LooseInv(KindOf(s'.mode), other, View(s', other)) {
      LooseSlice(s, other);
    }
  }

  lemma LooseUnchanged(s: State, s': State)
    requires LooseSlices(s) && KindOf(s'.mode) == KindOf(s.mode)
    requires forall w :: View(s', w) == View(s, w)
    ensures LooseSlices(s')
  {
    hide LooseInv, View;
    LooseSlice(s, "");
    LooseExcept(s, s', "");
  }

  // ---- steps of one workload ----

  ghost predicate LocalMove(s: State, s': State, w: string, e: Event, landed: bool) {
    exists v' :: LandNext(KindOf(s.mode), w, View(s, w), v', e, landed) && s' == Put(s, w, v')
  }

  lemma PutWrites(s: State, w: string, v: Slice, write: Write)
    requires !write.Nothing?
    ensures Written(Put(s, w, v), w, write) == Put(s, w, v.(disk := Onto(write, v.disk)))
  {
    SetTwice(s.store, w, v.disk, Onto(write, v.disk));
  }

  lemma LocalResult(c: Config, s: State, s': State, w: string, e: Event) returns (v': Slice)
    requires LocalStepNext(c, s, s', w, e)
    ensures Allowed(KindOf(s.mode), e) && LocalNext(c.refusesUncertain, View(s, w), v', e) && s' == Put(s, w, v')
  {
    hide LocalNext, Put;
    v' :| LocalNext(c.refusesUncertain, View(s, w), v', e) && s' == Put(s, w, v');
  }

  lemma PlainIsLocal(c: Config, s: State, s': State, w: string, e: Event)
    requires LooseSlices(s) && c.refusesUncertain && LocalStepNext(c, s, s', w, e)
    ensures LocalMove(s, s', w, e, false)
  {
    hide LooseInv, LocalNext, Put;
    LooseSlice(s, w);
    var v' := LocalResult(c, s, s', w, e);
    assert v' == v'.(disk := v'.disk);
    assert LandNext(KindOf(s.mode), w, View(s, w), v', e, false);
  }

  lemma LandedIsLocal(c: Config, s: State, s': State, w: string, e: Event)
    requires LooseSlices(s) && c.refusesUncertain && MoveNext(c, s, s', Landed(Local(w, e)))
    ensures LocalMove(s, s', w, e, true)
  {
    hide LooseInv, LocalNext, Put, Meant, Written, Onto;
    LooseSlice(s, w);
    var write := Meant(View(s, w), e);
    var mid :| NextStep(c, s, mid, Local(w, e)) && s' == Written(mid, w, write);
    var v' := LocalResult(c, s, mid, w, e);
    PutWrites(s, w, v', write);
    assert LandNext(KindOf(s.mode), w, View(s, w), v'.(disk := Onto(write, v'.disk)), e, true);
  }

  lemma LocalMoveSlices(s: State, s': State, w: string, e: Event, landed: bool)
    requires LooseSlices(s) && LocalMove(s, s', w, e, landed)
    ensures LooseSlices(s') && KindOf(s'.mode) == KindOf(s.mode)
    ensures LandNext(KindOf(s.mode), w, View(s, w), View(s', w), e, landed)
    ensures forall other | other != w :: View(s', other) == View(s, other)
    ensures s'.reservations == s.reservations && s'.quarantined == s.quarantined
  {
    hide LandNext, LooseInv;
    var v' :| LandNext(KindOf(s.mode), w, View(s, w), v', e, landed) && s' == Put(s, w, v');
    if s.mode.Up? {
      ServingLandFrame(w, View(s, w), v', e, landed);
    } else {
      QuietLandFrame(KindOf(s.mode), w, View(s, w), v', e, landed);
    }
    forall other ensures View(s', other) == if other == w then v' else View(s, other) {
      ViewPut(s, w, v', other);
    }
    LocalLands(KindOf(s.mode), w, View(s, w), v', e, landed);
    LooseExcept(s, s', w);
  }

  lemma LocalMovePlaces(s: State, s': State, w: string, e: Event, landed: bool)
    requires LooseSlices(s) && LocalMove(s, s', w, e, landed)
    ensures s.mode.Up? ==> s'.active.Keys <= s.active.Keys
    ensures forall x | x in s'.mutations && CreatesWorkload(s'.mutations[x]) ::
              x in s.mutations && CreatesWorkload(s.mutations[x])
  {
    hide LooseSlices, LocalMove, LandNext, CreatesWorkload;
    LocalMoveSlices(s, s', w, e, landed);
    if s.mode.Up? {
      ServingLandFrame(w, View(s, w), View(s', w), e, landed);
      assert forall x | x in s'.active && x != w :: View(s', x).memory == View(s, x).memory;
    } else {
      QuietLandFrame(KindOf(s.mode), w, View(s, w), View(s', w), e, landed);
    }
    assert forall x | x in s'.mutations && x != w :: View(s', x).task == View(s, x).task;
  }

  lemma LocalMoveKeeps(s: State, s': State, w: string, e: Event, landed: bool)
    requires Loose(s) && LocalMove(s, s', w, e, landed)
    ensures Loose(s')
  {
    hide LooseSlices, LocalMove, LandNext, CreatesWorkload, PlacementInv;
    LocalMoveSlices(s, s', w, e, landed);
    LocalMovePlaces(s, s', w, e, landed);
    PlacementShrinks(s, s');
  }

  // ---- steps of the whole agent ----

  lemma SweepLands(s: State, now: nat)
    requires Loose(s) && s.mode.Up?
    ensures Loose(s.(reservations := Live(s.reservations, now)))
  {
    hide LooseSlices, CreatesWorkload;
    LiveIsSubmap(s.reservations, now);
    LooseUnchanged(s, s.(reservations := Live(s.reservations, now)));
  }

  lemma AdmitLands(c: Config, s: State, s': State, request: AdmissionRequest, now: nat, id: string)
    requires Loose(s) && AdmitNext(c, s, s', request, now, id)
    ensures Loose(s')
  {
    hide LooseSlices, PlacementInv, ReservedUsage, CombinedUsage, Holds;
    var swept := s.(reservations := Live(s.reservations, now));
    SweepLands(s, now);
    if s' != swept {
      LooseUnchanged(swept, s');
      ReservePlaces(swept, s', id, s'.reservations[id]);
    }
  }

  lemma AcquireLands(s: State, s': State, w: string, task: Task)
    requires Loose(s) && AcquireNext(s, s', w, task)
    ensures Loose(s')
  {
    hide LooseSlices, PlacementInv;
    assert LooseInv(Serving, w, View(s', w)) by {
      LooseSlice(s, w);
      assert View(s', w) == View(s, w).(task := Some(task));
    }
    LooseExcept(s, s', w);
    PlacementShrinks(s, s');
  }

  lemma GuardLands(s: State, w: string)
    requires LooseSlices(s)
    ensures TaskNames(s, w)
  {
    LooseSlice(s, w);
    assert w in s.mutations ==> View(s, w).task == Some(s.mutations[w]);
  }

  /** A deploy that goes on finds its workload held by nothing; at most a stray record is stored. */
  lemma DeployFree(s: State, w: string, now: nat, measured: Option<Size>)
    requires Loose(s) && s.mode.Up? && w in s.mutations && s.mutations[w].DeployGuarded?
    requires DeployBinds(s, s.mutations[w].grant, now, measured)
    ensures s.mutations[w].grant.workload == w && w != "" && s.quarantined == {}
    ensures View(s, w).memory.None? && View(s, w).pod.None? && View(s, w).late.None?
  {
    hide CreatesWorkload;
    GuardLands(s, w);
    LooseSlice(s, w);
  }

  lemma DeployStartLands(s: State, s': State, w: string, now: nat, measured: Option<Size>, saved: bool)
    requires Loose(s) && DeployStartNext(s, s', w, now, measured, saved)
    ensures Loose(s')
  {
    hide LooseSlices, PlacementInv;
    assert LooseInv(Serving, w, View(s', w)) by {
      LooseSlice(s, w);
      if w in s'.mutations {
        DeployFree(s, w, now, measured);
      } else {
        assert View(s', w) == Finish(View(s, w));
        FinishIsLoose(w, View(s, w));
      }
    }
    DeployStartFrame(s, s', w, now, measured, saved);
    LooseExcept(s, s', w);
    DeployPlacesLoosely(s, s', w, now, measured, saved);
  }

  lemma DeployPlacesLoosely(s: State, s': State, w: string, now: nat, measured: Option<Size>, saved: bool)
    requires Loose(s) && DeployStartNext(s, s', w, now, measured, saved)
    ensures PlacementInv(s')
  {
    hide LooseSlices;
    if w in s'.mutations {
      DeployFree(s, w, now, measured);
    }
  }

  lemma UpdateStartLands(c: Config, s: State, s': State, w: string, saved: bool)
    requires Loose(s) && UpdateStartNext(c, s, s', w, saved)
    ensures Loose(s')
  {
    hide LooseSlices, PlacementInv, UpdateStartNext;
    UpdateStartLoose(c, s, s', w, saved);
    UpdateStartFrame(c, s, s', w, saved);
    LooseExcept(s, s', w);
    PlacementShrinks(s, s');
  }

  lemma UpdateStartLoose(c: Config, s: State, s': State, w: string, saved: bool)
    requires LooseSlices(s) && UpdateStartNext(c, s, s', w, saved)
    ensures LooseInv(Serving, w, View(s', w))
  {
    hide UsageWithout, LooseSlices;
    LooseSlice(s, w);
    if w !in s'.mutations {
      assert View(s', w) == Finish(View(s, w));
      FinishIsLoose(w, View(s, w));
    }
  }

  lemma CrashedSliceLands(kind: Kind, w: string, v: Slice)
    requires LooseInv(kind, w, v)
    ensures LooseInv(Stopped, w, CrashedSlice(v))
  {
  }

  lemma CrashLands(s: State)
    requires Loose(s)
    ensures Loose(Crashed(s))
  {
    hide LooseInv, CreatesWorkload, View, CrashedSlice, Abandoned;
    var s' := Crashed(s);
    forall w ensures LooseInv(KindOf(s'.mode), w, View(s', w)) {
      LooseSlice(s, w);
      CrashedSliceLands(KindOf(s.mode), w, View(s, w));
      CrashedView(s, w);
    }
  }

  lemma BootSliceLands(w: string, v: Slice, unreadable: bool)
    requires LooseInv(Stopped, w, v) && (unreadable ==> v.disk.Some?)
    ensures LooseInv(Starting, w, v.(queued := if unreadable then None else v.disk, quarantined := unreadable))
    ensures v.task.None?
  {
  }

  lemma BootLands(c: Config, s: State, s': State, unreadable: set<string>)
    requires Loose(s) && BootNext(c, s, s', unreadable)
    ensures Loose(s')
  {
    hide LooseInv, CreatesWorkload;
    forall w ensures LooseInv(Starting, w, View(s', w)) && w !in s.mutations {
      LooseSlice(s, w);
      BootView(c, s, s', unreadable, w);
      BootSliceLands(w, View(s, w), w in unreadable);
    }
  }

  lemma FinishedLands(w: string, v: Slice)
    requires LooseInv(Starting, w, v) && v.queued.None? && v.task.None?
    ensures LooseInv(Serving, w, v) && !Stray(v)
    ensures v.memory.Some? ==> !v.quarantined
  {
  }

  lemma RestoreDoneLands(s: State)
    requires Loose(s) && RestoreFinished(s)
    ensures Loose(s.(mode := Up)) && Covered(s.(mode := Up))
  {
    hide LooseInv, CreatesWorkload;
    var s' := s.(mode := Up);
    forall w ensures LooseInv(Serving, w, View(s', w)) && !Stray(View(s', w)) {
      LooseSlice(s, w);
      FinishedLands(w, View(s, w));
      assert View(s', w) == View(s, w);
    }
    NoStrays(s');
  }

  // ---- first saves that fail and land ----

  /** While the agent serves, each stored record is charged in `active` or quarantined. */
  predicate Covered(s: State) {
    s.mode.Up? ==> s.store.Keys <= s.active.Keys + s.quarantined
  }

  lemma NoStrays(s: State)
    ensures Covered(s) <==> (s.mode.Up? ==> forall w :: !Stray(View(s, w)))
  {
    if Covered(s) && s.mode.Up? {
      forall w ensures !Stray(View(s, w)) {
      }
    }
    if s.mode.Up? && forall w :: !Stray(View(s, w)) {
      forall w | w in s.store ensures w in s.active.Keys + s.quarantined {
        assert !Stray(View(s, w));
      }
    }
  }

  lemma LocalMoveCovered(s: State, s': State, w: string, e: Event, landed: bool)
    requires LooseSlices(s) && LocalMove(s, s', w, e, landed) && Covered(s)
    ensures Covered(s')
  {
    hide LooseSlices, LocalMove, LandNext, Covered, Stray;
    LocalMoveSlices(s, s', w, e, landed);
    NoStrays(s);
    NoStrays(s');
    if s.mode.Up? {
      forall x ensures !Stray(View(s', x)) {
        if x == w && Stray(View(s', w)) {
          NoNewStray(w, View(s, w), View(s', w), e, landed);
        }
      }
    }
  }

  /** The failed save of a deploy lands. */
  lemma LandedDeploy(s: State, s': State, w: string, now: nat, measured: Option<Size>)
    requires Loose(s) && s.mode.Up? && w in s.mutations && s.mutations[w].DeployGuarded?
    requires DeployBinds(s, s.mutations[w].grant, now, measured)
    requires var grant := s.mutations[w].grant;
             s' == s.(reservations := s.reservations - {grant.reservation}, mutations := s.mutations - {w},
                      store := s.store[w := Planned(grant, s.reservations[grant.reservation].size)])
    ensures Loose(s') && !Covered(s')
  {
    hide LooseSlices, PlacementInv;
    DeployFree(s, w, now, measured);
    assert LooseInv(Serving, w, View(s', w)) by {
      LooseSlice(s, w);
      assert View(s', w) == Finish(View(s, w)).(disk := Some(s'.store[w]));
    }
    LooseExcept(s, s', w);
    assert PlacementInv(s') by {
      LessPlaced(s, s');
    }
    assert Stray(View(s', w));
    assert w in s'.store && w !in s'.active.Keys + s'.quarantined;
  }

  lemma LessPlaced(s: State, s': State)
    requires PlacementInv(s) && s.mode == s'.mode && s'.active == s.active && s'.quarantined == s.quarantined
    requires s'.reservations.Keys <= s.reservations.Keys
    requires forall id | id in s'.reservations :: s'.reservations[id] == s.reservations[id]
    requires forall x | x in s'.mutations :: x in s.mutations && s'.mutations[x] == s.mutations[x]
    ensures PlacementInv(s')
  {
    hide CreatesWorkload;
  }

  /** The failed save of an update lands. */
  lemma LandedUpdate(c: Config, s: State, s': State, w: string)
    requires Loose(s) && s.mode.Up? && w in s.mutations && s.mutations[w].UpdateGuarded?
    requires s.mutations[w].request.workload == w && JudgeUpdate(c, s, s.mutations[w].request).Accepted?
    requires s' == s.(mutations := s.mutations - {w},
                      store := s.store[w := Transitioning(s.active[w], s.mutations[w].request)])
    ensures Loose(s') && (Covered(s) ==> Covered(s'))
  {
    hide LooseSlices, PlacementInv, UsageWithout;
    assert LooseInv(Serving, w, View(s', w)) by {
      LooseSlice(s, w);
      assert View(s', w) == Finish(View(s, w)).(disk := Some(s'.store[w]));
    }
    LooseExcept(s, s', w);
    LessPlaced(s, s');
  }

  // ---- every move ----

  lemma PlainStepLands(c: Config, s: State, s': State, step: Step)
    requires Loose(s) && c.refusesUncertain && NextStep(c, s, s', step)
    ensures Loose(s')
  {
    hide Loose, AdmitNext, AcquireNext, DeployStartNext, UpdateStartNext, BootNext, LocalStepNext, RestoredFits;
    match step
    case Admit(request, now, id) => AdmitLands(c, s, s', request, now, id);
    case Sweep(now) => SweepLands(s, now);
    case Acquire(w, task) => AcquireLands(s, s', w, task);
    case DeployStart(w, now, measured, saved) => DeployStartLands(s, s', w, now, measured, saved);
    case UpdateStart(w, saved) => UpdateStartLands(c, s, s', w, saved);
    case Local(w, e) => PlainLocalLands(c, s, s', w, e);
    case Crash => CrashLands(s);
    case BootFailed =>
    case Boot(unreadable) => BootLands(c, s, s', unreadable);
    case RestoreDone => RestoreDoneLands(s);
    case RestoreRefused => CrashLands(s);
  }

  lemma PlainLocalLands(c: Config, s: State, s': State, w: string, e: Event)
    requires Loose(s) && c.refusesUncertain && LocalStepNext(c, s, s', w, e)
    ensures Loose(s') && (Covered(s) ==> Covered(s'))
  {
    hide LooseSlices, PlacementInv, LocalStepNext, LocalMove, Covered;
    PlainIsLocal(c, s, s', w, e);
    LocalMoveKeeps(s, s', w, e, false);
    if Covered(s) {
      LocalMoveCovered(s, s', w, e, false);
    }
  }

  lemma LandedLocalLands(c: Config, s: State, s': State, w: string, e: Event)
    requires Loose(s) && c.refusesUncertain && MoveNext(c, s, s', Landed(Local(w, e)))
    ensures Loose(s') && (Covered(s) ==> Covered(s'))
  {
    hide LooseSlices, PlacementInv, MoveNext, LocalMove, Covered;
    LandedIsLocal(c, s, s', w, e);
    LocalMoveKeeps(s, s', w, e, true);
    if Covered(s) {
      LocalMoveCovered(s, s', w, e, true);
    }
  }

  lemma PlainStepCovered(c: Config, s: State, s': State, step: Step)
    requires Loose(s) && c.refusesUncertain && NextStep(c, s, s', step) && Covered(s)
    ensures Covered(s')
  {
    hide Loose, AdmitNext, AcquireNext, LocalStepNext, RestoredFits, DeployBinds, JudgeUpdate;
    match step
    case Admit(request, now, id) => AdmitFrame(c, s, s', request, now, id);
    case Acquire(w, task) => AcquireFrame(s, s', w, task);
    case Local(w, e) => PlainLocalLands(c, s, s', w, e);
    case RestoreDone => RestoreDoneLands(s);
    case _ =>
  }

  lemma AdmitFrame(c: Config, s: State, s': State, request: AdmissionRequest, now: nat, id: string)
    requires AdmitNext(c, s, s', request, now, id)
    ensures s'.mode == s.mode && s'.store == s.store && s'.active == s.active && s'.quarantined == s.quarantined
  {
    hide Verdict;
  }

  lemma AcquireFrame(s: State, s': State, w: string, task: Task)
    requires AcquireNext(s, s', w, task)
    ensures s'.mode == s.mode && s'.store == s.store && s'.active == s.active && s'.quarantined == s.quarantined
  {
  }

  /** The move is a deploy's first save that fails and lands. */
  predicate LandsFirstSave(move: Move) {
    move.Landed? && move.step.DeployStart?
  }

  lemma LandedMoveLands(c: Config, s: State, s': State, step: Step)
    requires Loose(s) && c.refusesUncertain && MoveNext(c, s, s', Landed(step))
    ensures Loose(s')
    ensures step.DeployStart? ==> !Covered(s')
    ensures !step.DeployStart? && Covered(s) ==> Covered(s')
  {
    hide Loose, Covered, LocalStepNext, Meant;
    match step
    case DeployStart(w, now, measured, saved) =>
      assert s'.store == s.store[w := MeantBy(c, s, step).record];
      LandedDeploy(s, s', w, now, measured);
    case UpdateStart(w, saved) =>
      assert s'.store == s.store[w := MeantBy(c, s, step).record];
      LandedUpdate(c, s, s', w);
    case Local(w, e) => LandedLocalLands(c, s, s', w, e);
  }

  /** Every move keeps the invariant, and every stored record stays charged or quarantined if and only if the move
      is not a first save that fails and lands. */
  lemma MoveCovers(c: Config, s: State, s': State, move: Move)
    requires Loose(s) && c.refusesUncertain && MoveNext(c, s, s', move)
    ensures Loose(s')
    ensures Covered(s) ==> (Covered(s') <==> !LandsFirstSave(move))
  {
    hide Loose, Covered, NextStep;
    match move
    case Plain(step) =>
      PlainStepLands(c, s, s', step);
      if Covered(s) {
        PlainStepCovered(c, s, s', step);
      }
    case Landed(step) => LandedMoveLands(c, s, s', step);
  }

  // ---- whole runs ----

  lemma {:induction false} LooseHolds(c: Config, h: History)
    requires Possible(c, h) && c.refusesUncertain
    ensures Loose(Latest(h))
  {
    match h
    case Begin =>
    case Then(before, move, state) =>
      hide Loose, MoveNext;
      LooseHolds(c, before);
      MoveCovers(c, Latest(before), state, move);
  }

  /** Whatever store calls fail and land, in every run each pod has a stored record and runs the revision it grants
      or, while it is `Updating`, the previous or the requested one. */
  lemma LandingKeepsPods(c: Config, h: History)
    requires Possible(c, h) && c.refusesUncertain
    ensures Latest(h).pods.Keys <= Latest(h).store.Keys
    ensures forall w | w in Latest(h).pods :: Latest(h).pods[w] in AllowedRevisions(Latest(h).store[w])
  {
    hide AllowedRevisions;
    LooseHolds(c, h);
    var s := Latest(h);
    forall w | w in s.pods ensures w in s.store && s.pods[w] in AllowedRevisions(s.store[w]) {
      LooseSlice(s, w);
    }
  }

  /** And each id is held at most once across `active`, `quarantined` and the reservations. */
  lemma LandingHeldOnce(c: Config, h: History)
    requires Possible(c, h) && c.refusesUncertain
    ensures var s := Latest(h);
            && s.active.Keys !! s.quarantined
            && (forall id | id in s.reservations ::
                  s.reservations[id].workload !in s.active.Keys + s.quarantined)
            && (forall i, j | i in s.reservations && j in s.reservations
                  && s.reservations[i].workload == s.reservations[j].workload :: i == j)
  {
    LooseHolds(c, h);
    var s := Latest(h);
    forall w | w in s.active ensures w !in s.quarantined {
      LooseSlice(s, w);
    }
  }

  predicate CoveredThroughout(h: History) {
    Covered(Latest(h)) && (h.Begin? || CoveredThroughout(h.before))
  }

  predicate NoFirstSaveLands(h: History) {
    h.Begin? || (NoFirstSaveLands(h.before) && !LandsFirstSave(h.move))
  }

  /** While the agent serves every stored record is charged or quarantined, throughout a run, if and only if no
      deploy's first save in it fails and lands. */
  lemma {:induction false} CoveredExactly(c: Config, h: History)
    requires Possible(c, h) && c.refusesUncertain
    ensures CoveredThroughout(h) <==> NoFirstSaveLands(h)
  {
    hide Covered, MoveNext, LandsFirstSave;
    match h
    case Begin => BeginCovered();
    case Then(before, move, state) =>
      hide Loose;
      CoveredExactly(c, before);
      LooseHolds(c, before);
      MoveCovers(c, Latest(before), state, move);
  }

  lemma BeginCovered()
    ensures Covered(INITIAL)
  {
  }

  /** A start heals it: right after one every stored record is charged or quarantined again. */
  lemma StartCovers(c: Config, h: History)
    requires Possible(c, h) && c.refusesUncertain && h.Then? && h.move == Plain(RestoreDone)
    ensures Latest(h).store.Keys <= Latest(h).active.Keys + Latest(h).quarantined
  {
    hide Loose, RestoredFits;
    LooseHolds(c, h.before);
    RestoreDoneLands(Latest(h.before));
  }

  /** Every deploy that goes on can fail this way: its first save fails and lands, and the record it leaves is
      neither charged nor quarantined. */
  lemma FirstSaveCanLand(c: Config, h: History, w: string, now: nat, measured: Option<Size>) returns (longer: History)
    requires Possible(c, h) && c.refusesUncertain && Latest(h).mode.Up?
    requires w in Latest(h).mutations && Latest(h).mutations[w].DeployGuarded?
    requires DeployBinds(Latest(h), Latest(h).mutations[w].grant, now, measured)
    ensures Possible(c, longer) && longer.Then? && longer.before == h && LandsFirstSave(longer.move)
    ensures w in Latest(longer).store && w !in Latest(longer).active.Keys + Latest(longer).quarantined
  {
    var s := Latest(h);
    var step := DeployStart(w, now, measured, false);
    var grant := s.mutations[w].grant;
    var mid := s.(reservations := s.reservations - {grant.reservation}, mutations := s.mutations - {w});
    var end := Written(mid, w, MeantBy(c, s, step));
    assert NextStep(c, s, mid, step);
    assert MoveNext(c, s, end, Landed(step));
    longer := Then(h, Landed(step), end);
    LooseHolds(c, h);
    hide Loose;
    DeployFree(s, w, now, measured);
  }
}
