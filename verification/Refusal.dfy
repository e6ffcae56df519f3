/** Stored records that do not fit really stop an agent: if it crashes and none of the calls its next start makes
    succeeds, every record is retained and the capacity check refuses.
 */
module Refusal {
  import opened Options
  import opened Quantities
  import opened Records
  import opened Accounting
  import opened AccountingLaws
  import opened Lifecycle
  import opened LifecycleInvariant
  import opened Capacity
  import opened Recovery
  import opened Reconciliation
  import opened Startable

  const FAILING := Calls(false, false, false, false, false)

  /** A record whose calls all fail is retained as it is. */
  lemma FailingRetains(refuses: bool, v: Slice)
    requires v.queued.Some? && v.task.None? && v.memory.None?
    ensures AfterCalls(refuses, v, FAILING) == v.(queued := None, memory := v.queued)
  {
  }

  /** Part-way through a restore that has retained everything so far. */
  ghost predicate Retaining(t: State, store: map<string, Record>) {
    && BetweenRecords(t) && t.store == store && t.reservations == map[]
    && (forall w | w in t.active :: w in store && t.active[w] == store[w] && w !in t.mode.queued)
    && (forall w | w in t.mode.queued :: w in store && t.mode.queued[w] == store[w])
    && (forall w | w in store :: w in t.active || w in t.mode.queued)
  }

  lemma RetainOne(c: Config, t: State, store: map<string, Record>, w: string)
    requires Retaining(t, store) && w in t.mode.queued
    ensures var next := Put(t, w, AfterCalls(c.refusesUncertain, View(t, w), FAILING));
            Retaining(next, store) && next.mode.queued == t.mode.queued - {w}
  {
    hide AfterCalls;
    var v := View(t, w);
    FailingRetains(c.refusesUncertain, v);
    var next := Put(t, w, v.(queued := None, memory := v.queued));
    SetGet(t.store, w);
    assert next.mutations == map[];
  }

  lemma {:induction false} RetainAll(c: Config, origin: State, trail: Trail, store: map<string, Record>)
    returns (longer: Trail)
    requires Follow(c, origin, trail) && AllRecovery(trail) && Retaining(End(origin, trail), store)
    ensures Follow(c, origin, longer) && AllRecovery(longer) && Retaining(End(origin, longer), store)
    ensures End(origin, longer).mode == Restoring(map[])
    decreases |End(origin, trail).mode.queued|
  {
    hide Follow, AllRecovery, AfterCalls, Put;
    var t := End(origin, trail);
    if t.mode.queued == map[] {
      longer := trail;
    } else {
      var w :| w in t.mode.queued;
      var next := ReconcileFollows(c, origin, trail, w, FAILING);
      RetainOne(c, t, store, w);
      assert (t.mode.queued - {w}).Keys == t.mode.queued.Keys - {w};
      longer := RetainAll(c, origin, next, store);
    }
  }

  lemma Rebooted(c: Config, s: State)
    requires |s.store| <= c.maxWorkloads && s.mode.Down? && s.active == map[] && s.mutations == map[]
    requires s.reservations == map[]
    ensures var t := s.(mode := Restoring(s.store), quarantined := {});
            NextStep(c, s, t, Boot({})) && Retaining(t, s.store)
  {
    assert s.store - {} == s.store;
  }

  lemma StoppedIsEmpty(c: Config, s: State)
    requires Inv(c, s) && s.mode.Down?
    ensures s.active == map[] && s.mutations == map[] && s.reservations == map[]
  {
    hide DurableInv;
    forall w ensures w !in s.active && w !in s.mutations {
      assert SliceInv(Stopped, w, View(s, w));
    }
  }

  /** From any state whose stored records do not fit, a crash if the agent runs, and a start in which every call
      fails, end in a refused start. */
  lemma UnfittingStoreIsRefused(c: Config, s: State) returns (trail: Trail)
    requires BelowMax(c) && Inv(c, s) && !StoreFits(c, s.store)
    ensures Follow(c, s, trail) && RestoreFinished(End(s, trail)) && !RestoredFits(c, End(s, trail))
  {
    hide Inv, NextStep, StoreFits, RestoredFits, Sum, Retaining;
    assert |s.store| <= c.maxWorkloads by { CountHolds(c, s); }
    var stopped, first := s, Here;
    if s.mode.Down? {
      StoppedIsEmpty(c, s);
    } else {
      stopped, first := Crashed(s), Onward(Here, Crash, Crashed(s));
      assert NextStep(c, s, stopped, Crash) by { CrashStep(c, s); }
      Extend(c, s, Here, Crash, stopped);
    }
    var t := stopped.(mode := Restoring(s.store), quarantined := {});
    Rebooted(c, stopped);
    Extend(c, s, first, Boot({}), t);
    trail := RetainAll(c, s, Onward(first, Boot({}), t), s.store);
    var end := End(s, trail);
    RetainedAll(end, s.store);
    StoreFitsExactly(c, s.store);
    RestoredFitsExactly(c, end);
  }

  lemma CountHolds(c: Config, s: State)
    requires Inv(c, s)
    ensures |s.store| <= c.maxWorkloads
  {
    hide Slices, PlacementInv;
  }

  lemma CrashStep(c: Config, s: State)
    requires !s.mode.Down?
    ensures NextStep(c, s, Crashed(s), Crash)
  {
    hide Crashed;
  }

  lemma RetainedAll(end: State, store: map<string, Record>)
    requires Retaining(end, store) && end.mode == Restoring(map[])
    ensures end.active == store && RestoreFinished(end)
  {
  }
}
