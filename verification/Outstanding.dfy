/** What is assigned in total. It only falls while nothing new is posted: by one with every release,
    and by the length of its two lists with every group that is removed. */
module Outstanding {
  import opened Kernel
  import opened Protocol
  import opened Invariant
  import opened KeepsAccounts
  import opened Preservation
  import opened Holding
  import opened Tracking
  import opened Registry
  import opened Verdicts
  import opened Groups
  import opened Guarantees

  // ---------------------------------------------------------------- the total

  function ReleasesUnderWay(threads: map<Tid, Thread>): set<Tid> { set t | t in threads && threads[t].RetRelease? }

  ghost predicate NothingAssigned(s: Sys) { forall e | e in s.k.events :: s.k.events[e].assignedCount == 0 }

  lemma CountIsNeverNegative(s: Sys, e: Addr)
    requires Core(s) && e in s.k.events
    ensures s.k.events[e].assignedCount >= 0
  {
  }

  ghost function Pick(events: map<Addr, Event>): (e: Addr)
    requires events != map[]
    ensures e in events
  {
    var e :| e in events;
    e
  }

  /** The assigned counts of all events together. */
  ghost function Outstanding(events: map<Addr, Event>): int {
    if events == map[] then 0 else events[Pick(events)].assignedCount + Outstanding(events - {Pick(events)})
  }

  lemma {:induction false} TakeOut(events: map<Addr, Event>, e: Addr)
    requires e in events
    ensures Outstanding(events) == events[e].assignedCount + Outstanding(events - {e})
    decreases |events|
  {
    var f := Pick(events);
    if f != e {
      TakeOut(events - {f}, e);
      TakeOut(events - {e}, f);
      assert events - {f} - {e} == events - {e} - {f};
    }
  }

  lemma OneChanged(events: map<Addr, Event>, e: Addr, ev: Event)
    ensures Outstanding(events[e := ev]) == Outstanding(events) + ev.assignedCount - if e in events then events[e].assignedCount else 0
  {
    TakeOut(events[e := ev], e);
    assert events[e := ev] - {e} == events - {e};
    if e in events { TakeOut(events, e); } else { assert events - {e} == events; }
  }

  /** The events with those in `held` counted down by one. */
  function Lowered(events: map<Addr, Event>, held: set<Addr>): map<Addr, Event> {
    map e | e in events :: if e in held then events[e].(assignedCount := events[e].assignedCount - 1) else events[e]
  }

  lemma {:induction false} LoweredTotal(events: map<Addr, Event>, held: set<Addr>)
    requires held <= events.Keys
    ensures Outstanding(Lowered(events, held)) == Outstanding(events) - |held|
    decreases |held|
  {
    if held == {} {
      assert Lowered(events, held) == events;
    } else {
      var e :| e in held;
      LoweredTotal(events, held - {e});
      var before := Lowered(events, held - {e});
      assert Lowered(events, held) == before[e := before[e].(assignedCount := before[e].assignedCount - 1)];
      OneChanged(before, e, before[e].(assignedCount := before[e].assignedCount - 1));
    }
  }

  function ToSet(s: seq<Addr>): set<Addr> { set e | e in s }

  function Entries(g: Group): set<Addr> { ToSet(g.todo) + ToSet(g.working) }

  lemma EntriesAre(k: State, a: Addr)
    requires Wf(k) && a in k.groups
    ensures Entries(k.groups[a]) <= k.events.Keys
    ensures |Entries(k.groups[a])| == |k.groups[a].todo| + |k.groups[a].working|
  {
    var g := k.groups[a];
    assert NoDup(g.todo) && NoDup(g.working) && ToSet(g.todo) !! ToSet(g.working);
    assert Entries(g) <= k.events.Keys;
    hide Wf, NoDup, ToSet;
    DistinctSize(g.todo);
    DistinctSize(g.working);
  }

  lemma {:induction false} DistinctSize(s: seq<Addr>)
    requires NoDup(s)
    ensures |ToSet(s)| == |s|
  {
    if s != [] {
      DistinctSize(s[1..]);
      assert s == [s[0]] + s[1..] && s[0] !in s[1..];
      assert ToSet(s) == ToSet(s[1..]) + {s[0]};
    }
  }

  lemma RemovedOutstanding(k: State, g0: Group, k1: State, a: Addr)
    requires Wf(k) && AsRemoved(k, a, g0) && RemovedFrom(k, g0, k1, a)
    ensures Outstanding(k1.events) == Outstanding(k.events) - |k.groups[a].todo| - |k.groups[a].working|
  {
    EntriesAre(k, a);
    LoweredTotal(k.events, Entries(k.groups[a]));
    assert k1.events == Lowered(k.events, Entries(k.groups[a]));
  }

  /** Steps that leave every count alone, or add or free an event nobody is asked about. */
  predicate CountsNothing(st: Step) { !st.AccessPost? && !st.RetFinish? && !st.RemWork? && !st.Close? }

  lemma NothingCounted(s: Sys, st: Step)
    requires Core(s) && Safe(s) && Enabled(s, st) && CountsNothing(st)
    ensures Outstanding(Next(s, st).k.events) == Outstanding(s.k.events)
  {
    if st.AccessAlloc? {
      AllocIsFresh(s, st);
      OneChanged(s.k.events, st.e, Event(0, 0, false, false));
    } else if st.AccessFree? {
      var e := s.threads[st.t].e;
      FreedIsZero(s, st.t);
      TakeOut(s.k.events, e);
      assert DoFree(s, st.t).k.events == s.k.events - {e};
    } else {
      EventsStay(s, st);
      hide Next;
    }
  }

  lemma AllocIsFresh(s: Sys, st: Step)
    requires Core(s) && Safe(s) && Enabled(s, st) && st.AccessAlloc?
    ensures st.e !in s.k.events && Next(s, st).k.events == s.k.events[st.e := Event(0, 0, false, false)]
  {
    hide Wf, CountInv, QueueInv, IdInv, PhasesOk, ListedIsQueued, OwedIsBacked;
  }

  lemma FreedIsZero(s: Sys, t: Tid)
    requires Core(s) && Safe(s) && t in s.threads && s.threads[t].OpJudged?
    ensures s.threads[t].e in s.k.events && s.k.events[s.threads[t].e].assignedCount == 0
  {
    PhaseOf(s, t);
    hide Wf, CountInv, QueueInv, IdInv, PhasesOk, ListedIsQueued, OwedIsBacked, Safe;
    assert EventOk(s.k.events[s.threads[t].e], s.hist[s.threads[t].e]);
  }

  lemma EventsStay(s: Sys, st: Step)
    requires Safe(s) && Enabled(s, st) && CountsNothing(st) && !st.AccessAlloc? && !st.AccessFree?
    ensures Next(s, st).k.events == s.k.events
  {
    hide Wf, Safe, NoteRemoved, SetStatus, Without;
  }

  /** What the removal of group `a` in this step answers. */
  lemma RemovalOutstanding(s: Sys, st: Step, a: Addr)
    requires Core(s) && Safe(s) && Enabled(s, st) && a in Active(s.k.groups) && Deactivates(s, st, a)
    ensures Outstanding(Next(s, st).k.events) == Outstanding(s.k.events) - |s.k.groups[a].todo| - |s.k.groups[a].working|
  {
    hide Core, Safe;
    if st.RemWork? {
      NamedRemoval(s, st.t, a);
      hide DoRemove;
    } else {
      ClosedRemoval(s, st.h, a);
      hide DoClose;
    }
  }

  lemma NamedRemoval(s: Sys, t: Tid, a: Addr)
    requires Core(s) && Safe(s) && t in s.threads && s.threads[t].RemGo?
    requires a in Active(s.k.groups) && s.k.groups[a].name == s.threads[t].name
    ensures Outstanding(DoRemove(s, t).k.events) == Outstanding(s.k.events) - |s.k.groups[a].todo| - |s.k.groups[a].working|
  {
    assert Wf(s.k) && QueuesOk(s.k.groups, s.k.events);
    NoneDeprecated(s);
    FoundByItsName(s.k, a);
    hide Core, Safe, Wf, QueuesOk, RemovedFrom, DoRemove, RemoveGroup, FindByName;
    RemovedHit(s.k, a);
    DoRemoveIs(s, t, a);
    RemovedOutstanding(s.k, s.k.groups[a], RemoveGroup(s.k, a), a);
  }

  lemma ClosedRemoval(s: Sys, h: nat, a: Addr)
    requires Core(s) && Safe(s) && h in s.handles && s.handles[h].group.Some?
    requires a in Active(s.k.groups) && s.k.groups[a].id == s.handles[h].gid && s.k.groups[a].tracking && s.k.groups[a].trackCount == 1
    ensures Outstanding(DoClose(s, h).k.events) == Outstanding(s.k.events) - |s.k.groups[a].todo| - |s.k.groups[a].working|
  {
    assert Wf(s.k);
    NoneDeprecated(s);
    LookupIsUnique(s.k, s.handles[h].gid, a);
    var g := s.k.groups[a];
    var g0 := g.(useCount := g.useCount - 1, trackCount := 0);
    hide Core, Safe, Wf, RemovedFrom, DoClose, RemoveGroup, FindById;
    RemovedState(s.k, g0, a);
    CloseRemoves(s, h, a, g0);
    RemovedOutstanding(s.k, g0, RemoveGroup(s.k.(groups := s.k.groups[a := g0]), a), a);
  }

  lemma FoundByItsName(k: State, a: Addr)
    requires Wf(k) && a in Active(k.groups)
    ensures FindByName(k.list, k.groups, k.groups[a].name) == Some(a)
  {
    assert a in k.list;
    var found := FindByName(k.list, k.groups, k.groups[a].name);
    assert found.Some? && found.value in Active(k.groups);
  }

  lemma NobodyRemoved(s: Sys, st: Step)
    requires Core(s) && Safe(s) && Enabled(s, st) && (st.RemWork? || st.Close?)
    requires forall a | a in Active(s.k.groups) :: !Deactivates(s, st, a)
    ensures Next(s, st).k.events == s.k.events
  {
    if st.RemWork? {
      NobodyNamed(s, st.t);
    } else {
      NobodyClosed(s, st.h);
    }
  }

  lemma NobodyNamed(s: Sys, t: Tid)
    requires Safe(s) && t in s.threads && s.threads[t].RemGo?
    requires forall a | a in Active(s.k.groups) :: s.k.groups[a].name != s.threads[t].name
    ensures DoRemove(s, t).k == s.k
  {
    FoundIsNamed(s.k, s.threads[t].name);
    hide Safe, Wf, RemoveGroup, NoteRemoved, FindByName;
  }

  lemma NobodyClosed(s: Sys, h: nat)
    requires Safe(s) && h in s.handles
    requires forall a | a in Active(s.k.groups) ::
               !(s.handles[h].group.Some? && s.k.groups[a].id == s.handles[h].gid && s.k.groups[a].tracking && s.k.groups[a].trackCount == 1)
    ensures DoClose(s, h).k.events == s.k.events
  {
    FoundIsKnown(s.k, s.handles[h].gid);
    hide Safe, RemoveGroup, NoteRemoved;
  }

  lemma FoundIsNamed(k: State, name: string)
    requires Wf(k)
    ensures var found := FindByName(k.list, k.groups, name);
      found.Some? ==> found.value in Active(k.groups) && k.groups[found.value].name == name
  {
  }

  /** Every step, by what it does to the total: posting raises it by the active groups, a release
      lowers it by one, a removal by the length of the two lists it clears, and no other step
      changes it. */
  lemma OutstandingAfter(s: Sys, st: Step)
    requires Core(s) && Safe(s) && Enabled(s, st)
    ensures var before, after := Outstanding(s.k.events), Outstanding(Next(s, st).k.events);
      && (st.AccessPost? ==> after == before + |Active(s.k.groups)|)
      && (st.RetFinish? ==> after == before - 1)
      && (forall a | a in Active(s.k.groups) && Deactivates(s, st, a) ::
            after == before - |s.k.groups[a].todo| - |s.k.groups[a].working|)
      && (!st.AccessPost? && !st.RetFinish? && (forall a | a in Active(s.k.groups) :: !Deactivates(s, st, a)) ==> after == before)
  {
    hide Core, Safe, Wf;
    if st.AccessPost? {
      PostingRaises(s, st.t);
    } else if st.RetFinish? {
      ReleaseLowers(s, st.t);
    } else if CountsNothing(st) {
      NothingCounted(s, st);
    } else {
      forall a | a in Active(s.k.groups) && Deactivates(s, st, a)
        ensures Outstanding(Next(s, st).k.events) == Outstanding(s.k.events) - |s.k.groups[a].todo| - |s.k.groups[a].working|
      {
        RemovalOutstanding(s, st, a);
      }
      if forall a | a in Active(s.k.groups) :: !Deactivates(s, st, a) { NobodyRemoved(s, st); }
    }
    hide Next, Core, Safe;
  }

  lemma PostingRaises(s: Sys, t: Tid)
    requires Core(s) && Safe(s) && t in s.threads && s.threads[t].OpAlloc?
    ensures Outstanding(DoPost(s, t).k.events) == Outstanding(s.k.events) + |Active(s.k.groups)|
  {
    var e := s.threads[t].e;
    OneChanged(s.k.events, e, DoPost(s, t).k.events[e]);
    hide Core, Safe, Active;
  }

  lemma ReleaseLowers(s: Sys, t: Tid)
    requires Core(s) && Safe(s) && t in s.threads && s.threads[t].RetRelease?
    ensures Outstanding(DoRelease(s, t).k.events) == Outstanding(s.k.events) - 1
  {
    var e := s.threads[t].e;
    NoneDeprecated(s);
    OneChanged(s.k.events, e, DoRelease(s, t).k.events[e]);
    hide Core, Safe;
  }

  /** With no group active and no release under way nothing is outstanding, and it is never negative. */
  lemma NothingOutstanding(s: Sys)
    requires Core(s)
    ensures forall e | e in s.k.events :: s.k.events[e].assignedCount >= 0
    ensures Active(s.k.groups) == {} && ReleasesUnderWay(s.threads) == {} ==> NothingAssigned(s) && Outstanding(s.k.events) == 0
  {
    forall e | e in s.k.events ensures s.k.events[e].assignedCount >= 0 { CountIsNeverNegative(s, e); }
    if Active(s.k.groups) == {} && ReleasesUnderWay(s.threads) == {} {
      forall e | e in s.k.events ensures s.k.events[e].assignedCount == 0 {
        assert ReleasesOf(s.threads, e) <= ReleasesUnderWay(s.threads);
        if s.k.events[e].assignedCount > 0 { NoStrandedAccess(s, e); }
      }
      AllZero(s.k.events);
    }
  }

  lemma {:induction false} AllZero(events: map<Addr, Event>)
    requires forall e | e in events :: events[e].assignedCount == 0
    ensures Outstanding(events) == 0
    decreases |events|
  {
    if events != map[] { AllZero(events - {Pick(events)}); }
  }
}
