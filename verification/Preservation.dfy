/** Every step of the protocol keeps the core of the invariant, whatever handles are closed. */
module Preservation {
  import opened Kernel
  import opened Protocol
  import opened Invariant
  import opened KeepsLists
  import opened KeepsCounts
  import opened KeepsAccounts
  import opened KeepsQueues

  lemma Assemble(s: Sys)
    requires Wf(s.k) && BornInv(s)
    requires AccountInv(s.k.groups, s.k.events, s.threads, s.hist) && CountInv(s.k.groups, s.k.count, s.threads)
    requires QueueInv(s.k.groups, s.threads, s.hist, s.posts) && IdInv(s.k.events, s.hist, s.k.lastId, s.posts)
    ensures Core(s)
  {}

  /** Caller `t` moves on (or arrives, or leaves) and nothing else changes. */
  lemma MoveKeeps(s: Sys, threads': map<Tid, Thread>, t: Tid)
    requires Core(s) && Safe(s) && SameOthers(s.threads, threads', t)
    requires CountInv(s.k.groups, s.k.count, threads')
    requires OpenedBy(threads', t) == OpenedBy(s.threads, t) && !Releasing(s.threads, t) && !Releasing(threads', t)
    requires t in threads' ==> PhaseOk(t, threads'[t], s.k.events, s.hist)
    requires !Handling(threads', t)
    ensures Core(s.(threads := threads'))
  {
    hide AccountInv, CountInv, QueueInv, IdInv;
    AccountMove(s.k.groups, s.k.groups, s.k.events, s.threads, threads', s.hist, s.hist, t);
    QueueFrame(s.k.groups, s.k.groups, s.threads, threads', s.hist, s.hist, s.posts, t);
  }

  lemma AccessAllocKeeps(s: Sys, t: Tid, e: Addr)
    requires Core(s) && t in s.threads && s.threads[t].OpStart? && e !in s.born && s.k.count >= 0
    ensures Core(DoAlloc(s, t, e))
  {
    hide AccountInv, CountInv, QueueInv, IdInv;
    var s1 := DoAlloc(s, t, e);
    EventsKeep(s.k, s1.k.events);
    AccountAlloc(s.k.groups, s.k.events, s.threads, s.hist, t, e, s.k.count);
    CountReader(s.k.groups, s.k.groups, s.k.count, s.threads, s1.threads, t);
    QueueFrame(s.k.groups, s.k.groups, s.threads, s1.threads, s.hist, s1.hist, s.posts, t);
    IdFrame(s.k.events, s1.k.events, s.hist, s1.hist, s.k.lastId, s.posts);
    Assemble(DoAlloc(s, t, e));
  }

  lemma AccessPostKeeps(s: Sys, t: Tid)
    requires Core(s) && Safe(s) && t in s.threads && s.threads[t].OpAlloc?
    ensures Core(DoPost(s, t))
  {
    hide AccountInv, CountInv, QueueInv, IdInv, Wf, PhaseOk, Safe;
    PhaseOf(s, t);
    var e := s.threads[t].e;
    Unposted(s, t);
    NothingListed(s, e);
    PostKeeps(s.k, e);
    AccountPost(s.k, Post(s.k, e), s.threads, s.hist, t, s.posts + 1);
    PostedInv(s, t, e, Post(s.k, e));
  }

  lemma Unposted(s: Sys, t: Tid)
    requires Core(s) && t in s.threads && s.threads[t].OpAlloc?
    ensures s.threads[t].e in s.hist && OpenIn(s.hist[s.threads[t].e].status) == {} && s.hist[s.threads[t].e].seqno == 0
  {
  }

  lemma PostedInv(s: Sys, t: Tid, e: Addr, k1: State)
    requires Core(s) && t in s.threads && s.threads[t].OpAlloc? && s.threads[t].e == e
    requires e in s.k.events && e in s.hist && s.hist[e].seqno == 0 && -0x8000_0000 <= s.k.lastId < 0x8000_0000
    requires k1 == Post(s.k, e) && Wf(k1) && Active(k1.groups) == Active(s.k.groups)
    requires AccountInv(k1.groups, k1.events, s.threads[t := OpPosted(e)],
               s.hist[e := s.hist[e].(seqno := s.posts + 1, status := map a | a in Active(s.k.groups) :: Queued)])
    ensures Core(s.(k := k1, threads := s.threads[t := OpPosted(e)], posts := s.posts + 1,
              hist := s.hist[e := s.hist[e].(seqno := s.posts + 1, status := map a | a in Active(s.k.groups) :: Queued)]))
  {
    hide AccountInv, CountInv, QueueInv, IdInv, Wf;
    var threads' := s.threads[t := OpPosted(e)];
    var hist' := s.hist[e := s.hist[e].(seqno := s.posts + 1, status := map a | a in Active(s.k.groups) :: Queued)];
    PostedCounts(s, t, e, k1, threads');
    QueuePost(s.k.groups, k1.groups, s.threads, threads', s.hist, hist', s.posts, t, e);
    IdPost(s.k.events, k1.events, s.hist, hist', s.k.lastId, s.posts, e);
    Assemble(s.(k := k1, threads := threads', posts := s.posts + 1, hist := hist'));
  }

  lemma PostedCounts(s: Sys, t: Tid, e: Addr, k1: State, threads': map<Tid, Thread>)
    requires Core(s) && t in s.threads && s.threads[t].OpAlloc? && threads' == s.threads[t := OpPosted(e)]
    requires k1.groups.Keys == s.k.groups.Keys && Active(k1.groups) == Active(s.k.groups)
    requires forall a | a in s.k.groups :: k1.groups[a] == s.k.groups[a].(todo := k1.groups[a].todo)
    ensures CountInv(k1.groups, s.k.count, threads')
  {
    hide AccountInv, CountInv, QueueInv, IdInv, Wf;
    CountReader(s.k.groups, k1.groups, s.k.count, s.threads, threads', t);
  }

  lemma PhaseOf(s: Sys, t: Tid)
    requires Core(s) && t in s.threads
    ensures PhaseOk(t, s.threads[t], s.k.events, s.hist)
    ensures var th := s.threads[t];
      (th.OpAlloc? || th.OpPosted? || th.OpWait? || th.OpWoken? || th.OpJudged? || th.RetRelease?) ==> th.e in s.k.events && th.e in s.hist
    ensures -0x8000_0000 <= s.k.lastId < 0x8000_0000
  {}

  lemma NothingListed(s: Sys, e: Addr)
    requires Core(s) && e in s.hist && OpenIn(s.hist[e].status) == {}
    ensures forall a :: !Listed(s.k.groups, a, e)
  {
    NothingOwed(s.hist, e);
    forall a ensures !Listed(s.k.groups, a, e) { assert Listed(s.k.groups, a, e) ==> Owed(s.hist, e, a); }
  }

  lemma AccessFreeKeeps(s: Sys, t: Tid)
    requires Core(s) && Safe(s) && t in s.threads && s.threads[t].OpJudged?
    ensures Core(DoFree(s, t))
  {
    hide AccountInv, CountInv, QueueInv, IdInv, Wf, Safe;
    PhaseOf(s, t);
    var s1 := DoFree(s, t);
    AccountFree(s.k.groups, s.k.events, s.threads, s.hist, t);
    EventsKeep(s.k, s1.k.events);
    CountOutside(s.k.groups, s.k.groups, s.k.count, s.k.count, s.threads, s1.threads, t);
    QueueFrame(s.k.groups, s.k.groups, s.threads, s1.threads, s.hist, s.hist, s.posts, t);
    IdFrame(s.k.events, s1.k.events, s.hist, s.hist, s.k.lastId, s.posts);
    Assemble(DoFree(s, t));
  }

  lemma AddScanKeeps(s: Sys, t: Tid)
    requires Core(s) && Safe(s) && t in s.threads && s.threads[t].AddStart?
    ensures Core(DoScan(s, t))
  {
    hide AccountInv, CountInv, QueueInv, IdInv, Wf, Safe;
    var s1 := DoScan(s, t);
    ScanFacts(s, t);
    AccountMove(s.k.groups, s1.k.groups, s.k.events, s.threads, s1.threads, s.hist, s.hist, t);
    ScanCount(s, s1, t);
    QueueFrame(s.k.groups, s1.k.groups, s.threads, s1.threads, s.hist, s.hist, s.posts, t);
    Assemble(DoScan(s, t));
  }

  /** A scan may only free removed groups that nobody uses and switch tracking on. */
  lemma ScanFacts(s: Sys, t: Tid)
    requires Core(s) && Safe(s) && t in s.threads && s.threads[t].AddStart?
    ensures var g, g1 := s.k.groups, DoScan(s, t).k.groups;
      && Wf(DoScan(s, t).k) && g1.Keys <= g.Keys && SameLists(g, g1)
      && (forall a | a in g1 :: g1[a] == g[a].(tracking := g1[a].tracking) && (g[a].tracking ==> g1[a].tracking))
      && (forall a | a in g && a !in g1 :: g[a].deprecated && g[a].useCount == 0)
  {
    hide AccountInv, CountInv, QueueInv, IdInv, ChooseId;
    var th := s.threads[t];
    ChooseIdIsLeastFree(s.k.list, s.k.groups, th.name, th.track, 0);
    ScanKeeps(s.k, th.name, th.track);
    ScanLists(s.k.groups, DoScan(s, t).k.groups, s.k.events);
  }

  lemma ScanLists(groups: map<Addr, Group>, groups': map<Addr, Group>, events: map<Addr, Event>)
    requires QueuesOk(groups, events) && groups'.Keys <= groups.Keys && Active(groups') == Active(groups)
    requires forall a | a in groups' :: groups'[a] == groups[a].(tracking := groups'[a].tracking)
    ensures SameLists(groups, groups')
  {
    forall a, e ensures Listed(groups', a, e) <==> Listed(groups, a, e) {
      if a in groups && a !in groups' { assert a !in Active(groups); }
    }
  }

  lemma ScanCount(s: Sys, s1: Sys, t: Tid)
    requires Wf(s.k) && CountInv(s.k.groups, s.k.count, s.threads) && Safe(s) && t in s.threads && s.threads[t].AddStart? && s1 == DoScan(s, t)
    ensures CountInv(s1.k.groups, s1.k.count, s1.threads)
  {
    var name, track := s.threads[t].name, s.threads[t].track;
    ChooseIdIsLeastFree(s.k.list, s.k.groups, name, track, 0);
    ScanKeeps(s.k, name, track);
    WriterSeesCount(s.k.groups, s.k.count, s.threads, t);
    var c := ChooseId(s.k.list, s.k.groups, name, track, 0);
    if c.id.Some? {
      forall a | a in Active(c.groups) ensures c.groups[a].name != name && c.groups[a].id != c.id.value {
        assert a in Active(s.k.groups) && c.groups[a] == s.k.groups[a];
        assert !NameInUse(s.k.groups, name) && !IdInUse(s.k.groups, c.id.value);
      }
    }
    CountWriter(s.k.groups, s1.k.groups, s.k.count, s1.k.count, s.threads, s1.threads, t);
  }

  lemma NameAndIdFree(s: Sys, t: Tid)
    requires Core(s) && t in s.threads && s.threads[t].AddReady?
    ensures |Active(s.k.groups)| < GROUP_COUNT
    ensures forall b | b in Active(s.k.groups) :: s.k.groups[b].name != s.threads[t].name && s.k.groups[b].id != s.threads[t].id
  {}

  lemma AddLinkKeeps(s: Sys, t: Tid, a: Addr)
    requires Core(s) && t in s.threads && s.threads[t].AddReady? && a !in s.born
    ensures Core(DoLink(s, t, a))
  {
    var th := s.threads[t];
    var k1 := LinkGroup(s.k, a, th.name, th.id, th.track);
    LinkKeepsWf(s, t, a);
    hide AccountInv, CountInv, QueueInv, IdInv, Wf;
    LinkedByWriter(s, t, a, k1, s.threads[t := AddLinked]);
    CountLink(s, t, a, k1);
    Assemble(DoLink(s, t, a));
  }

  lemma LinkKeepsWf(s: Sys, t: Tid, a: Addr)
    requires Core(s) && t in s.threads && s.threads[t].AddReady? && a !in s.born
    ensures var k1 := LinkGroup(s.k, a, s.threads[t].name, s.threads[t].id, s.threads[t].track);
      && Wf(k1) && Active(k1.groups) == Active(s.k.groups) + {a} && a !in s.k.groups
  {
    NameAndIdFree(s, t);
    hide AccountInv, CountInv, QueueInv, IdInv, Wf;
    LinkKeeps(s.k, a, s.threads[t].name, s.threads[t].id, s.threads[t].track);
  }

  lemma CountLink(s: Sys, t: Tid, a: Addr, k1: State)
    requires Core(s) && t in s.threads && s.threads[t].AddReady? && k1.count == s.k.count
    requires a !in s.k.groups && Active(k1.groups) == Active(s.k.groups) + {a}
    ensures CountInv(k1.groups, k1.count, s.threads[t := AddLinked])
  {
    hide AccountInv, QueueInv, IdInv, Wf;
    NameAndIdFree(s, t);
    hide CountInv;
    WriterSeesCount(s.k.groups, s.k.count, s.threads, t);
    CountWriter(s.k.groups, k1.groups, s.k.count, s.k.count, s.threads, s.threads[t := AddLinked], t);
  }

  lemma LinkedByWriter(s: Sys, t: Tid, a: Addr, k1: State, threads': map<Tid, Thread>)
    requires Core(s) && t in s.threads && s.threads[t].AddReady? && threads' == s.threads[t := AddLinked]
    requires a !in s.k.groups && a in k1.groups && k1.groups == s.k.groups[a := k1.groups[a]]
    requires var g := k1.groups[a];
      !g.deprecated && g.todo == [] && g.working == [] && g.useCount == 0 && g.trackCount == 0
    ensures AccountInv(k1.groups, s.k.events, threads', s.hist)
    ensures QueueInv(k1.groups, threads', s.hist, s.posts)
  {
    hide AccountInv, CountInv, QueueInv, IdInv, Wf;
    forall b, e ensures Listed(k1.groups, b, e) <==> Listed(s.k.groups, b, e) {}
    AccountMove(s.k.groups, k1.groups, s.k.events, s.threads, threads', s.hist, s.hist, t);
    QueueFrame(s.k.groups, k1.groups, s.threads, threads', s.hist, s.hist, s.posts, t);
  }

  /** `g0` is group `a` at the moment of its removal: a tracked close lowers its counts first. */
  predicate AsRemoved(k: State, a: Addr, g0: Group) {
    && a in k.groups && !k.groups[a].deprecated
    && g0 == k.groups[a].(useCount := g0.useCount, trackCount := g0.trackCount)
  }

  ghost predicate RemovedFrom(k: State, g0: Group, k1: State, a: Addr)
    requires a in k.groups
  {
    && Wf(k1)
    && k1.groups == k.groups[a := g0.(deprecated := true, todo := [], working := [])]
    && k1.count == k.count - 1 && k1.lastId == k.lastId
    && k1.events == (map e | e in k.events ::
         if k.groups[a].Holds(e) then k.events[e].(assignedCount := k.events[e].assignedCount - 1) else k.events[e])
  }

  lemma RemovedWf(k: State, g0: Group, a: Addr)
    requires Wf(k) && AsRemoved(k, a, g0)
    requires forall e | e in k.events :: !k.events[e].deprecated
    ensures QueuesOk(k.groups[a := g0], k.events)
    ensures Wf(RemoveGroup(k.(groups := k.groups[a := g0]), a))
  {
    CountsKeep(k, a, g0);
    RemoveKeeps(k.(groups := k.groups[a := g0]), a);
  }

  lemma RemovedFields(k: State, g0: Group, a: Addr)
    requires QueuesOk(k.groups[a := g0], k.events)
    ensures var k1 := RemoveGroup(k.(groups := k.groups[a := g0]), a);
      && k1.groups == k.groups[a := g0.(deprecated := true, todo := [], working := [])]
      && k1.count == k.count - 1 && k1.lastId == k.lastId && k1.list == k.list
  {}

  lemma RemovedEvents(k: State, g0: Group, a: Addr)
    requires QueuesOk(k.groups[a := g0], k.events) && AsRemoved(k, a, g0)
    requires forall e | e in k.events :: !k.events[e].deprecated
    ensures RemoveGroup(k.(groups := k.groups[a := g0]), a).events == (map e | e in k.events ::
              if k.groups[a].Holds(e) then k.events[e].(assignedCount := k.events[e].assignedCount - 1) else k.events[e])
  {
    hide QueuesOk;
    RemoveGroupEffect(k.(groups := k.groups[a := g0]), a);
  }

  lemma RemovedState(k: State, g0: Group, a: Addr)
    requires Wf(k) && AsRemoved(k, a, g0)
    requires forall e | e in k.events :: !k.events[e].deprecated
    ensures QueuesOk(k.groups[a := g0], k.events)
    ensures RemovedFrom(k, g0, RemoveGroup(k.(groups := k.groups[a := g0]), a), a)
  {
    RemovedWf(k, g0, a);
    hide Wf, QueuesOk, RemoveGroup;
    RemovedEvents(k, g0, a);
    RemovedFields(k, g0, a);
  }

  lemma RemovedLists(k: State, g0: Group, k1: State, a: Addr)
    requires AsRemoved(k, a, g0) && RemovedFrom(k, g0, k1, a)
    ensures forall b, f :: Listed(k1.groups, b, f) <==> Listed(k.groups, b, f) && b != a
    ensures Active(k1.groups) == Active(k.groups) - {a} && a in Active(k.groups)
  {
  }

  lemma NoneDeprecated(s: Sys)
    requires Core(s)
    ensures forall e | e in s.k.events :: !s.k.events[e].deprecated
  {
  }

  /** A removal, by name or by the last tracked close, keeps everything but tracking, which depends
      on the handle. */
  lemma RemovalKeeps(s: Sys, g0: Group, k1: State, a: Addr, threads': map<Tid, Thread>, t: Tid)
    requires Core(s) && AsRemoved(s.k, a, g0) && RemovedFrom(s.k, g0, k1, a)
    requires SameOthers(s.threads, threads', t)
    requires OpenedBy(threads', t) == OpenedBy(s.threads, t) && !Releasing(s.threads, t) && !Releasing(threads', t)
    requires t in threads' ==> PhaseOk(t, threads'[t], s.k.events, s.hist)
    requires !Handling(threads', t)
    ensures var hist' := NoteRemoved(s.hist, s.k.groups[a], a);
      && AccountInv(k1.groups, k1.events, threads', hist')
      && QueueInv(k1.groups, threads', hist', s.posts)
      && IdInv(k1.events, hist', s.k.lastId, s.posts)
  {
    hide AccountInv, CountInv, QueueInv, IdInv, Wf;
    var hist' := NoteRemoved(s.hist, s.k.groups[a], a);
    RemovedLists(s.k, g0, k1, a);
    AccountMove(s.k.groups, s.k.groups, s.k.events, s.threads, threads', s.hist, s.hist, t);
    AccountRemove(s.k, k1, a, threads', s.hist);
    QueueFrame(s.k.groups, k1.groups, s.threads, threads', s.hist, hist', s.posts, t);
    IdFrame(s.k.events, k1.events, s.hist, hist', s.k.lastId, s.posts);
  }

  lemma RemWorkKeeps(s: Sys, t: Tid)
    requires Core(s) && Safe(s) && t in s.threads && s.threads[t].RemGo?
    ensures Core(DoRemove(s, t))
  {
    WriterSeesCount(s.k.groups, s.k.count, s.threads, t);
    var found := FindByName(s.k.list, s.k.groups, s.threads[t].name);
    if found.None? {
      RemWorkMissKeeps(s, t);
    } else {
      RemWorkHitKeeps(s, t, found.value);
    }
  }

  lemma RemWorkMissKeeps(s: Sys, t: Tid)
    requires Core(s) && Safe(s) && t in s.threads && s.threads[t].RemGo? && FindByName(s.k.list, s.k.groups, s.threads[t].name).None?
    ensures Core(DoRemove(s, t))
  {
    hide AccountInv, CountInv, QueueInv, IdInv;
    assert DoRemove(s, t) == s.(threads := s.threads[t := WriteOut]);
    hide DoRemove;
    WriterMoves(s, s.threads[t := WriteOut], t);
  }

  /** A writer moves on, with no claim on the name and id it may hold. */
  lemma WriterMoves(s: Sys, threads': map<Tid, Thread>, t: Tid)
    requires Core(s) && Safe(s) && SameOthers(s.threads, threads', t)
    requires t in s.threads ==> s.threads[t].Writes() && !s.threads[t].AddLinked?
    requires t !in s.threads ==> NoWriter(s.threads) && NoReader(s.threads)
    requires t in threads' ==> threads'[t].Writes() && !threads'[t].AddLinked? && !threads'[t].AddFresh? && !threads'[t].AddReady?
    ensures Core(s.(threads := threads'))
  {
    if t in s.threads { WriterSeesCount(s.k.groups, s.k.count, s.threads, t); } else { IdleSemaphoreCount(s.k.groups, s.k.count, s.threads); }
    CountBound(s);
    hide AccountInv, CountInv, QueueInv, IdInv, Wf, Safe;
    CountWriter(s.k.groups, s.k.groups, s.k.count, s.k.count, s.threads, threads', t);
    MoveKeeps(s, threads', t);
  }

  lemma RemWorkHitKeeps(s: Sys, t: Tid, a: Addr)
    requires Core(s) && Safe(s) && t in s.threads && s.threads[t].RemGo? && FindByName(s.k.list, s.k.groups, s.threads[t].name) == Some(a)
    ensures Core(DoRemove(s, t))
  {
    FoundGroup(s, t, a);
    hide Core, Safe, Wf, QueuesOk, RemoveGroup, DoRemove, AsRemoved, RemovedFrom, FindByName;
    NoneDeprecated(s);
    RemovedHit(s.k, a);
    DoRemoveIs(s, t, a);
    RemovedByWriter(s, t, a, RemoveGroup(s.k, a), s.threads[t := WriteOut]);
  }

  lemma FoundGroup(s: Sys, t: Tid, a: Addr)
    requires Safe(s) && t in s.threads && s.threads[t].RemGo? && FindByName(s.k.list, s.k.groups, s.threads[t].name) == Some(a)
    ensures a in s.k.groups && !s.k.groups[a].deprecated && Wf(s.k) && QueuesOk(s.k.groups, s.k.events)
  {
  }

  lemma DoRemoveIs(s: Sys, t: Tid, a: Addr)
    requires Safe(s) && t in s.threads && s.threads[t].RemGo? && FindByName(s.k.list, s.k.groups, s.threads[t].name) == Some(a)
    ensures DoRemove(s, t) == s.(k := RemoveGroup(s.k, a), threads := s.threads[t := WriteOut],
                                 hist := NoteRemoved(s.hist, s.k.groups[a], a))
  {
    hide RemoveGroup, NoteRemoved;
  }

  lemma RemovedHit(k: State, a: Addr)
    requires Wf(k) && QueuesOk(k.groups, k.events) && a in k.groups && !k.groups[a].deprecated
    requires forall e | e in k.events :: !k.events[e].deprecated
    ensures AsRemoved(k, a, k.groups[a]) && RemovedFrom(k, k.groups[a], RemoveGroup(k, a), a)
    ensures RemoveGroup(k, a).list == k.list
  {
    assert k.(groups := k.groups[a := k.groups[a]]) == k;
    RemovedState(k, k.groups[a], a);
    hide Wf, QueuesOk;
  }

  lemma RemovedByWriter(s: Sys, t: Tid, a: Addr, k1: State, threads': map<Tid, Thread>)
    requires Core(s) && t in s.threads && s.threads[t].RemGo? && a in s.k.groups
    requires AsRemoved(s.k, a, s.k.groups[a]) && RemovedFrom(s.k, s.k.groups[a], k1, a) && k1.list == s.k.list
    requires threads' == s.threads[t := WriteOut]
    ensures Core(s.(k := k1, threads := threads', hist := NoteRemoved(s.hist, s.k.groups[a], a)))
  {
    hide AccountInv, CountInv, QueueInv, IdInv, Wf;
    RemovedLists(s.k, s.k.groups[a], k1, a);
    CountBound(s);
    RemovalKeeps(s, s.k.groups[a], k1, a, threads', t);
    WriterSeesCount(s.k.groups, s.k.count, s.threads, t);
    SubsetSize(Active(k1.groups), Active(s.k.groups));
    CountWriter(s.k.groups, k1.groups, s.k.count, k1.count, s.threads, threads', t);
    Assemble(s.(k := k1, threads := threads', hist := NoteRemoved(s.hist, s.k.groups[a], a)));
  }

  lemma CountBound(s: Sys)
    requires Core(s)
    ensures |Active(s.k.groups)| <= GROUP_COUNT
  {}

  lemma OpenKeeps(s: Sys, h: nat, gid: nat, t: Tid)
    requires Core(s) && Safe(s) && h !in s.handles && t !in s.threads
    ensures Core(DoOpen(s, h, gid))
  {
    hide AccountInv, CountInv, QueueInv, IdInv;
    var s1 := DoOpen(s, h, gid);
    var a := OpenTracking(s.k, gid).1;
    if a.Some? {
      CountsKeep(s.k, a.value, Tracked(s.k.groups[a.value]));
      GroupTouched(s, s1.k.groups, a.value, s.threads, t);
    }
    Assemble(DoOpen(s, h, gid));
  }

  /** Steps that change one group's counts only. */
  lemma GroupTouched(s: Sys, groups': map<Addr, Group>, a: Addr, threads': map<Tid, Thread>, t: Tid)
    requires Core(s) && a in s.k.groups && a in groups'
    requires groups' == s.k.groups[a := groups'[a]]
    requires groups'[a] == s.k.groups[a].(useCount := groups'[a].useCount, trackCount := groups'[a].trackCount)
    requires SameOthers(s.threads, threads', t) && Neutral(s.threads, t) && Neutral(threads', t)
    requires OpenedBy(threads', t) == OpenedBy(s.threads, t) && !Releasing(s.threads, t) && !Releasing(threads', t)
    requires t in threads' ==> PhaseOk(t, threads'[t], s.k.events, s.hist)
    requires Handling(threads', t) ==> Claimed(s.hist, threads'[t].e, threads'[t].a)
    ensures Wf(s.k.(groups := groups'))
    ensures AccountInv(groups', s.k.events, threads', s.hist)
    ensures CountInv(groups', s.k.count, threads')
    ensures QueueInv(groups', threads', s.hist, s.posts)
  {
    hide AccountInv, CountInv, QueueInv, IdInv, Wf;
    CountsKeep(s.k, a, groups'[a]);
    forall b, e ensures Listed(groups', b, e) <==> Listed(s.k.groups, b, e) {}
    AccountMove(s.k.groups, groups', s.k.events, s.threads, threads', s.hist, s.hist, t);
    CountOutside(s.k.groups, groups', s.k.count, s.k.count, s.threads, threads', t);
    QueueFrame(s.k.groups, groups', s.threads, threads', s.hist, s.hist, s.posts, t);
  }

  /** Closing any handle, whichever group is found under its id. */
  lemma CloseKeeps(s: Sys, h: nat, t: Tid)
    requires Core(s) && Safe(s) && h in s.handles && t !in s.threads
    ensures Core(DoClose(s, h))
  {
    hide AccountInv, CountInv, QueueInv, IdInv;
    var hd := s.handles[h];
    var found := FindById(s.k.list, s.k.groups, hd.gid);
    if hd.group.None? || found.None? || !s.k.groups[found.value].tracking {
      Assemble(DoClose(s, h));
    } else if s.k.groups[found.value].trackCount == 1 {
      CloseLast(s, h, found.value, t);
    } else {
      CloseOneOfMany(s, h, found.value, t);
    }
  }

  lemma CloseOneOfMany(s: Sys, h: nat, a: Addr, t: Tid)
    requires Core(s) && Safe(s) && h in s.handles && s.handles[h].group.Some? && t !in s.threads
    requires FindById(s.k.list, s.k.groups, s.handles[h].gid) == Some(a)
    requires a in s.k.groups && s.k.groups[a].tracking && s.k.groups[a].trackCount != 1
    ensures Core(DoClose(s, h))
  {
    hide AccountInv, CountInv, QueueInv, IdInv, Wf;
    var groups' := s.k.groups[a := Untracked(s.k.groups[a])];
    GroupTouched(s, groups', a, s.threads, t);
    Assemble(DoClose(s, h));
  }

  lemma CloseLast(s: Sys, h: nat, a: Addr, t: Tid)
    requires Core(s) && Safe(s) && h in s.handles && s.handles[h].group.Some? && t !in s.threads
    requires FindById(s.k.list, s.k.groups, s.handles[h].gid) == Some(a)
    requires a in s.k.groups && s.k.groups[a].tracking && s.k.groups[a].trackCount == 1
    ensures Core(DoClose(s, h))
  {
    var g := s.k.groups[a];
    var g0 := g.(useCount := g.useCount - 1, trackCount := 0);
    NoneDeprecated(s);
    RemovedState(s.k, g0, a);
    var k1 := RemoveGroup(s.k.(groups := s.k.groups[a := g0]), a);
    CloseRemoves(s, h, a, g0);
    hide AccountInv, CountInv, QueueInv, IdInv, RemoveGroup, Wf, DoClose, Safe;
    ClosedLast(s, h, a, t, g0, k1);
  }

  lemma CloseRemoves(s: Sys, h: nat, a: Addr, g0: Group)
    requires Safe(s) && h in s.handles && s.handles[h].group.Some? && QueuesOk(s.k.groups[a := g0], s.k.events)
    requires FindById(s.k.list, s.k.groups, s.handles[h].gid) == Some(a)
    requires a in s.k.groups && s.k.groups[a].tracking && s.k.groups[a].trackCount == 1
    requires g0 == s.k.groups[a].(useCount := s.k.groups[a].useCount - 1, trackCount := 0)
    ensures var k1 := RemoveGroup(s.k.(groups := s.k.groups[a := g0]), a);
      && k1.list == s.k.list
      && DoClose(s, h) == s.(k := k1, handles := s.handles - {h}, hist := NoteRemoved(s.hist, s.k.groups[a], a))
  {
    RemovedFields(s.k, g0, a);
    hide RemoveGroup, QueuesOk;
  }

  lemma ClosedLast(s: Sys, h: nat, a: Addr, t: Tid, g0: Group, k1: State)
    requires Core(s) && h in s.handles && t !in s.threads
    requires AsRemoved(s.k, a, g0) && s.k.groups[a].trackCount == 1 && g0.trackCount == 0
    requires RemovedFrom(s.k, g0, k1, a) && k1.list == s.k.list
    ensures Core(s.(k := k1, handles := s.handles - {h}, hist := NoteRemoved(s.hist, s.k.groups[a], a)))
  {
    hide AccountInv, CountInv, QueueInv, IdInv, Wf;
    RemovalKeeps(s, g0, k1, a, s.threads, t);
    RemovedLists(s.k, g0, k1, a);
    CountOutside(s.k.groups, k1.groups, s.k.count, k1.count, s.threads, s.threads, t);
    Assemble(s.(k := k1, handles := s.handles - {h}, hist := NoteRemoved(s.hist, s.k.groups[a], a)));
  }

  lemma UseEnterKeeps(s: Sys, t: Tid, gid: nat)
    requires Core(s) && Safe(s) && t !in s.threads
    ensures Core(DoUseEnter(s, t, gid))
  {
    hide AccountInv, CountInv, QueueInv, IdInv;
    var found := FindById(s.k.list, s.k.groups, gid);
    if found.Some? { UseTaken(s, t, found.value, GetWait(found.value)); }
  }

  lemma UseDropKeeps(s: Sys, t: Tid)
    requires Core(s) && Safe(s) && t in s.threads && s.threads[t].UseOut?
    ensures Core(DoUseDrop(s, t))
  {
    hide AccountInv, CountInv, QueueInv, IdInv, Wf;
    var s1 := DoUseDrop(s, t);
    GroupTouched(s, s1.k.groups, s.threads[t].a, s1.threads, t);
    Assemble(s1);
  }

  /** A process that holds a group moves on without touching it. */
  lemma HolderMoves(s: Sys, t: Tid)
    requires Core(s) && Safe(s) && t in s.threads && (s.threads[t].GetWait? || s.threads[t].GetClaimed?)
    ensures Core(Goto(s, t, UseOut(s.threads[t].a)))
  {
    hide AccountInv, CountInv, QueueInv, IdInv, Wf;
    var threads' := s.threads[t := UseOut(s.threads[t].a)];
    CountOutside(s.k.groups, s.k.groups, s.k.count, s.k.count, s.threads, threads', t);
    MoveKeeps(s, threads', t);
  }

  lemma ClaimKeepsInv(s: Sys, t: Tid)
    requires Core(s) && Safe(s) && t in s.threads && s.threads[t].GetWait? && s.threads[t].a in s.k.groups
    requires s.k.groups[s.threads[t].a].todo != []
    ensures s.k.groups[s.threads[t].a].todo[0] in s.hist
    ensures Core(DoClaim(s, t))
  {
    var a := s.threads[t].a;
    HeadIsKnown(s, a);
    ClaimKeeps(s.k, a);
    hide AccountInv, CountInv, QueueInv, IdInv, Wf, Safe;
    var k1 := Claim(s.k, a).0;
    var e := s.k.groups[a].todo[0];
    QueueClaim(s.k.groups, s.threads, s.hist, s.posts, t, a, k1.groups[a]);
    hide Claim, NoDup;
    ClaimedInv(s, t, a, e, k1);
  }

  lemma ClaimedInv(s: Sys, t: Tid, a: Addr, e: Addr, k1: State)
    requires Core(s) && t in s.threads && s.threads[t] == GetWait(a) && a in s.k.groups && e in s.hist
    requires a in k1.groups && k1 == s.k.(groups := s.k.groups[a := k1.groups[a]]) && Wf(k1)
    requires k1.groups[a] == s.k.groups[a].(todo := k1.groups[a].todo, working := k1.groups[a].working)
    requires forall f :: k1.groups[a].Holds(f) <==> s.k.groups[a].Holds(f)
    requires QueueInv(k1.groups, s.threads[t := GetClaimed(a, e)], s.hist[e := s.hist[e].(claimed := s.hist[e].claimed + {a})], s.posts)
    ensures Core(s.(k := k1, threads := s.threads[t := GetClaimed(a, e)],
                   hist := s.hist[e := s.hist[e].(claimed := s.hist[e].claimed + {a})]))
  {
    hide AccountInv, CountInv, QueueInv, IdInv, Wf;
    var hist' := s.hist[e := s.hist[e].(claimed := s.hist[e].claimed + {a})];
    forall b, f ensures Listed(k1.groups, b, f) <==> Listed(s.k.groups, b, f) {}
    ListsMoved(s, k1.groups, s.threads[t := GetClaimed(a, e)], hist', t, a);
    IdFrame(s.k.events, s.k.events, s.hist, hist', s.k.lastId, s.posts);
    Assemble(s.(k := k1, threads := s.threads[t := GetClaimed(a, e)], hist := hist'));
  }

  lemma HeadIsKnown(s: Sys, a: Addr)
    requires Core(s) && a in s.k.groups && s.k.groups[a].todo != []
    ensures s.k.groups[a].todo[0] in s.hist && NoDup(s.k.groups[a].todo)
  {
  }

  /** Entries move between the lists of group `a`; everything but their order is as before. */
  lemma ListsMoved(s: Sys, groups': map<Addr, Group>, threads': map<Tid, Thread>, hist': map<Addr, Hist>, t: Tid, a: Addr)
    requires Core(s) && a in s.k.groups && a in groups' && groups' == s.k.groups[a := groups'[a]]
    requires groups'[a] == s.k.groups[a].(todo := groups'[a].todo, working := groups'[a].working)
    requires SameLists(s.k.groups, groups') && SameAnswers(s.hist, hist')
    requires SameOthers(s.threads, threads', t) && t in s.threads && t in threads'
    requires s.threads[t].Held().Some? && threads'[t].Held().Some? && !Releasing(s.threads, t) && !Releasing(threads', t)
    ensures AccountInv(groups', s.k.events, threads', hist')
    ensures CountInv(groups', s.k.count, threads')
  {
    hide AccountInv, CountInv, QueueInv, IdInv, Wf;
    AccountMove(s.k.groups, groups', s.k.events, s.threads, threads', s.hist, hist', t);
    assert Active(groups') == Active(s.k.groups);
    CountOutside(s.k.groups, groups', s.k.count, s.k.count, s.threads, threads', t);
  }

  lemma UnclaimKeepsInv(s: Sys, t: Tid)
    requires Core(s) && Safe(s) && t in s.threads && (s.threads[t].GetClaimed? || s.threads[t].RetRepost?)
    requires s.threads[t].a in s.k.groups && s.k.groups[s.threads[t].a].Holds(s.threads[t].e)
    ensures Core(DoUnclaim(s, t))
  {
    hide AccountInv, CountInv, QueueInv, IdInv, Wf, Safe, Without;
    UnclaimLists(s, t);
    UnclaimedInv(s, t, s.threads[t].a, Unclaim(s.k, s.threads[t].a, s.threads[t].e));
  }

  lemma UnclaimLists(s: Sys, t: Tid)
    requires Core(s) && t in s.threads && (s.threads[t].GetClaimed? || s.threads[t].RetRepost?)
    requires s.threads[t].a in s.k.groups && s.k.groups[s.threads[t].a].Holds(s.threads[t].e)
    ensures var a := s.threads[t].a;
      var k1 := Unclaim(s.k, a, s.threads[t].e);
      && Wf(k1) && QueueInv(k1.groups, s.threads[t := UseOut(a)], s.hist, s.posts)
      && forall f :: k1.groups[a].Holds(f) <==> s.k.groups[a].Holds(f)
  {
    WasClaimed(s, t);
    hide AccountInv, CountInv, QueueInv, IdInv, Wf, Without, NoDup;
    UnclaimKeeps(s.k, s.threads[t].a, s.threads[t].e);
    UnclaimQueue(s.k, s.threads, s.hist, s.posts, t);
  }

  lemma UnclaimQueue(k: State, threads: map<Tid, Thread>, hist: map<Addr, Hist>, posts: nat, t: Tid)
    requires QueueInv(k.groups, threads, hist, posts) && t in threads && (threads[t].GetClaimed? || threads[t].RetRepost?)
    requires threads[t].a in k.groups && k.groups[threads[t].a].Holds(threads[t].e)
    requires Claimed(hist, threads[t].e, threads[t].a)
    requires NoDup(k.groups[threads[t].a].todo) && NoDup(k.groups[threads[t].a].working)
    ensures QueueInv(Unclaim(k, threads[t].a, threads[t].e).groups, threads[t := UseOut(threads[t].a)], hist, posts)
  {
    hide QueueInv, Claimed, NoDup, Without;
    var a := threads[t].a;
    QueueUnclaim(k.groups, threads, threads[t := UseOut(a)], hist, posts, t, a, threads[t].e, Unclaim(k, a, threads[t].e).groups[a]);
  }

  lemma WasClaimed(s: Sys, t: Tid)
    requires Core(s) && t in s.threads && (s.threads[t].GetClaimed? || s.threads[t].RetRepost?) && s.threads[t].a in s.k.groups
    ensures Claimed(s.hist, s.threads[t].e, s.threads[t].a)
    ensures NoDup(s.k.groups[s.threads[t].a].todo) && NoDup(s.k.groups[s.threads[t].a].working)
  {}

  lemma UnclaimedInv(s: Sys, t: Tid, a: Addr, k1: State)
    requires Core(s) && t in s.threads && (s.threads[t].GetClaimed? || s.threads[t].RetRepost?) && s.threads[t].a == a
    requires a in s.k.groups && a in k1.groups && k1 == s.k.(groups := s.k.groups[a := k1.groups[a]]) && Wf(k1)
    requires k1.groups[a] == s.k.groups[a].(todo := k1.groups[a].todo, working := k1.groups[a].working)
    requires forall f :: k1.groups[a].Holds(f) <==> s.k.groups[a].Holds(f)
    requires QueueInv(k1.groups, s.threads[t := UseOut(a)], s.hist, s.posts)
    ensures Core(s.(k := k1, threads := s.threads[t := UseOut(a)]))
  {
    hide AccountInv, CountInv, QueueInv, IdInv, Wf;
    forall b, f ensures Listed(k1.groups, b, f) <==> Listed(s.k.groups, b, f) {}
    ListsMoved(s, k1.groups, s.threads[t := UseOut(a)], s.hist, t, a);
    Assemble(s.(k := k1, threads := s.threads[t := UseOut(a)]));
  }

  lemma RetFinishKeeps(s: Sys, t: Tid)
    requires Core(s) && Safe(s) && t in s.threads && s.threads[t].RetRelease?
    ensures Core(DoRelease(s, t))
  {
    PhaseOf(s, t);
    hide AccountInv, CountInv, QueueInv, IdInv, Wf, Safe, PhaseOk, Release;
    var th := s.threads[t];
    var events' := Release(s.k.events, th.e, true, th.deny);
    var x := if th.deny then Denied else Allowed;
    AccountRelease(s.k.groups, s.k.events, events', s.threads, s.hist, t, x);
    ReleasedInv(s, t, events', x);
  }

  lemma ReleasedInv(s: Sys, t: Tid, events': map<Addr, Event>, x: Status)
    requires Core(s) && t in s.threads && s.threads[t].RetRelease? && s.threads[t].e in s.hist
    requires events'.Keys == s.k.events.Keys && forall e | e in events' :: events'[e].id == s.k.events[e].id
    requires AccountInv(s.k.groups, events', s.threads[t := UseOut(s.threads[t].a)], SetStatus(s.hist, s.threads[t].e, s.threads[t].a, x))
    ensures Core(s.(k := s.k.(events := events'), threads := s.threads[t := UseOut(s.threads[t].a)],
                   hist := SetStatus(s.hist, s.threads[t].e, s.threads[t].a, x)))
  {
    hide AccountInv, CountInv, QueueInv, IdInv, Wf;
    var threads', hist' := s.threads[t := UseOut(s.threads[t].a)], SetStatus(s.hist, s.threads[t].e, s.threads[t].a, x);
    EventsKeep(s.k, events');
    CountOutside(s.k.groups, s.k.groups, s.k.count, s.k.count, s.threads, threads', t);
    QueueFrame(s.k.groups, s.k.groups, s.threads, threads', s.hist, hist', s.posts, t);
    IdFrame(s.k.events, events', s.hist, hist', s.k.lastId, s.posts);
    Assemble(s.(k := s.k.(events := events'), threads := threads', hist := hist'));
  }

  lemma ReturnKeeps(s: Sys, t: Tid, gid: nat, id: nat, response: Response)
    requires Core(s) && Safe(s) && t !in s.threads
    ensures Core(DoReturn(s, t, gid, id, response))
  {
    hide AccountInv, CountInv, QueueInv, IdInv;
    var found := FindById(s.k.list, s.k.groups, gid);
    if found.Some? { ReturnToGroup(s, t, gid, id, response, found.value); }
  }

  lemma ReturnToGroup(s: Sys, t: Tid, gid: nat, id: nat, response: Response, a: Addr)
    requires Core(s) && Safe(s) && t !in s.threads && FindById(s.k.list, s.k.groups, gid) == Some(a)
    ensures Core(DoReturn(s, t, gid, id, response))
  {
    hide Core, Safe, DoReturn;
    GroupIsKnown(s, gid, a);
    var e := FindEvent(s.k.groups[a].working, s.k.events, id);
    if e.None? || response == REPOST {
      ReturnOnlyUses(s, t, gid, id, response, a, e);
      if e.Some? { WorkingWasClaimed(s, a, e.value); }
      UseTaken(s, t, a, if e.None? then UseOut(a) else RetRepost(a, e.value));
    } else {
      ReturnUnlinks(s, t, gid, id, response, a, e.value);
      AnswerKeeps(s, t, a, e.value, response == DENY);
    }
  }

  lemma ReturnOnlyUses(s: Sys, t: Tid, gid: nat, id: nat, response: Response, a: Addr, e: Option<Addr>)
    requires Safe(s) && FindById(s.k.list, s.k.groups, gid) == Some(a)
    requires e == FindEvent(s.k.groups[a].working, s.k.events, id) && (e.None? || response == REPOST)
    ensures DoReturn(s, t, gid, id, response)
         == s.(k := AddUse(s.k, a, 1), threads := s.threads[t := if e.None? then UseOut(a) else RetRepost(a, e.value)])
  {}

  lemma ReturnUnlinks(s: Sys, t: Tid, gid: nat, id: nat, response: Response, a: Addr, e: Addr)
    requires Safe(s) && FindById(s.k.list, s.k.groups, gid) == Some(a)
    requires FindEvent(s.k.groups[a].working, s.k.events, id) == Some(e) && response != REPOST
    ensures e in s.hist
    ensures DoReturn(s, t, gid, id, response)
         == s.(k := s.k.(groups := s.k.groups[a := Answer(s.k.groups[a], e)]),
               threads := s.threads[t := RetRelease(a, e, response == DENY)],
               hist := SetStatus(s.hist, e, a, InFlight(t, response == DENY)))
  {
    assert s.k.groups[a].Holds(e);
  }

  lemma GroupIsKnown(s: Sys, gid: nat, a: Addr)
    requires Core(s) && FindById(s.k.list, s.k.groups, gid) == Some(a)
    ensures a in s.k.groups && forall e | e in s.k.groups[a].working :: e in s.k.events
  {}

  lemma WorkingWasClaimed(s: Sys, a: Addr, e: Addr)
    requires Core(s) && a in s.k.groups && e in s.k.groups[a].working
    ensures Claimed(s.hist, e, a) && e in s.k.events && Listed(s.k.groups, a, e)
  {}

  /** A caller takes hold of a group. */
  lemma UseTaken(s: Sys, t: Tid, a: Addr, th: Thread)
    requires Core(s) && t !in s.threads && a in s.k.groups
    requires th == GetWait(a) || th == UseOut(a) || (th.RetRepost? && th.a == a && Claimed(s.hist, th.e, a))
    ensures Core(s.(k := AddUse(s.k, a, 1), threads := s.threads[t := th]))
  {
    hide AccountInv, CountInv, QueueInv, IdInv, Wf;
    var k1 := AddUse(s.k, a, 1);
    GroupTouched(s, k1.groups, a, s.threads[t := th], t);
    Assemble(s.(k := k1, threads := s.threads[t := th]));
  }

  lemma AnswerKeeps(s: Sys, t: Tid, a: Addr, e: Addr, deny: bool)
    requires Core(s) && t !in s.threads && a in s.k.groups && e in s.k.groups[a].working
    ensures e in s.hist
    ensures Core(s.(k := s.k.(groups := s.k.groups[a := Answer(s.k.groups[a], e)]),
                   threads := s.threads[t := RetRelease(a, e, deny)],
                   hist := SetStatus(s.hist, e, a, InFlight(t, deny))))
  {
    var g := Answer(s.k.groups[a], e);
    WorkingWasClaimed(s, a, e);
    UnlinkKeeps(s.k, a, e, g);
    assert g == s.k.groups[a].(useCount := s.k.groups[a].useCount + 1, working := g.working);
    assert BornInv(s) && AccountInv(s.k.groups, s.k.events, s.threads, s.hist) && Claimed(s.hist, e, a) && e in s.hist;
    hide AccountInv, CountInv, QueueInv, IdInv, Wf, Core, Listed, Without, NoDup;
    AccountUnlink(s.k.groups, g, s.k.events, s.threads, s.hist, t, a, e, deny);
    AnswerCounts(s, t, a, e, deny, g);
    Assemble(s.(k := s.k.(groups := s.k.groups[a := g]), threads := s.threads[t := RetRelease(a, e, deny)],
                hist := SetStatus(s.hist, e, a, InFlight(t, deny))));
  }

  lemma AnswerCounts(s: Sys, t: Tid, a: Addr, e: Addr, deny: bool, g: Group)
    requires Core(s) && t !in s.threads && a in s.k.groups && e in s.hist
    requires g == s.k.groups[a].(useCount := s.k.groups[a].useCount + 1, working := g.working)
    requires forall f | f in g.working :: f in s.k.groups[a].working
    ensures var groups', threads', hist' := s.k.groups[a := g], s.threads[t := RetRelease(a, e, deny)], SetStatus(s.hist, e, a, InFlight(t, deny));
      && CountInv(groups', s.k.count, threads')
      && QueueInv(groups', threads', hist', s.posts) && IdInv(s.k.events, hist', s.k.lastId, s.posts)
  {
    hide AccountInv, CountInv, QueueInv, IdInv, Wf;
    var groups', threads', hist' := s.k.groups[a := g], s.threads[t := RetRelease(a, e, deny)], SetStatus(s.hist, e, a, InFlight(t, deny));
    assert Active(groups') == Active(s.k.groups);
    CountOutside(s.k.groups, groups', s.k.count, s.k.count, s.threads, threads', t);
    QueueFrame(s.k.groups, groups', s.threads, threads', s.hist, hist', s.posts, t);
    IdFrame(s.k.events, s.k.events, s.hist, hist', s.k.lastId, s.posts);
  }

  // ---------------------------------------------------------------- steps that move one caller on

  /** An opener enters, moves on inside the semaphore or leaves it, or moves on after it. */
  lemma OpenerMoves(s: Sys, threads': map<Tid, Thread>, t: Tid)
    requires Core(s) && Safe(s) && SameOthers(s.threads, threads', t)
    requires t in s.threads ==> s.threads[t].Reads() || s.threads[t].OpWait? || s.threads[t].OpWoken?
    requires t in threads' ==> !threads'[t].Writes() && !threads'[t].OpAlloc? && PhaseOk(t, threads'[t], s.k.events, s.hist)
    requires t !in s.threads ==> NoWriter(s.threads)
    requires t in s.threads && t in threads' && threads'[t].Reads() ==> s.threads[t].Reads()
    requires OpenedBy(threads', t) == OpenedBy(s.threads, t)
    requires !Releasing(threads', t) && !Handling(threads', t)
    ensures Core(s.(threads := threads'))
  {
    hide AccountInv, CountInv, QueueInv, IdInv, Wf, Safe, PhaseOk;
    if t in s.threads && !s.threads[t].Reads() {
      CountOutside(s.k.groups, s.k.groups, s.k.count, s.k.count, s.threads, threads', t);
    } else {
      CountReader(s.k.groups, s.k.groups, s.k.count, s.threads, threads', t);
    }
    MoveKeeps(s, threads', t);
  }

  lemma AccessEnterKeeps(s: Sys, t: Tid)
    requires Core(s) && Safe(s) && t !in s.threads && NoWriter(s.threads)
    ensures Core(Goto(s, t, OpStart))
  {
    hide Core, Safe;
    OpenerMoves(s, s.threads[t := OpStart], t);
  }

  lemma AccessNoMemoryKeeps(s: Sys, t: Tid)
    requires Core(s) && Safe(s) && t in s.threads && s.threads[t].OpStart?
    ensures Core(s.(threads := s.threads - {t}))
  {
    hide Core, Safe;
    OpenerMoves(s, s.threads - {t}, t);
  }

  lemma AccessUpKeeps(s: Sys, t: Tid)
    requires Core(s) && Safe(s) && t in s.threads && s.threads[t].OpPosted?
    ensures Core(Goto(s, t, OpWait(s.threads[t].e)))
  {
    hide Core, Safe, PhaseOk;
    PhaseOf(s, t);
    PhaseAdvances(s, t, OpWait(s.threads[t].e));
    OpenerMoves(s, s.threads[t := OpWait(s.threads[t].e)], t);
  }

  lemma PhaseAdvances(s: Sys, t: Tid, th: Thread)
    requires t in s.threads && PhaseOk(t, s.threads[t], s.k.events, s.hist)
    requires s.threads[t].OpPosted? || s.threads[t].OpWoken?
    requires s.threads[t].e in s.k.events
    requires th == if s.threads[t].OpPosted? then OpWait(s.threads[t].e)
                   else OpJudged(s.threads[t].e, s.k.events[s.threads[t].e].deny)
    ensures PhaseOk(t, th, s.k.events, s.hist)
  {}

  lemma AccessWakeKeeps(s: Sys, t: Tid)
    requires Core(s) && Safe(s) && t in s.threads && s.threads[t].OpWait? && s.threads[t].e in s.k.events
    requires s.k.events[s.threads[t].e].assignedCount == 0
    ensures Core(Goto(s, t, OpWoken(s.threads[t].e)))
  {
    hide Core, Safe, PhaseOk;
    PhaseOf(s, t);
    WokenPhase(s, t);
    OpenerMoves(s, s.threads[t := OpWoken(s.threads[t].e)], t);
  }

  lemma AccessJudgeKeeps(s: Sys, t: Tid)
    requires Core(s) && Safe(s) && t in s.threads && s.threads[t].OpWoken?
    ensures s.threads[t].e in s.k.events
    ensures Core(Goto(s, t, OpJudged(s.threads[t].e, s.k.events[s.threads[t].e].deny)))
  {
    hide Core, Safe, PhaseOk;
    PhaseOf(s, t);
    var th := OpJudged(s.threads[t].e, s.k.events[s.threads[t].e].deny);
    PhaseAdvances(s, t, th);
    OpenerMoves(s, s.threads[t := th], t);
  }

  lemma WokenPhase(s: Sys, t: Tid)
    requires Core(s) && t in s.threads && s.threads[t].OpWait? && s.threads[t].e in s.k.events
    requires s.k.events[s.threads[t].e].assignedCount == 0
    ensures PhaseOk(t, OpWoken(s.threads[t].e), s.k.events, s.hist)
  {
  }

  lemma WriterSteps(s: Sys, st: Step)
    requires Core(s) && Safe(s) && Enabled(s, st)
    requires st.AddEnter? || st.RemEnter? || st.RemCheck? || st.WriteUp?
    ensures Core(Next(s, st))
  {
    hide AccountInv, CountInv, QueueInv, IdInv, Wf, Safe;
    WriterMoves(s, Next(s, st).threads, st.t);
  }

  lemma AddRoomKeeps(s: Sys, t: Tid)
    requires Core(s) && Safe(s) && t in s.threads && s.threads[t].AddFresh? && s.k.count != GROUP_COUNT
    ensures Core(Goto(s, t, AddReady(s.threads[t].name, s.threads[t].track, s.threads[t].id)))
  {
    hide Core, Wf, Safe, CountInv;
    var threads' := s.threads[t := AddReady(s.threads[t].name, s.threads[t].track, s.threads[t].id)];
    RoomCount(s, threads', t);
    MoveKeeps(s, threads', t);
  }

  lemma RoomCount(s: Sys, threads': map<Tid, Thread>, t: Tid)
    requires Core(s) && t in s.threads && s.threads[t].AddFresh? && s.k.count != GROUP_COUNT
    requires threads' == s.threads[t := AddReady(s.threads[t].name, s.threads[t].track, s.threads[t].id)]
    ensures CountInv(s.k.groups, s.k.count, threads')
  {
    RoomToAdd(s, t);
    CountWriter(s.k.groups, s.k.groups, s.k.count, s.k.count, s.threads, threads', t);
  }

  lemma RoomToAdd(s: Sys, t: Tid)
    requires Core(s) && t in s.threads && s.threads[t].AddFresh?
    ensures |Active(s.k.groups)| == s.k.count <= GROUP_COUNT
    ensures forall a | a in Active(s.k.groups) ::
              s.k.groups[a].name != s.threads[t].name && s.k.groups[a].id != s.threads[t].id
  {
  }

  lemma AddCountKeeps(s: Sys, t: Tid)
    requires Core(s) && Safe(s) && t in s.threads && s.threads[t].AddLinked?
    ensures Core(Goto(s, t, WriteOut).(k := s.k.(count := s.k.count + 1)))
  {
    hide AccountInv, CountInv, QueueInv, IdInv, Safe, Wf;
    AddIsCounted(s, t);
    CountedWf(s.k);
    var threads' := s.threads[t := WriteOut];
    AccountMove(s.k.groups, s.k.groups, s.k.events, s.threads, threads', s.hist, s.hist, t);
    QueueFrame(s.k.groups, s.k.groups, s.threads, threads', s.hist, s.hist, s.posts, t);
    Assemble(Goto(s, t, WriteOut).(k := s.k.(count := s.k.count + 1)));
  }

  lemma CountedWf(k: State)
    requires Wf(k)
    ensures Wf(k.(count := k.count + 1))
  {}

  lemma AddIsCounted(s: Sys, t: Tid)
    requires Core(s) && t in s.threads && s.threads[t].AddLinked?
    ensures CountInv(s.k.groups, s.k.count + 1, s.threads[t := WriteOut])
  {
    WriterSeesCount(s.k.groups, s.k.count, s.threads, t);
    CountBound(s);
    hide AccountInv, CountInv, QueueInv, IdInv, Wf;
    CountWriter(s.k.groups, s.k.groups, s.k.count, s.k.count + 1, s.threads, s.threads[t := WriteOut], t);
  }

  // ---------------------------------------------------------------- every step

  lemma {:induction false} UpperBound(s: set<nat>) returns (b: nat)
    ensures forall x | x in s :: x < b
  {
    if s == {} { b := 0; } else {
      var x :| x in s;
      b := UpperBound(s - {x});
      b := if x < b then b else x + 1;
      assert forall y | y in s :: y == x || y in s - {x};
    }
  }

  lemma StepKeepsCore(s: Sys, st: Step)
    requires Core(s) && Safe(s) && Enabled(s, st)
    ensures Core(Next(s, st))
  {
    var idle := UpperBound(s.threads.Keys);
    hide Core, Safe;
    match st
    case AccessEnter(t) => AccessEnterKeeps(s, t);
    case AccessNoMemory(t) => AccessNoMemoryKeeps(s, t);
    case AccessAlloc(t, e) => AccessAllocKeeps(s, t, e);
    case AccessPost(t) => AccessPostKeeps(s, t);
    case AccessUp(t) => AccessUpKeeps(s, t);
    case AccessWake(t) => AccessWakeKeeps(s, t);
    case AccessJudge(t) => AccessJudgeKeeps(s, t);
    case AccessFree(t) => AccessFreeKeeps(s, t);
    case AddEnter(t, name, track) => WriterSteps(s, st);
    case AddScan(t) => AddScanKeeps(s, t);
    case AddRoom(t, noMemory) =>
      if s.k.count == GROUP_COUNT || noMemory { WriterMoves(s, s.threads[t := WriteOut], t); } else { AddRoomKeeps(s, t); }
    case AddLink(t, a) => AddLinkKeeps(s, t, a);
    case AddCount(t) => AddCountKeeps(s, t);
    case RemEnter(t, name) => WriterSteps(s, st);
    case RemCheck(t) => WriterSteps(s, st);
    case RemWork(t) => RemWorkKeeps(s, t);
    case WriteUp(t) => WriterSteps(s, st);
    case Open(h, gid) => OpenKeeps(s, h, gid, idle);
    case Close(h) => CloseKeeps(s, h, idle);
    case UseEnter(t, gid) => UseEnterKeeps(s, t, gid);
    case ClaimEvent(t) => ClaimKeepsInv(s, t);
    case OpenOk(t) => HolderMoves(s, t);
    case OpenFailed(t) => UnclaimKeepsInv(s, t);
    case GetLeave(t) => HolderMoves(s, t);
    case Return(t, gid, id, response) => ReturnKeeps(s, t, gid, id, response);
    case RetFinish(t) => RetFinishKeeps(s, t);
    case RetUnclaim(t) => UnclaimKeepsInv(s, t);
    case UseDrop(t) => UseDropKeeps(s, t);
  }
}
