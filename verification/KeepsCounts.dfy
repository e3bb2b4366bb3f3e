/** `group_count`, the containers allocated ahead of posting, and the use and tracking counts. */
module KeepsCounts {
  import opened Kernel
  import opened Protocol
  import opened Invariant

  predicate SameOthers(threads: map<Tid, Thread>, threads': map<Tid, Thread>, t: Tid) {
    && (forall u | u in threads && u != t :: u in threads' && threads'[u] == threads[u])
    && (forall u | u in threads' && u != t :: u in threads)
  }

  predicate Neutral(threads: map<Tid, Thread>, t: Tid) {
    t in threads ==> !threads[t].Reads() && !threads[t].Writes()
  }

  /** The active groups keep their names and ids; some may be gone. */
  ghost predicate Shrunk(groups: map<Addr, Group>, groups': map<Addr, Group>) {
    && Active(groups') <= Active(groups)
    && forall a | a in Active(groups') :: groups'[a].name == groups[a].name && groups'[a].id == groups[a].id
  }

  /** Steps outside the semaphore: group updates, and removals by a tracked close. */
  lemma CountOutside(groups: map<Addr, Group>, groups': map<Addr, Group>, count: int, count': int,
                     threads: map<Tid, Thread>, threads': map<Tid, Thread>, t: Tid)
    requires CountInv(groups, count, threads) && Shrunk(groups, groups')
    requires count' - count == |Active(groups')| - |Active(groups)|
    requires SameOthers(threads, threads', t) && Neutral(threads, t) && Neutral(threads', t)
    ensures CountInv(groups', count', threads')
  {
    SubsetSize(Active(groups'), Active(groups));
    assert PendingAdd(threads') == PendingAdd(threads) by {
      if u :| u in threads && threads[u].AddLinked? { assert u in threads' && threads'[u].AddLinked?; }
      if u :| u in threads' && threads'[u].AddLinked? { assert u in threads && threads[u].AddLinked?; }
    }
  }

  /** An opener enters, moves on inside or leaves the read side. */
  lemma CountReader(groups: map<Addr, Group>, groups': map<Addr, Group>, count: int,
                    threads: map<Tid, Thread>, threads': map<Tid, Thread>, t: Tid)
    requires CountInv(groups, count, threads) && Shrunk(groups, groups') && Active(groups') == Active(groups)
    requires SameOthers(threads, threads', t)
    requires t in threads ==> threads[t].Reads()
    requires t in threads' ==> !threads'[t].Writes() && (t !in threads ==> NoWriter(threads))
    requires t in threads' && threads'[t].OpAlloc? ==> t in threads && threads'[t].n == count
    ensures CountInv(groups', count, threads')
  {
  }

  /** A writer enters, moves on inside or leaves. */
  lemma CountWriter(groups: map<Addr, Group>, groups': map<Addr, Group>, count: int, count': int,
                    threads: map<Tid, Thread>, threads': map<Tid, Thread>, t: Tid)
    requires CountInv(groups, count, threads) && SameOthers(threads, threads', t)
    requires if t in threads then threads[t].Writes() else NoWriter(threads) && NoReader(threads)
    requires t in threads' ==> threads'[t].Writes()
    requires |Active(groups')| == count' + (if t in threads' && threads'[t].AddLinked? then 1 else 0)
    requires |Active(groups')| <= GROUP_COUNT
    requires t in threads' && threads'[t].AddReady? ==> |Active(groups')| < GROUP_COUNT
    requires t in threads' && (threads'[t].AddFresh? || threads'[t].AddReady?) ==>
               forall a | a in Active(groups') :: groups'[a].name != threads'[t].name && groups'[a].id != threads'[t].id
    ensures CountInv(groups', count', threads')
  {
  }

  /** A writer knows whether its own addition is still to be counted. */
  lemma WriterSeesCount(groups: map<Addr, Group>, count: int, threads: map<Tid, Thread>, t: Tid)
    requires CountInv(groups, count, threads) && t in threads && threads[t].Writes()
    ensures |Active(groups)| == count + (if threads[t].AddLinked? then 1 else 0)
  {
  }

  lemma IdleSemaphoreCount(groups: map<Addr, Group>, count: int, threads: map<Tid, Thread>)
    requires CountInv(groups, count, threads) && NoWriter(threads)
    ensures |Active(groups)| == count
  {
  }

  // ---------------------------------------------------------------- use counts

  function HeldBy(threads: map<Tid, Thread>, t: Tid): Option<Addr> {
    if t in threads then threads[t].Held() else None
  }

  lemma UsersUpdate(threads: map<Tid, Thread>, threads': map<Tid, Thread>, t: Tid, a: Addr)
    requires SameOthers(threads, threads', t)
    ensures Users(threads', a)
         == if HeldBy(threads', t) == Some(a) then Users(threads, a) + {t} else Users(threads, a) - {t}
    ensures t in Users(threads, a) <==> HeldBy(threads, t) == Some(a)
  {}

  /** The counts of every group move with what caller `t` takes hold of and lets go, new groups are
      unused, and only groups with use count zero are freed. */
  ghost predicate MoveTogether(groups: map<Addr, Group>, groups': map<Addr, Group>,
                               threads: map<Tid, Thread>, threads': map<Tid, Thread>, t: Tid)
  {
    && SameOthers(threads, threads', t)
    && (HeldBy(threads', t).Some? ==> HeldBy(threads', t).value in groups')
    && (HeldBy(threads, t).Some? ==> HeldBy(threads, t).value in groups')
    && (forall a | a in groups && a !in groups' :: groups[a].useCount == 0)
    && (forall a | a in groups' && a !in groups ::
          groups'[a].useCount == 0 && groups'[a].trackCount == 0 && HeldBy(threads', t) != Some(a))
    && (forall a | a in groups && a in groups' ::
          (groups'[a].useCount - groups'[a].trackCount - (groups[a].useCount - groups[a].trackCount)
        == (if HeldBy(threads', t) == Some(a) then 1 else 0) - (if HeldBy(threads, t) == Some(a) then 1 else 0)))
  }

  lemma UseStep(groups: map<Addr, Group>, groups': map<Addr, Group>, threads: map<Tid, Thread>, threads': map<Tid, Thread>, t: Tid)
    requires UseInv(groups, threads) && HeldLive(groups, threads) && MoveTogether(groups, groups', threads, threads', t)
    ensures UseInv(groups', threads')
  {
    forall a | a in groups' ensures groups'[a].useCount == groups'[a].trackCount + |Users(threads', a)| {
      UsersUpdate(threads, threads', t, a);
      if a !in groups {
        assert Users(threads, a) == {};
      }
    }
  }

  /** A group is freed whose tracking count was negative. */
  ghost predicate FreesNegative(groups: map<Addr, Group>, groups': map<Addr, Group>) {
    exists a :: a in groups && a !in groups' && groups[a].trackCount < 0
  }

  /** Where use counts are right, that is exactly to free a group that is held. */
  lemma HeldStep(groups: map<Addr, Group>, groups': map<Addr, Group>, threads: map<Tid, Thread>, threads': map<Tid, Thread>, t: Tid)
    requires UseInv(groups, threads) && HeldLive(groups, threads) && MoveTogether(groups, groups', threads, threads', t)
    ensures HeldLive(groups', threads') <==> !FreesNegative(groups, groups')
  {
    if a :| a in groups && a !in groups' && groups[a].trackCount < 0 {
      var u :| u in Users(threads, a);
      assert u != t && threads'[u].Held() == Some(a);
    }
    forall u | u in threads' && threads'[u].Held().Some? && threads'[u].Held().value !in groups'
      ensures FreesNegative(groups, groups')
    {
      assert u != t;
      assert u in Users(threads, threads[u].Held().value);
    }
  }

  // ---------------------------------------------------------------- tracking counts

  /** Group updates that leave tracking alone, removals of any kind, and freeing. */
  lemma TrackFrame(groups: map<Addr, Group>, groups': map<Addr, Group>, handles: map<nat, Handle>, born: set<Addr>, born': set<Addr>)
    requires TrackInv(groups, handles, born) && groups'.Keys <= groups.Keys && born <= born'
    requires forall a | a in groups' ::
               && groups'[a].trackCount == groups[a].trackCount && groups'[a].id == groups[a].id
               && (groups[a].tracking ==> groups'[a].tracking) && (groups[a].deprecated ==> groups'[a].deprecated)
    ensures TrackInv(groups', handles, born')
  {}

  lemma TrackLink(k: State, a: Addr, name: string, id: nat, track: bool, handles: map<nat, Handle>, born: set<Addr>)
    requires TrackInv(k.groups, handles, born) && a !in born && k.groups.Keys <= born
    ensures TrackInv(LinkGroup(k, a, name, id, track).groups, handles, born + {a})
  {
  }

  function Tracked(g: Group): Group { g.(useCount := g.useCount + 1, trackCount := g.trackCount + 1) }

  lemma OneMoreTracker(handles: map<nat, Handle>, h: nat, gid: nat, a: Option<Addr>, b: Addr)
    requires h !in handles
    ensures |Trackers(handles[h := Handle(gid, a)], b)| == |Trackers(handles, b)| + if a == Some(b) then 1 else 0
  {
    assert Trackers(handles[h := Handle(gid, a)], b) == if a == Some(b) then Trackers(handles, b) + {h} else Trackers(handles, b);
  }

  lemma TrackOpen(groups: map<Addr, Group>, groups': map<Addr, Group>, a: Option<Addr>, h: nat, gid: nat,
                  handles: map<nat, Handle>, born: set<Addr>)
    requires TrackInv(groups, handles, born) && h !in handles && groups.Keys <= born
    requires a.Some? ==> a.value in groups && groups[a.value].tracking && groups[a.value].id == gid
    requires groups' == if a.Some? then groups[a.value := Tracked(groups[a.value])] else groups
    ensures TrackInv(groups', handles[h := Handle(gid, a)], born)
  {
    var handles' := handles[h := Handle(gid, a)];
    forall b | b in groups' && !groups'[b].deprecated ensures groups'[b].trackCount == |Trackers(handles', b)| {
      OneMoreTracker(handles, h, gid, a, b);
    }
  }

  /** What closing a tracked handle does to the groups. */
  lemma CloseTrackingGroups(k: State, gid: nat)
    requires Wf(k)
    ensures CloseTracking(k, gid).groups
         == match FindById(k.list, k.groups, gid)
            case None => k.groups
            case Some(a) =>
              if k.groups[a].tracking then k.groups[a := Untracked(k.groups[a])] else k.groups
  {
    hide ReleaseAll, NoDup;
  }

  function Untracked(g: Group): Group {
    var g1 := g.(useCount := g.useCount - 1, trackCount := g.trackCount - 1);
    if g.trackCount == 1 then g1.(deprecated := true, todo := [], working := []) else g1
  }

  /** Closing a handle whose group is the one found, or is no longer active. */
  lemma TrackClose(groups: map<Addr, Group>, a: Option<Addr>, h: nat, handles: map<nat, Handle>, born: set<Addr>)
    requires TrackInv(groups, handles, born) && h in handles
    requires a.Some? ==> a.value in groups && !groups[a.value].deprecated && handles[h].group == a
    requires a.None? && handles[h].group.Some? && handles[h].group.value in groups ==> groups[handles[h].group.value].deprecated
    ensures TrackInv(if a.Some? then groups[a.value := Untracked(groups[a.value])] else groups, handles - {h}, born)
  {
    var handles' := handles - {h};
    forall b | b in groups
      ensures |Trackers(handles', b)| == |Trackers(handles, b)| - if handles[h].group == Some(b) then 1 else 0
      ensures handles[h].group == Some(b) ==> |Trackers(handles, b)| > 0
    {
      assert Trackers(handles', b) == Trackers(handles, b) - {h};
      assert h in Trackers(handles, b) <==> handles[h].group == Some(b);
    }
  }
}
