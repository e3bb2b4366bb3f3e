/** Which groups are active, when they stop being so, and when they are freed. */
module Groups {
  import opened Kernel
  import opened Protocol
  import opened Invariant
  import opened KeepsLists
  import opened KeepsCounts
  import opened Preservation
  import opened Holding
  import opened Tracking
  import opened Registry
  import opened Verdicts

  // ---------------------------------------------------------------- active groups

  /** What takes a group out of use: a removal by its name, or the close of a tracked handle under its
      id when its tracking count is one. */
  ghost predicate Deactivates(s: Sys, st: Step, a: Addr)
    requires Safe(s) && Enabled(s, st) && a in s.k.groups
  {
    || (st.RemWork? && s.k.groups[a].name == s.threads[st.t].name)
    || (st.Close? && s.handles[st.h].group.Some? && s.k.groups[a].id == s.handles[st.h].gid
        && s.k.groups[a].tracking && s.k.groups[a].trackCount == 1)
  }

  /** Steps that leave it alone which groups there are and which are active. */
  predicate Calm(st: Step) { !st.AddScan? && !st.AddLink? && !st.RemWork? && !st.Close? }

  ghost predicate SameGroups(groups: map<Addr, Group>, groups': map<Addr, Group>) {
    && groups'.Keys == groups.Keys
    && forall a | a in groups ::
         groups'[a].name == groups[a].name && groups'[a].id == groups[a].id && groups'[a].deprecated == groups[a].deprecated
  }

  lemma CalmStep(s: Sys, st: Step)
    requires Safe(s) && Enabled(s, st) && Calm(st)
    ensures SameGroups(s.k.groups, Next(s, st).k.groups)
  {
    hide Safe, Wf, Next, Enabled;
    HoldStepIs(s, st);
    match st
    case Open(h, gid) => OpenEffect(s, h, gid); hide DoOpen, OpenTracking;
    case UseEnter(t, gid) => EnterRegrips(s, t, gid); hide DoUseEnter;
    case UseDrop(t) => DropRegrips(s, t); hide DoUseDrop;
    case Return(t, gid, id, response) => ReturnRegrips(s, t, gid, id, response); hide DoReturn;
    case _ => CountsLeft(s, st);
  }

  /** A group is active after a step exactly if it was linked by it, or was active and is not taken
      out of use. */
  lemma ActiveExactly(s: Sys, st: Step, a: Addr)
    requires Core(s) && Safe(s) && Enabled(s, st)
    ensures a in Active(Next(s, st).k.groups) <==>
              (st.AddLink? && a == st.a) || (a in Active(s.k.groups) && !Deactivates(s, st, a))
  {
    hide Core, Safe, Wf, Next, Enabled;
    GroupStepIs(s, st);
    match st
    case AddScan(t) => ScanFacts(s, t); hide DoScan;
    case AddLink(t, b) => LinkActivates(s, t, b); hide DoLink;
    case RemWork(t) => RemovalDeactivates(s, t, a); hide DoRemove;
    case Close(h) => CloseDeactivates(s, h, a); hide DoClose;
    case _ => CalmStep(s, st);
  }

  /** An active group has the name and id it was linked with. */
  lemma NamesAndIdsStay(s: Sys, st: Step, a: Addr)
    requires Core(s) && Safe(s) && Enabled(s, st) && a in Active(Next(s, st).k.groups)
    ensures var g1 := Next(s, st).k.groups[a];
      if st.AddLink? && a == st.a then g1.name == s.threads[st.t].name && g1.id == s.threads[st.t].id
      else a in s.k.groups && g1.name == s.k.groups[a].name && g1.id == s.k.groups[a].id
  {
    hide Core, Safe, Wf;
    if st.AddLink? {
      hide DoReturn, DoClose;
    } else {
      OldNamesStay(s, st, a);
      hide Next, Enabled;
    }
  }

  lemma OldNamesStay(s: Sys, st: Step, a: Addr)
    requires Core(s) && Safe(s) && Enabled(s, st) && !st.AddLink? && a in Next(s, st).k.groups
    ensures a in s.k.groups && Next(s, st).k.groups[a].name == s.k.groups[a].name && Next(s, st).k.groups[a].id == s.k.groups[a].id
  {
    hide Core, Safe, Wf, Next, Enabled;
    GroupStepIs(s, st);
    match st
    case AddScan(t) => ScanFacts(s, t); hide DoScan;
    case RemWork(t) => RemovedCounts(s, t); hide DoRemove;
    case Close(h) => CloseKeepsNames(s, h, a); hide DoClose;
    case _ => CalmStep(s, st);
  }

  lemma CloseKeepsNames(s: Sys, h: nat, a: Addr)
    requires Safe(s) && h in s.handles && a in DoClose(s, h).k.groups
    ensures a in s.k.groups && DoClose(s, h).k.groups[a].name == s.k.groups[a].name && DoClose(s, h).k.groups[a].id == s.k.groups[a].id
  {
    CloseEffect(s, h);
    FoundIsKnown(s.k, s.handles[h].gid);
    hide Safe, Wf, DoClose, FindById;
  }

  lemma LinkActivates(s: Sys, t: Tid, a: Addr)
    requires Core(s) && t in s.threads && s.threads[t].AddReady? && a !in s.born
    ensures Active(DoLink(s, t, a).k.groups) == Active(s.k.groups) + {a}
  {
    hide Core;
    LinkKeepsWf(s, t, a);
  }

  lemma RemovalDeactivates(s: Sys, t: Tid, a: Addr)
    requires Safe(s) && t in s.threads && s.threads[t].RemGo?
    ensures a in Active(DoRemove(s, t).k.groups) <==> a in Active(s.k.groups) && s.k.groups[a].name != s.threads[t].name
  {
    hide ReleaseAll, NoteRemoved;
    var found := FindByName(s.k.list, s.k.groups, s.threads[t].name);
    assert a in s.k.groups ==> a in s.k.list;
    assert found.Some? ==> found.value in Active(s.k.groups);
    hide FindByName;
  }

  lemma CloseDeactivates(s: Sys, h: nat, a: Addr)
    requires Safe(s) && h in s.handles
    ensures a in Active(DoClose(s, h).k.groups) <==>
      a in Active(s.k.groups)
      && !(s.handles[h].group.Some? && s.k.groups[a].id == s.handles[h].gid && s.k.groups[a].tracking && s.k.groups[a].trackCount == 1)
  {
    LookupIsUnique(s.k, s.handles[h].gid, a);
    CloseEffect(s, h);
    FoundIsKnown(s.k, s.handles[h].gid);
    hide Safe, Wf, DoClose, FindById;
  }

  lemma FoundIsKnown(k: State, gid: nat)
    requires Wf(k)
    ensures var found := FindById(k.list, k.groups, gid);
      found.Some? ==> found.value in Active(k.groups)
  {
  }

  // ---------------------------------------------------------------- freeing

  lemma OnlyScansFree(s: Sys, st: Step, a: Addr)
    requires Core(s) && Safe(s) && Enabled(s, st) && a in s.k.groups && a !in Next(s, st).k.groups
    ensures st.AddScan? && s.k.groups[a].deprecated && s.k.groups[a].useCount == 0
  {
    hide Core, Safe, Wf, Next, Enabled;
    GroupStepIs(s, st);
    match st
    case AddScan(t) => ScanFacts(s, t); hide DoScan;
    case AddLink(t, b) =>
    case RemWork(t) => RemovedCounts(s, t); hide DoRemove;
    case Close(h) => CloseEffect(s, h); hide DoClose, FindById;
    case _ => CalmStep(s, st);
  }

  /** A group is freed only by a scan, after its removal, and then as many calls hold it as its tracking
      count is below zero: none exactly if it is not negative. */
  lemma FreedGroupsAreUnused(s: Sys, st: Step, a: Addr)
    requires Core(s) && Safe(s) && UseInv(s.k.groups, s.threads) && Enabled(s, st)
    requires a in s.k.groups && a !in Next(s, st).k.groups
    ensures st.AddScan? && s.k.groups[a].deprecated && |Users(s.threads, a)| == -s.k.groups[a].trackCount
    ensures Users(s.threads, a) == {} <==> s.k.groups[a].trackCount >= 0
  {
    OnlyScansFree(s, st, a);
    hide Core, Safe, Next, Enabled;
  }

  /** Over every run, the use count of a group is the calls that hold it plus its tracking count. */
  lemma UseCountIsExact(run: seq<Step>, a: Addr)
    requires Legal(run) && a in At(run).k.groups
    ensures var s := At(run);
      s.k.groups[a].useCount == s.k.groups[a].trackCount + |Users(s.threads, a)|
  {
    RunsKeepUse(run);
  }

  /** Over every run that closes handles rightly, an active group's tracking count is the number of open
      handles counted on it. */
  lemma TrackCountIsExact(run: seq<Step>, a: Addr)
    requires Legal(run) && Matched(run) && a in Active(At(run).k.groups)
    ensures At(run).k.groups[a].trackCount == |Trackers(At(run).handles, a)|
  {
    RunsKeepInv(run);
    hide SafeInv, Safe;
  }

  // ---------------------------------------------------------------- tracking

  /** What a close must do: keep the counts of the active groups equal to their open handles, and
      remove a group exactly when the handle was its last. */
  ghost predicate ClosesRight(s: Sys, h: nat)
    requires Safe(s) && h in s.handles
  {
    var s1 := DoClose(s, h);
    && TrackInv(s1.k.groups, s1.handles, s1.born)
    && forall a | a in Active(s.k.groups) ::
         a !in Active(s1.k.groups) <==> Trackers(s.handles, a) == {h}
  }

  /** It does so exactly when the id of the handle has not passed to another group that tracks. */
  lemma CloseIsRightExactly(s: Sys, h: nat)
    requires Inv(s) && Safe(s) && h in s.handles
    ensures ClosesRight(s, h) <==> HandleMatches(s, Close(h))
  {
    hide SafeInv, TrackInv;
    if HandleMatches(s, Close(h)) {
      MatchedCloseIsRight(s, h);
    } else {
      MismatchedCloseIsWrong(s, h);
    }
  }

  lemma CloseActive(s: Sys, h: nat, a: Addr)
    requires Inv(s) && Safe(s) && h in s.handles && a in s.k.groups
    ensures var s1 := DoClose(s, h);
      && a in s1.k.groups
      && s1.k.groups[a] == if s.handles[h].group.Some? && FindById(s.k.list, s.k.groups, s.handles[h].gid) == Some(a) && s.k.groups[a].tracking
                           then Untracked(s.k.groups[a]) else s.k.groups[a]
  {
    CloseEffect(s, h);
    hide Core, DoClose, FindById;
  }

  lemma MatchedCloseIsRight(s: Sys, h: nat)
    requires Inv(s) && Safe(s) && h in s.handles && HandleMatches(s, Close(h))
    ensures ClosesRight(s, h)
  {
    hide Safe, Wf, Core, CountsInv;
    CloseTracks(s, h);
    var s1 := DoClose(s, h);
    forall a | a in Active(s.k.groups) ensures a !in Active(s1.k.groups) <==> Trackers(s.handles, a) == {h} {
      CloseActive(s, h, a);
      LastTracker(s.handles, h, a);
      if s.handles[h].group == Some(a) { NoActiveGroup(s, h); }
    }
  }

  lemma LastTracker(handles: map<nat, Handle>, h: nat, a: Addr)
    requires h in handles
    ensures Trackers(handles, a) == {h} <==> handles[h].group == Some(a) && |Trackers(handles, a)| == 1
  {
    if handles[h].group == Some(a) && |Trackers(handles, a)| == 1 {
      assert h in Trackers(handles, a);
      assert |Trackers(handles, a) - {h}| == 0;
    }
    if Trackers(handles, a) == {h} { assert h in Trackers(handles, a); }
  }

  lemma MismatchedCloseIsWrong(s: Sys, h: nat)
    requires Inv(s) && Safe(s) && h in s.handles && !HandleMatches(s, Close(h))
    ensures !ClosesRight(s, h)
  {
    hide Core, CountsInv;
    var b := FindById(s.k.list, s.k.groups, s.handles[h].gid).value;
    CloseActive(s, h, b);
    LastTracker(s.handles, h, b);
    hide Wf, DoClose;
    assert Trackers(s.handles - {h}, b) == Trackers(s.handles, b);
  }
}
