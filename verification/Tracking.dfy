/** Tracking counts. They stay non-negative as long as no close lowers one that is zero, and are right for
    as long as every tracked handle is closed under an id that still is its group's. */
module Tracking {
  import opened Kernel
  import opened Protocol
  import opened Invariant
  import opened KeepsLists
  import opened KeepsCounts
  import opened Preservation
  import opened Registry
  import opened Holding

  // ---------------------------------------------------------------- one count over one step

  /** The step leaves the handles alone and the tracking of the groups it keeps. */
  ghost predicate TracksAlike(s: Sys, s1: Sys) {
    && s1.handles == s.handles && s1.k.groups.Keys <= s.k.groups.Keys && s.born <= s1.born
    && (forall a | a in s1.k.groups ::
          && s1.k.groups[a].trackCount == s.k.groups[a].trackCount && s1.k.groups[a].id == s.k.groups[a].id
          && (s.k.groups[a].tracking ==> s1.k.groups[a].tracking) && (s.k.groups[a].deprecated ==> s1.k.groups[a].deprecated))
  }

  lemma OtherSteps(s: Sys, st: Step)
    requires Core(s) && Safe(s) && Enabled(s, st) && !st.AddLink? && !st.Open? && !st.Close?
    ensures TracksAlike(s, Next(s, st))
  {
    hide Core, Safe, Wf, Next, Enabled;
    GroupStepIs(s, st);
    HoldStepIs(s, st);
    match st
    case AddScan(t) => ScanFacts(s, t); ScanHandles(s, t); hide DoScan;
    case RemWork(t) => RemovedCounts(s, t); RemovalHandles(s, t); hide DoRemove;
    case UseEnter(t, gid) => EnterRegrips(s, t, gid); hide DoUseEnter;
    case UseDrop(t) => DropRegrips(s, t); hide DoUseDrop;
    case Return(t, gid, id, response) => ReturnRegrips(s, t, gid, id, response); hide DoReturn;
    case _ => CountsLeft(s, st);
  }

  lemma ScanHandles(s: Sys, t: Tid)
    requires Safe(s) && t in s.threads && s.threads[t].AddStart?
    ensures DoScan(s, t).handles == s.handles && DoScan(s, t).born == s.born
  {
    hide Safe, Wf, ChooseId;
  }

  lemma RemovalHandles(s: Sys, t: Tid)
    requires Safe(s) && t in s.threads && s.threads[t].RemGo?
    ensures DoRemove(s, t).handles == s.handles && DoRemove(s, t).born == s.born
  {
    hide RemoveByName, NoteRemoved;
  }

  /** A device with the id of `a` is opened, and `a` tracks. */
  ghost predicate Counted(s: Sys, st: Step, a: Addr) {
    st.Open? && a in Active(s.k.groups) && s.k.groups[a].id == st.gid && s.k.groups[a].tracking
  }

  /** The close lowers the count of `a`: the handle was tracked, and `a` now has its id and tracks. */
  ghost predicate Uncounts(s: Sys, st: Step, a: Addr) {
    && st.Close? && st.h in s.handles && s.handles[st.h].group.Some?
    && a in Active(s.k.groups) && s.k.groups[a].id == s.handles[st.h].gid && s.k.groups[a].tracking
  }

  /** A group's tracking count changes exactly when a device is opened on it, and when a tracked handle
      is closed under its id. */
  lemma TrackCountAfter(s: Sys, st: Step, a: Addr)
    requires Core(s) && Safe(s) && Enabled(s, st) && a in Next(s, st).k.groups
    ensures Next(s, st).k.groups[a].trackCount
         == if a !in s.k.groups then 0
            else s.k.groups[a].trackCount + (if Counted(s, st, a) then 1 else 0) - (if Uncounts(s, st, a) then 1 else 0)
  {
    assert Wf(s.k) && ListOk(s.k.list, s.k.groups) && BornInv(s);
    hide Core, Safe, Wf, ListOk, Next, Enabled, Counted, Uncounts;
    OnlyThose(s, st, a);
    GroupStepIs(s, st);
    if st.Open? { HoldStepIs(s, st); }
    if st.AddLink? {
      LinkedCount(s, st.t, st.a, a);
    } else if st.Open? {
      OpenedCount(s, st, a);
    } else if st.Close? {
      ClosedCount(s, st, a);
    } else {
      OtherSteps(s, st);
    }
    hide DoLink, DoOpen, DoClose, OpenTracking, FindById;
  }

  lemma OnlyThose(s: Sys, st: Step, a: Addr)
    ensures Counted(s, st, a) ==> st.Open?
    ensures Uncounts(s, st, a) ==> st.Close?
  {
  }

  lemma OpenedCount(s: Sys, st: Step, a: Addr)
    requires Safe(s) && st.Open? && a in DoOpen(s, st.h, st.gid).k.groups
    ensures a in s.k.groups
    ensures DoOpen(s, st.h, st.gid).k.groups[a].trackCount == s.k.groups[a].trackCount + if Counted(s, st, a) then 1 else 0
  {
    OpenEffect(s, st.h, st.gid);
    OpensExactly(s.k, st.gid, a);
    hide Safe, Wf, DoOpen, OpenTracking;
  }

  lemma OpensExactly(k: State, gid: nat, a: Addr)
    requires Wf(k)
    ensures OpenTracking(k, gid).1 == Some(a) <==> a in Active(k.groups) && k.groups[a].id == gid && k.groups[a].tracking
  {
  }

  lemma ClosedCount(s: Sys, st: Step, a: Addr)
    requires Safe(s) && st.Close? && st.h in s.handles && a in DoClose(s, st.h).k.groups
    ensures a in s.k.groups
    ensures DoClose(s, st.h).k.groups[a].trackCount == s.k.groups[a].trackCount - if Uncounts(s, st, a) then 1 else 0
  {
    CloseEffect(s, st.h);
    FoundIsGroup(s.k, s.handles[st.h].gid);
    LookupIsUnique(s.k, s.handles[st.h].gid, a);
    hide Safe, Wf, DoClose, FindById;
  }

  lemma LinkedCount(s: Sys, t: Tid, b: Addr, a: Addr)
    requires t in s.threads && s.threads[t].AddReady? && b !in s.born && s.k.groups.Keys <= s.born
    requires a in DoLink(s, t, b).k.groups
    ensures DoLink(s, t, b).k.groups[a].trackCount == if a in s.k.groups then s.k.groups[a].trackCount else 0
  {
  }

  /** The close lowers a count that is zero or less, and so passes over the removal. */
  ghost predicate Undercuts(s: Sys, st: Step) {
    exists a :: Uncounts(s, st, a) && s.k.groups[a].trackCount <= 0
  }

  /** Counts become negative exactly by such a close. */
  lemma NegativeExactly(s: Sys, st: Step)
    requires Core(s) && Safe(s) && Enabled(s, st) && NonNegative(s.k.groups)
    ensures NonNegative(Next(s, st).k.groups) <==> !Undercuts(s, st)
  {
    var s1 := Next(s, st);
    assert ListOk(s.k.list, s.k.groups);
    hide Core, Safe, Next, Enabled, Uncounts, Counted;
    forall a | a in s1.k.groups ensures s1.k.groups[a].trackCount >= 0 || Undercuts(s, st) { TrackCountAfter(s, st, a); }
    if Undercuts(s, st) {
      var a :| Uncounts(s, st, a) && s.k.groups[a].trackCount <= 0;
      UncountedStays(s, st, a);
      TrackCountAfter(s, st, a);
    }
  }

  lemma UncountedStays(s: Sys, st: Step, a: Addr)
    requires Core(s) && Safe(s) && Enabled(s, st) && Uncounts(s, st, a)
    ensures a in s.k.groups && a in Next(s, st).k.groups && !Counted(s, st, a)
  {
    GroupStepIs(s, st);
    CloseEffect(s, st.h);
    hide Core, Safe, Wf, Next, Enabled, DoClose, FindById;
  }

  /** As long as no close lowers a count that is zero, every step leads to a state where the counts are not
      negative and everything held is live. */
  lemma StepKeepsSafeInv(s: Sys, st: Step)
    requires SafeInv(s) && Safe(s) && Enabled(s, st) && !Undercuts(s, st)
    ensures SafeInv(Next(s, st)) && Safe(Next(s, st))
  {
    assert Core(s) && UseInv(s.k.groups, s.threads) && NonNegative(s.k.groups);
    hide Core, Safe, Next, Enabled, UseInv, HeldLive, Undercuts;
    StepKeepsCore(s, st);
    StepKeepsUse(s, st);
    NegativeExactly(s, st);
    StaysSafeExactly(s, st);
    CoreIsSafeExactly(Next(s, st));
  }

  // ---------------------------------------------------------------- counts and handles

  /** A close that matches lowers no count that is zero: the handle is one of those counted. */
  lemma MatchingCounts(s: Sys, st: Step)
    requires Inv(s) && Safe(s) && Enabled(s, st) && HandleMatches(s, st)
    ensures !Undercuts(s, st)
  {
    assert TrackInv(s.k.groups, s.handles, s.born);
    hide Core, CountsInv;
    forall a | Uncounts(s, st, a) ensures s.k.groups[a].trackCount > 0 {
      assert a in s.k.groups && !s.k.groups[a].deprecated && st.h in Trackers(s.handles, a);
    }
  }

  lemma AlikeTracks(s: Sys, s1: Sys)
    requires TrackInv(s.k.groups, s.handles, s.born) && TracksAlike(s, s1)
    ensures TrackInv(s1.k.groups, s1.handles, s1.born)
  {
    hide TrackInv;
    TrackFrame(s.k.groups, s1.k.groups, s.handles, s.born, s1.born);
  }

  lemma LinkTracks(s: Sys, t: Tid, a: Addr)
    requires Core(s) && TrackInv(s.k.groups, s.handles, s.born) && t in s.threads && s.threads[t].AddReady? && a !in s.born
    ensures var s1 := DoLink(s, t, a);
      TrackInv(s1.k.groups, s1.handles, s1.born)
  {
    assert BornInv(s);
    hide Core, TrackInv, LinkGroup;
    var th := s.threads[t];
    TrackLink(s.k, a, th.name, th.id, th.track, s.handles, s.born);
  }

  lemma OpenTracks(s: Sys, h: nat, gid: nat)
    requires Core(s) && Safe(s) && TrackInv(s.k.groups, s.handles, s.born) && h !in s.handles
    ensures var s1 := DoOpen(s, h, gid);
      TrackInv(s1.k.groups, s1.handles, s1.born)
  {
    assert BornInv(s) && Wf(s.k);
    hide Core, Safe, TrackInv, Wf, DoOpen, OpenTracking;
    OpenEffect(s, h, gid);
    TrackOpen(s.k.groups, DoOpen(s, h, gid).k.groups, OpenTracking(s.k, gid).1, h, gid, s.handles, s.born);
  }

  /** Closing a handle that counts for no active group, or for the group found. */
  lemma CloseTracks(s: Sys, h: nat)
    requires Core(s) && Safe(s) && TrackInv(s.k.groups, s.handles, s.born) && h in s.handles && HandleMatches(s, Close(h))
    ensures var s1 := DoClose(s, h);
      TrackInv(s1.k.groups, s1.handles, s1.born)
  {
    assert Wf(s.k);
    hide *;
    ClosedGroup(s, h);
    CloseEffect(s, h);
    var found := if CountsForFound(s, h) then FindById(s.k.list, s.k.groups, s.handles[h].gid) else None;
    TrackClose(s.k.groups, found, h, s.handles, s.born);
  }

  lemma ClosedGroup(s: Sys, h: nat)
    requires Core(s) && TrackInv(s.k.groups, s.handles, s.born) && Wf(s.k) && h in s.handles && HandleMatches(s, Close(h))
    ensures var hd := s.handles[h];
      var found := FindById(s.k.list, s.k.groups, hd.gid);
      if CountsForFound(s, h) then found == hd.group && found.value in s.k.groups && !s.k.groups[found.value].deprecated
      else hd.group.Some? && hd.group.value in s.k.groups ==> s.k.groups[hd.group.value].deprecated
  {
    if s.handles[h].group.Some? { NoActiveGroup(s, h); }
  }

  lemma NoActiveGroup(s: Sys, h: nat)
    requires Core(s) && TrackInv(s.k.groups, s.handles, s.born) && h in s.handles && s.handles[h].group.Some?
    ensures var a := s.handles[h].group.value;
      a in s.k.groups && !s.k.groups[a].deprecated ==>
        s.k.groups[a].tracking && FindById(s.k.list, s.k.groups, s.handles[h].gid) == Some(a)
  {
  }

  lemma StepTracks(s: Sys, st: Step)
    requires Core(s) && Safe(s) && TrackInv(s.k.groups, s.handles, s.born) && Enabled(s, st) && HandleMatches(s, st)
    ensures TrackInv(Next(s, st).k.groups, Next(s, st).handles, Next(s, st).born)
  {
    hide Core, Safe, Next, Enabled, TrackInv, HandleMatches;
    GroupStepIs(s, st);
    HoldStepIs(s, st);
    match st
    case AddLink(t, a) => LinkTracks(s, t, a);
    case Open(h, gid) => OpenTracks(s, h, gid);
    case Close(h) => CloseTracks(s, h);
    case _ => OtherSteps(s, st); AlikeTracks(s, Next(s, st));
  }

  /** Every step keeps the whole invariant, provided a tracked handle is closed rightly. */
  lemma StepKeepsInv(s: Sys, st: Step)
    requires Inv(s) && Safe(s) && Enabled(s, st) && HandleMatches(s, st)
    ensures Inv(Next(s, st))
  {
    hide Core, CountsInv, TrackInv, Safe, Next, Enabled, HandleMatches, Undercuts;
    MatchingCounts(s, st);
    StepKeepsSafeInv(s, st);
    StepTracks(s, st);
  }
}
