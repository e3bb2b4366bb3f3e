/** What each step does to the counts of the groups and to what the callers hold. Use counts are right in
    every reachable state, so a group is freed under a call that holds it exactly if its tracking count
    was negative. */
module Holding {
  import opened Kernel
  import opened Protocol
  import opened Invariant
  import opened KeepsLists
  import opened KeepsCounts
  import opened Preservation

  // ---------------------------------------------------------------- steps that leave counts alone

  /** Steps that leave the counts of every group, the handles and what the callers hold alone. */
  predicate LeavesCounts(st: Step) {
    !st.AddScan? && !st.AddLink? && !st.RemWork? && !st.Open? && !st.Close? && !st.UseEnter? && !st.UseDrop? && !st.Return?
  }

  ghost predicate SameCounts(groups: map<Addr, Group>, groups': map<Addr, Group>) {
    && groups'.Keys == groups.Keys
    && forall a | a in groups ::
         && groups'[a].useCount == groups[a].useCount && groups'[a].trackCount == groups[a].trackCount
         && groups'[a].tracking == groups[a].tracking && groups'[a].id == groups[a].id && groups'[a].name == groups[a].name
         && groups'[a].deprecated == groups[a].deprecated
  }

  predicate MovesEvents(st: Step) { st.AccessPost? || st.ClaimEvent? || st.OpenFailed? || st.RetUnclaim? }

  ghost predicate CountsAlike(s: Sys, s1: Sys, t: Tid) {
    && SameCounts(s.k.groups, s1.k.groups) && s1.handles == s.handles && s.born <= s1.born
    && SameOthers(s.threads, s1.threads, t) && HeldBy(s1.threads, t) == HeldBy(s.threads, t)
  }

  lemma CountsLeft(s: Sys, st: Step)
    requires Safe(s) && Enabled(s, st) && LeavesCounts(st)
    ensures CountsAlike(s, Next(s, st), st.t)
  {
    if MovesEvents(st) {
      MovingLeavesCounts(s, st);
      hide *;
    } else {
      OthersLeaveCounts(s, st);
      hide *;
    }
  }

  lemma OthersLeaveCounts(s: Sys, st: Step)
    requires Safe(s) && Enabled(s, st) && LeavesCounts(st) && !MovesEvents(st)
    ensures CountsAlike(s, Next(s, st), st.t)
  {
    if st.AccessAlloc? || st.AccessJudge? || st.AccessFree? || st.RetFinish? || st.AddCount? {
      EventsLeaveCounts(s, st);
    } else {
      CallersLeaveCounts(s, st);
    }
    hide *;
  }

  lemma EventsLeaveCounts(s: Sys, st: Step)
    requires Safe(s) && Enabled(s, st) && (st.AccessAlloc? || st.AccessJudge? || st.AccessFree? || st.RetFinish? || st.AddCount?)
    ensures CountsAlike(s, Next(s, st), st.t)
  {
    hide Safe, Wf, SetStatus, Release;
  }

  /** Steps that only move their caller on. */
  lemma CallersLeaveCounts(s: Sys, st: Step)
    requires Safe(s) && Enabled(s, st) && LeavesCounts(st) && !MovesEvents(st)
    requires !st.AccessAlloc? && !st.AccessJudge? && !st.AccessFree? && !st.RetFinish? && !st.AddCount?
    ensures CountsAlike(s, Next(s, st), st.t)
  {
    OnlyCallerMoves(s, st);
    hide *;
    SameGroupsAlike(s, Next(s, st), st.t);
  }

  lemma OnlyCallerMoves(s: Sys, st: Step)
    requires Safe(s) && Enabled(s, st) && LeavesCounts(st) && !MovesEvents(st)
    requires !st.AccessAlloc? && !st.AccessJudge? && !st.AccessFree? && !st.RetFinish? && !st.AddCount?
    ensures var s1 := Next(s, st);
      && s1.k == s.k && s1.handles == s.handles && s1.born == s.born
      && SameOthers(s.threads, s1.threads, st.t) && HeldBy(s1.threads, st.t) == HeldBy(s.threads, st.t)
  {
    hide Safe, Wf;
  }

  lemma SameGroupsAlike(s: Sys, s1: Sys, t: Tid)
    requires s1.k == s.k && s1.handles == s.handles && s1.born == s.born
    requires SameOthers(s.threads, s1.threads, t) && HeldBy(s1.threads, t) == HeldBy(s.threads, t)
    ensures CountsAlike(s, s1, t)
  {
  }

  lemma MovingLeavesCounts(s: Sys, st: Step)
    requires Safe(s) && Enabled(s, st) && MovesEvents(st)
    ensures CountsAlike(s, Next(s, st), st.t)
  {
    hide *;
    MoveIs(s, st);
    match st
    case AccessPost(t) => PostLeavesCounts(s, t);
    case ClaimEvent(t) => ClaimLeavesCounts(s, t);
    case OpenFailed(t) => UnclaimLeavesCounts(s, t);
    case RetUnclaim(t) => UnclaimLeavesCounts(s, t);
  }

  lemma MoveIs(s: Sys, st: Step)
    requires Safe(s) && Enabled(s, st) && MovesEvents(st)
    ensures st.t in s.threads
    ensures st.AccessPost? ==> s.threads[st.t].OpAlloc? && Next(s, st) == DoPost(s, st.t)
    ensures st.ClaimEvent? ==> s.threads[st.t].GetWait? && s.threads[st.t].a in s.k.groups
                               && s.k.groups[s.threads[st.t].a].todo != [] && Next(s, st) == DoClaim(s, st.t)
    ensures st.OpenFailed? || st.RetUnclaim? ==> (s.threads[st.t].GetClaimed? || s.threads[st.t].RetRepost?)
                                                 && s.threads[st.t].a in s.k.groups && Next(s, st) == DoUnclaim(s, st.t)
    ensures st.AccessPost? || st.ClaimEvent? || st.OpenFailed? || st.RetUnclaim?
  {
    hide Safe, Wf;
  }

  lemma PostLeavesCounts(s: Sys, t: Tid)
    requires Safe(s) && t in s.threads && s.threads[t].OpAlloc?
    ensures CountsAlike(s, DoPost(s, t), t)
  {
    hide Safe, Wf;
  }

  lemma ClaimLeavesCounts(s: Sys, t: Tid)
    requires Safe(s) && t in s.threads && s.threads[t].GetWait? && s.threads[t].a in s.k.groups
    requires s.k.groups[s.threads[t].a].todo != []
    ensures CountsAlike(s, DoClaim(s, t), t)
  {
    hide Safe, Wf;
  }

  lemma UnclaimLeavesCounts(s: Sys, t: Tid)
    requires t in s.threads && (s.threads[t].GetClaimed? || s.threads[t].RetRepost?) && s.threads[t].a in s.k.groups
    ensures CountsAlike(s, DoUnclaim(s, t), t)
  {
    hide Without;
  }

  // ---------------------------------------------------------------- removals, opens and closes

  /** What a removal does to the counts. */
  lemma RemovedCounts(s: Sys, t: Tid)
    requires Safe(s) && t in s.threads && s.threads[t].RemGo?
    ensures var g1 := DoRemove(s, t).k.groups;
      && g1.Keys == s.k.groups.Keys
      && forall a | a in g1 :: g1[a].useCount == s.k.groups[a].useCount && g1[a].trackCount == s.k.groups[a].trackCount
           && g1[a].tracking == s.k.groups[a].tracking && g1[a].id == s.k.groups[a].id && g1[a].name == s.k.groups[a].name
           && (s.k.groups[a].deprecated ==> g1[a].deprecated)
  {
    hide ReleaseAll, NoteRemoved;
  }

  lemma OpenEffect(s: Sys, h: nat, gid: nat)
    requires Safe(s)
    ensures var s1 := DoOpen(s, h, gid);
      var a := OpenTracking(s.k, gid).1;
      && s1.threads == s.threads && s1.born == s.born && s1.handles == s.handles[h := Handle(gid, a)]
      && (a.Some? ==> a.value in s.k.groups && s.k.groups[a.value].tracking && s.k.groups[a.value].id == gid)
      && s1.k.groups == if a.Some? then s.k.groups[a.value := Tracked(s.k.groups[a.value])] else s.k.groups
  {
    hide QueuesOk, NamesDistinct, IdsDistinct;
  }

  ghost predicate CountsForFound(s: Sys, h: nat)
    requires Wf(s.k) && h in s.handles
  {
    var found := FindById(s.k.list, s.k.groups, s.handles[h].gid);
    s.handles[h].group.Some? && found.Some? && s.k.groups[found.value].tracking
  }

  lemma CloseEffect(s: Sys, h: nat)
    requires Safe(s) && h in s.handles
    ensures var found := FindById(s.k.list, s.k.groups, s.handles[h].gid);
      var s1 := DoClose(s, h);
      && s1.threads == s.threads && s1.handles == s.handles - {h} && s1.born == s.born
      && s1.k.groups == if CountsForFound(s, h) then s.k.groups[found.value := Untracked(s.k.groups[found.value])] else s.k.groups
  {
    CloseTrackingGroups(s.k, s.handles[h].gid);
    hide Kernel.CloseTracking, FindById, NoteRemoved;
  }

  // ---------------------------------------------------------------- calls that hold a group

  /** Caller `t` takes hold of a group or lets one go, and the use counts follow. */
  ghost predicate Regrips(s: Sys, s1: Sys, t: Tid) {
    && s1.handles == s.handles && s1.born == s.born && SameOthers(s.threads, s1.threads, t)
    && (HeldBy(s1.threads, t).Some? ==> HeldBy(s1.threads, t).value in s1.k.groups)
    && s1.k.groups.Keys == s.k.groups.Keys
    && forall a | a in s.k.groups ::
         var g, g1 := s.k.groups[a], s1.k.groups[a];
         && g1.trackCount == g.trackCount && g1.tracking == g.tracking && g1.id == g.id && g1.name == g.name
         && g1.deprecated == g.deprecated && g1.useCount - g.useCount
         == (if HeldBy(s1.threads, t) == Some(a) then 1 else 0) - (if HeldBy(s.threads, t) == Some(a) then 1 else 0)
  }

  lemma EnterRegrips(s: Sys, t: Tid, gid: nat)
    requires Safe(s) && t !in s.threads
    ensures Regrips(s, DoUseEnter(s, t, gid), t)
  {
    EntersTo(s, t, gid);
    hide *;
    var a := Enter(s.k, gid).1;
    if a.None? { StaysAway(s, t); } else { TakesHold(s, DoUseEnter(s, t, gid), t, a.value); }
  }

  lemma EntersTo(s: Sys, t: Tid, gid: nat)
    requires Safe(s) && t !in s.threads
    ensures ListOk(s.k.list, s.k.groups)
    ensures var a := Enter(s.k, gid).1;
      var s1 := DoUseEnter(s, t, gid);
      && (a.None? ==> s1 == s)
      && (a.Some? ==>
            && a.value in s.k.groups && s1 == s.(k := AddUse(s.k, a.value, 1), threads := s.threads[t := GetWait(a.value)])
            && t in s1.threads && s1.threads == s.threads[t := s1.threads[t]] && s1.threads[t].Held() == Some(a.value)
            && s1.k.groups == s.k.groups[a.value := s.k.groups[a.value].(useCount := s.k.groups[a.value].useCount + 1,
                                                                         working := s.k.groups[a.value].working)])
  {
    assert ListOk(s.k.list, s.k.groups);
    hide Safe, Wf, FindById;
  }

  lemma DropRegrips(s: Sys, t: Tid)
    requires Safe(s) && t in s.threads && s.threads[t].UseOut?
    ensures Regrips(s, DoUseDrop(s, t), t)
  {
    var a := s.threads[t].a;
    assert s.threads[t].Held() == Some(a) && a in s.k.groups;
    hide Safe, Wf;
    LetsGo(s, t, a);
    assert DoUseDrop(s, t) == s.(k := AddUse(s.k, a, -1), threads := s.threads - {t});
    hide *;
  }

  lemma LetsGo(s: Sys, t: Tid, a: Addr)
    requires t in s.threads && s.threads[t].Held() == Some(a) && a in s.k.groups
    ensures Regrips(s, s.(k := AddUse(s.k, a, -1), threads := s.threads - {t}), t)
  {
  }

  lemma ReturnRegrips(s: Sys, t: Tid, gid: nat, id: nat, response: Response)
    requires Safe(s) && t !in s.threads
    ensures Regrips(s, DoReturn(s, t, gid, id, response), t)
  {
    assert Wf(s.k);
    hide *;
    ReturnMoves(s.k, gid, id, response);
    ReturnsTo(s, t, gid, id, response);
    var r := Kernel.ReturnEvent(s.k, gid, id, response).1;
    var s1 := DoReturn(s, t, gid, id, response);
    if r.NoGroup? { StaysAway(s, t); } else { TakesHold(s, s1, t, r.a); }
  }

  lemma ReturnsTo(s: Sys, t: Tid, gid: nat, id: nat, response: Response)
    requires Safe(s) && t !in s.threads
    ensures var (k1, r) := Kernel.ReturnEvent(s.k, gid, id, response);
      var s1 := DoReturn(s, t, gid, id, response);
      && s1.k == k1 && s1.handles == s.handles && s1.born == s.born
      && (r.NoGroup? ==> s1 == s)
      && (!r.NoGroup? ==> t in s1.threads && s1.threads == s.threads[t := s1.threads[t]] && s1.threads[t].Held() == Some(r.a))
  {
    assert Wf(s.k);
    hide Safe, Kernel.ReturnEvent, SetStatus, Wf;
    match Kernel.ReturnEvent(s.k, gid, id, response).1
    case NoGroup =>
    case NoEvent(a) => assert DoReturn(s, t, gid, id, response).threads[t] == UseOut(a);
    case Reposting(a, e) => assert DoReturn(s, t, gid, id, response).threads[t] == RetRepost(a, e);
    case Answering(a, e, deny) => assert DoReturn(s, t, gid, id, response).threads[t] == RetRelease(a, e, deny);
  }

  lemma StaysAway(s: Sys, t: Tid)
    requires t !in s.threads
    ensures Regrips(s, s, t)
  {
  }

  lemma TakesHold(s: Sys, s1: Sys, t: Tid, a: Addr)
    requires t !in s.threads && t in s1.threads && s1.threads == s.threads[t := s1.threads[t]] && s1.threads[t].Held() == Some(a)
    requires s1.handles == s.handles && s1.born == s.born
    requires a in s.k.groups && s1.k.groups.Keys == s.k.groups.Keys
    requires forall b | b in s.k.groups && b != a :: s1.k.groups[b] == s.k.groups[b]
    requires var g := s.k.groups[a]; s1.k.groups[a] == g.(useCount := g.useCount + 1, working := s1.k.groups[a].working)
    ensures Regrips(s, s1, t)
  {
  }

  /** A return takes a use count exactly when its group is found. */
  lemma ReturnMoves(k: State, gid: nat, id: nat, response: Response)
    requires Wf(k)
    ensures var (k1, r) := Kernel.ReturnEvent(k, gid, id, response);
      if r.NoGroup? then k1 == k
      else r.a in k.groups && k1.groups.Keys == k.groups.Keys
           && (forall b | b in k.groups && b != r.a :: k1.groups[b] == k.groups[b])
           && k1.groups[r.a] == k.groups[r.a].(useCount := k.groups[r.a].useCount + 1, working := k1.groups[r.a].working)
  {
    hide Without, QueuesOk, NamesDistinct, IdsDistinct;
  }

  /** The four kinds of steps that change which groups there are, or which are active. */
  lemma GroupStepIs(s: Sys, st: Step)
    requires Safe(s) && Enabled(s, st)
    ensures st.AddScan? ==> st.t in s.threads && s.threads[st.t].AddStart? && Next(s, st) == DoScan(s, st.t)
    ensures st.AddLink? ==> st.t in s.threads && s.threads[st.t].AddReady? && st.a !in s.born && Next(s, st) == DoLink(s, st.t, st.a)
    ensures st.RemWork? ==> st.t in s.threads && s.threads[st.t].RemGo? && Next(s, st) == DoRemove(s, st.t)
    ensures st.Close? ==> st.h in s.handles && Next(s, st) == DoClose(s, st.h)
  {
    hide Safe, Wf;
  }

  /** The steps that change use or tracking counts and no group. */
  lemma HoldStepIs(s: Sys, st: Step)
    requires Safe(s) && Enabled(s, st)
    ensures st.Open? ==> st.h !in s.handles && Next(s, st) == DoOpen(s, st.h, st.gid)
    ensures st.UseEnter? ==> st.t !in s.threads && Next(s, st) == DoUseEnter(s, st.t, st.gid)
    ensures st.UseDrop? ==> st.t in s.threads && s.threads[st.t].UseOut? && Next(s, st) == DoUseDrop(s, st.t)
    ensures st.Return? ==> st.t !in s.threads && Next(s, st) == DoReturn(s, st.t, st.gid, st.id, st.response)
  {
    hide Safe, Wf;
  }

  // ---------------------------------------------------------------- every step

  /** Caller `t` is the only one whose hold on a group the step can change. */
  ghost predicate Together(s: Sys, s1: Sys, t: Tid) { MoveTogether(s.k.groups, s1.k.groups, s.threads, s1.threads, t) }

  lemma AlikeTogether(s: Sys, s1: Sys, t: Tid)
    requires HeldLive(s.k.groups, s.threads) && CountsAlike(s, s1, t)
    ensures Together(s, s1, t)
  {
  }

  lemma RegripTogether(s: Sys, s1: Sys, t: Tid)
    requires HeldLive(s.k.groups, s.threads) && Regrips(s, s1, t)
    ensures Together(s, s1, t)
  {
  }

  /** A caller that holds no group before or after, and groups that keep their counts or are freed unused. */
  lemma AsideTogether(s: Sys, s1: Sys, t: Tid)
    requires SameOthers(s.threads, s1.threads, t) && HeldBy(s.threads, t) == None && HeldBy(s1.threads, t) == None
    requires s1.k.groups.Keys <= s.k.groups.Keys
    requires forall a | a in s1.k.groups ::
               s1.k.groups[a].useCount == s.k.groups[a].useCount && s1.k.groups[a].trackCount == s.k.groups[a].trackCount
    requires forall a | a in s.k.groups && a !in s1.k.groups :: s.k.groups[a].useCount == 0
    ensures Together(s, s1, t)
  {
  }

  lemma ScanTogether(s: Sys, t: Tid)
    requires Core(s) && Safe(s) && t in s.threads && s.threads[t].AddStart?
    ensures Together(s, DoScan(s, t), t)
  {
    ScanFacts(s, t);
    ScanAside(s, t);
    hide *;
    AsideTogether(s, DoScan(s, t), t);
  }

  lemma ScanAside(s: Sys, t: Tid)
    requires Safe(s) && t in s.threads && s.threads[t].AddStart?
    ensures SameOthers(s.threads, DoScan(s, t).threads, t) && HeldBy(s.threads, t) == None && HeldBy(DoScan(s, t).threads, t) == None
  {
    hide Wf, ChooseId;
  }

  lemma LinkTogether(s: Sys, t: Tid, a: Addr)
    requires t in s.threads && s.threads[t].AddReady? && a !in s.k.groups && a !in s.born
    ensures Together(s, DoLink(s, t, a), t)
  {
  }

  lemma RemovalTogether(s: Sys, t: Tid)
    requires Safe(s) && t in s.threads && s.threads[t].RemGo?
    ensures Together(s, DoRemove(s, t), t)
  {
    RemovedCounts(s, t);
    RemovalAside(s, t);
    hide *;
    AsideTogether(s, DoRemove(s, t), t);
  }

  lemma RemovalAside(s: Sys, t: Tid)
    requires Safe(s) && t in s.threads && s.threads[t].RemGo?
    ensures SameOthers(s.threads, DoRemove(s, t).threads, t) && HeldBy(s.threads, t) == None && HeldBy(DoRemove(s, t).threads, t) == None
  {
    hide RemoveByName, NoteRemoved;
  }

  lemma OpenTogether(s: Sys, h: nat, gid: nat, t: Tid)
    requires Safe(s) && t !in s.threads
    ensures Together(s, DoOpen(s, h, gid), t)
  {
    OpenEffect(s, h, gid);
    hide DoOpen, Safe, Wf, OpenTracking;
  }

  lemma CloseTogether(s: Sys, h: nat, t: Tid)
    requires Safe(s) && h in s.handles && t !in s.threads
    ensures Together(s, DoClose(s, h), t)
  {
    CloseEffect(s, h);
    FoundIsGroup(s.k, s.handles[h].gid);
    hide DoClose, Safe, FindById, Wf;
  }

  lemma FoundIsGroup(k: State, gid: nat)
    requires ListOk(k.list, k.groups)
    ensures var found := FindById(k.list, k.groups, gid);
      found.Some? ==> found.value in k.groups && !k.groups[found.value].deprecated && k.groups[found.value].id == gid
  {
  }

  lemma StepTogether(s: Sys, st: Step) returns (t: Tid)
    requires Core(s) && Safe(s) && Enabled(s, st)
    ensures Together(s, Next(s, st), t)
  {
    assert HeldLive(s.k.groups, s.threads) && BornInv(s);
    hide *;
    t := UpperBound(s.threads.Keys);
    if !st.Open? && !st.Close? { t := st.t; }
    GroupStepIs(s, st);
    if st.Open? { HoldStepIs(s, st); }
    match st
    case AddScan(_) => ScanTogether(s, t);
    case AddLink(_, a) => NotYetThere(s, a); LinkTogether(s, t, a);
    case RemWork(_) => RemovalTogether(s, t);
    case Open(h, gid) => OpenTogether(s, h, gid, t);
    case Close(h) => CloseTogether(s, h, t);
    case _ => CallsTogether(s, st);
  }

  lemma CallsTogether(s: Sys, st: Step)
    requires Core(s) && Safe(s) && Enabled(s, st) && HeldLive(s.k.groups, s.threads)
    requires !st.AddScan? && !st.AddLink? && !st.RemWork? && !st.Open? && !st.Close?
    ensures Together(s, Next(s, st), st.t)
  {
    hide *;
    HoldStepIs(s, st);
    if st.UseEnter? {
      EnterRegrips(s, st.t, st.gid);
      RegripTogether(s, Next(s, st), st.t);
    } else if st.UseDrop? {
      DropRegrips(s, st.t);
      RegripTogether(s, Next(s, st), st.t);
    } else if st.Return? {
      ReturnRegrips(s, st.t, st.gid, st.id, st.response);
      RegripTogether(s, Next(s, st), st.t);
    } else {
      TheRest(st);
      CountsLeft(s, st);
      AlikeTogether(s, Next(s, st), st.t);
    }
  }

  lemma NotYetThere(s: Sys, a: Addr)
    requires BornInv(s) && a !in s.born
    ensures a !in s.k.groups
  {
  }

  lemma TheRest(st: Step)
    requires !st.AddScan? && !st.AddLink? && !st.RemWork? && !st.Open? && !st.Close? && !st.UseEnter? && !st.UseDrop? && !st.Return?
    ensures LeavesCounts(st)
  {
  }

  /** Every step keeps the use counts right, whatever handles are closed and whatever is freed. */
  lemma StepKeepsUse(s: Sys, st: Step)
    requires Core(s) && Safe(s) && UseInv(s.k.groups, s.threads) && Enabled(s, st)
    ensures UseInv(Next(s, st).k.groups, Next(s, st).threads)
  {
    assert HeldLive(s.k.groups, s.threads);
    hide Core, Safe, Next, Enabled, UseInv, HeldLive, MoveTogether;
    var t := StepTogether(s, st);
    UseStep(s.k.groups, Next(s, st).k.groups, s.threads, Next(s, st).threads, t);
  }

  /** A step leads to freed memory under a call that holds it exactly if it frees a group whose tracking
      count was negative. */
  lemma StaysSafeExactly(s: Sys, st: Step)
    requires Core(s) && Safe(s) && UseInv(s.k.groups, s.threads) && Enabled(s, st)
    ensures Safe(Next(s, st)) <==> !FreesNegative(s.k.groups, Next(s, st).k.groups)
  {
    assert HeldLive(s.k.groups, s.threads);
    hide Core, Safe, Next, Enabled, UseInv, HeldLive, MoveTogether, FreesNegative;
    var t := StepTogether(s, st);
    HeldStep(s.k.groups, Next(s, st).k.groups, s.threads, Next(s, st).threads, t);
    StepKeepsCore(s, st);
    CoreIsSafeExactly(Next(s, st));
  }
}
