/** Further promises of the protocol, each for every reachable state or every step from one: the core
    of the invariant holds in all of them (`Verdicts.RunsKeepCore`). */
module Guarantees {
  import opened Kernel
  import opened Protocol
  import opened Invariant
  import opened KeepsLists
  import opened KeepsCounts
  import opened KeepsAccounts
  import opened Preservation
  import opened Verdicts

  // ---------------------------------------------------------------- the verdict is final, the event freed once

  /** Nothing is left to change the verdict once the last answer is in. */
  lemma VerdictIsFinal(s: Sys, st: Step, e: Addr)
    requires Core(s) && Safe(s) && Enabled(s, st)
    requires e in s.k.events && e in s.hist && s.hist[e].seqno > 0 && s.k.events[e].assignedCount == 0
    ensures var s1 := Next(s, st);
      e in s1.k.events ==> s1.k.events[e].assignedCount == 0 && s1.k.events[e].deny == s.k.events[e].deny
  {
    hide Safe, Enabled, Next, Wf, CountInv, QueueInv, IdInv, PhasesOk, ListedIsQueued, OwedIsBacked;
    StepAdvances(s, st, e);
    StepKeepsCore(s, st);
    var s1 := Next(s, st);
    assert EventOk(s.k.events[e], s.hist[e]);
    if e in s1.k.events {
      assert EventOk(s1.k.events[e], s1.hist[e]);
      SettledVerdict(s.hist, s1.hist, e, ReplyIn(s, st, e));
    }
  }

  lemma SettledVerdict(hist: map<Addr, Hist>, hist': map<Addr, Hist>, e: Addr, reply: Option<Reply>)
    requires Advances(hist, hist', e, reply) && e in hist && e in hist' && hist[e].seqno > 0
    requires OpenIn(hist[e].status) == {}
    ensures OpenIn(hist'[e].status) == {} && DeniedIn(hist'[e].status) == DeniedIn(hist[e].status)
  {
    forall a | a in hist[e].status ensures a in hist'[e].status && hist'[e].status[a] == hist[e].status[a] {
      assert Has(hist, e, a) && a !in OpenIn(hist[e].status);
    }
    forall a | a in hist'[e].status ensures a in hist[e].status { assert Has(hist', e, a); }
    assert hist'[e].status == hist[e].status;
  }

  /** Only the caller itself moves. */
  lemma OthersStay(s: Sys, st: Step, u: Tid)
    requires Safe(s) && Enabled(s, st) && u in s.threads
    requires !st.Open? && !st.Close? ==> st.t != u
    ensures u in Next(s, st).threads && Next(s, st).threads[u] == s.threads[u]
  {
    hide Wf, Safe, Post, Claim, Unclaim, Kernel.ReturnEvent, RemoveByName, Kernel.CloseTracking, Kernel.OpenTracking, Release,
         NoteRemoved, SetStatus, LinkGroup, AddUse;
  }

  lemma OwnerOpened(s: Sys, e: Addr)
    requires Core(s) && e in s.k.events
    ensures e in s.hist && s.hist[e].owner in s.threads && s.threads[s.hist[e].owner].Opened() == Some(e)
  {
  }

  /** An event disappears exactly when the process that opened the file has read the verdict. */
  lemma OnlyTheOpenerFrees(s: Sys, st: Step, e: Addr)
    requires Core(s) && Safe(s) && Enabled(s, st) && e in s.k.events
    ensures e !in Next(s, st).k.events <==> st.AccessFree? && s.threads[st.t].e == e
  {
    hide Core, Safe, PhaseOk;
    OwnerOpened(s, e);
    var t := s.hist[e].owner;
    if st.AccessFree? {
      FreeFrees(s, st.t, e);
    } else {
      OwnerStays(s, st, t, e);
      hide Next, Enabled;
      StepKeepsCore(s, st);
      OpenedIsLive(Next(s, st), t);
    }
  }

  lemma OwnerStays(s: Sys, st: Step, t: Tid, e: Addr)
    requires Safe(s) && Enabled(s, st) && !st.AccessFree? && t in s.threads && s.threads[t].Opened() == Some(e)
    ensures t in Next(s, st).threads && Next(s, st).threads[t].Opened() == Some(e)
  {
    hide Safe, Next, Enabled;
    if !st.Open? && !st.Close? && st.t == t { OpenerKeepsEvent(s, st, e); } else { OthersStay(s, st, t); }
  }

  lemma OpenedIsLive(s: Sys, t: Tid)
    requires Core(s) && t in s.threads && s.threads[t].Opened().Some?
    ensures s.threads[t].Opened().value in s.k.events
  {
  }

  lemma FreeFrees(s: Sys, t: Tid, e: Addr)
    requires Core(s) && Safe(s) && t in s.threads && s.threads[t].OpJudged? && e in s.k.events
    ensures DoFree(s, t).k.events == s.k.events - {s.threads[t].e}
  {
  }

  lemma OpenerKeepsEvent(s: Sys, st: Step, e: Addr)
    requires Safe(s) && Enabled(s, st) && !st.Open? && !st.Close? && !st.AccessFree?
    requires st.t in s.threads && s.threads[st.t].Opened() == Some(e)
    ensures st.t in Next(s, st).threads && Next(s, st).threads[st.t].Opened() == Some(e)
  {
    hide Wf, Safe;
  }

  // ---------------------------------------------------------------- nobody waits for nothing

  /** An event that is still assigned is on a list of an active group or about to be released. */
  lemma NoStrandedAccess(s: Sys, e: Addr)
    requires Core(s) && e in s.k.events && s.k.events[e].assignedCount > 0
    ensures (exists a :: a in Active(s.k.groups) && s.k.groups[a].Holds(e)) || ReleasesOf(s.threads, e) != {}
  {
    hide Safe, CountInv, QueueInv, IdInv, PhasesOk, ListedIsQueued;
    assert EventOk(s.k.events[e], s.hist[e]);
    var a :| a in OpenIn(s.hist[e].status);
    assert Owed(s.hist, e, a) && Backed(s.hist[e].status[a], e, a, s.k.groups, s.threads);
    if !s.hist[e].status[a].InFlight? { assert a in Active(s.k.groups) && s.k.groups[a].Holds(e); }
    else { assert s.hist[e].status[a].t in ReleasesOf(s.threads, e); }
  }

  // ---------------------------------------------------------------- containers after the lock is dropped

  predicate StillAsked(s: Sys, t: Tid)
    requires t in s.threads && (s.threads[t].GetClaimed? || s.threads[t].RetRepost?)
  {
    var a, e := s.threads[t].a, s.threads[t].e;
    Has(s.hist, e, a) && s.hist[e].status[a].Queued?
  }

  /** A claimer, or a process that reposts, has a live container exactly while the group still is
      asked: once the group has answered through another process or been removed, the container has
      been freed, and the code would follow a dangling pointer to it. */
  lemma ContainerIsLinkedExactly(s: Sys, t: Tid)
    requires Core(s) && t in s.threads && (s.threads[t].GetClaimed? || s.threads[t].RetRepost?)
    ensures Listed(s.k.groups, s.threads[t].a, s.threads[t].e) <==> StillAsked(s, t)
  {
    hide Wf, CountInv, QueueInv, IdInv, EventsCounted, PhasesOk;
    var a, e := s.threads[t].a, s.threads[t].e;
    if Has(s.hist, e, a) && s.hist[e].status[a].Queued? {
      assert Owed(s.hist, e, a) && Backed(s.hist[e].status[a], e, a, s.k.groups, s.threads);
    }
  }

  /** The steps that use the container are enabled exactly then. */
  lemma ContainerUseIsEnabledExactly(s: Sys, t: Tid)
    requires Core(s) && t in s.threads
    ensures s.threads[t].GetClaimed? ==>
              && (Enabled(s, OpenOk(t)) <==> StillAsked(s, t))
              && (Enabled(s, OpenFailed(t)) <==> StillAsked(s, t))
    ensures s.threads[t].RetRepost? ==> (Enabled(s, RetUnclaim(t)) <==> StillAsked(s, t))
  {
    hide Core;
    if s.threads[t].GetClaimed? || s.threads[t].RetRepost? { ContainerIsLinkedExactly(s, t); }
  }

  // ---------------------------------------------------------------- containers and the group count

  /** When an event is posted there is a container for every active group, and never more than
      GROUP_COUNT of them. */
  lemma ContainersSuffice(run: seq<Step>, t: Tid)
    requires Legal(run) && t in At(run).threads && At(run).threads[t].OpAlloc?
    ensures |Active(At(run).k.groups)| <= At(run).threads[t].n <= GROUP_COUNT
  {
    RunsKeepCore(run);
  }

  /** `group_count` lags behind by the one addition that is linked and not yet counted, and only by that. */
  lemma GroupCountIsExact(run: seq<Step>)
    requires Legal(run)
    ensures var s := At(run);
      && s.k.count == |Active(s.k.groups)| - (if PendingAdd(s.threads) then 1 else 0)
      && |Active(s.k.groups)| <= GROUP_COUNT
      && (NoWriter(s.threads) ==> s.k.count == |Active(s.k.groups)|)
  {
    RunsKeepCore(run);
  }

  /** Skipping the search when `group_count` is zero misses no group. */
  lemma RemoveSkipsOnlyNothing(run: seq<Step>, t: Tid)
    requires Legal(run) && t in At(run).threads && At(run).threads[t].RemStart?
    ensures At(run).k.count == 0 <==> Active(At(run).k.groups) == {}
  {
    RunsKeepCore(run);
    WriterSeesCount(At(run).k.groups, At(run).k.count, At(run).threads, t);
  }

  // ---------------------------------------------------------------- event ids and the order of claims

  /** Two posted events have the same id exactly when a multiple of 2^32 events lies between them. */
  lemma IdsRepeatAfterFullTurn(s: Sys, e: Addr, f: Addr)
    requires Core(s) && e in s.k.events && f in s.k.events && e in s.hist && f in s.hist
    requires s.hist[e].seqno > 0 && s.hist[f].seqno > 0
    ensures s.k.events[e].id == s.k.events[f].id
       <==> s.hist[e].seqno % 0x1_0000_0000 == s.hist[f].seqno % 0x1_0000_0000
  {
  }

  /** Before the counter has come round, an event id names one event: a reply reaches the event it
      names and no other, and it reaches it whenever the group is working on it. */
  lemma ReplyReachesItsEvent(s: Sys, a: Addr, id: nat, e: Addr)
    requires Core(s) && s.posts < 0x1_0000_0000 && a in s.k.groups
    ensures forall f | f in s.k.groups[a].working :: f in s.k.events
    ensures FindEvent(s.k.groups[a].working, s.k.events, id) == Some(e)
       <==> e in s.k.groups[a].working && s.k.events[e].id == id
  {
    hide Core;
    WorkingIsPosted(s, a);
    var found := FindEvent(s.k.groups[a].working, s.k.events, id);
    if found.Some? && e in s.k.groups[a].working && s.k.events[e].id == id {
      IdsRepeatAfterFullTurn(s, found.value, e);
      SameSeqnoSameEvent(s, found.value, e);
    }
  }

  lemma SameSeqnoSameEvent(s: Sys, e: Addr, f: Addr)
    requires Core(s) && e in s.hist && f in s.hist && s.hist[e].seqno == s.hist[f].seqno > 0
    ensures e == f
  {
  }

  lemma WorkingIsPosted(s: Sys, a: Addr)
    requires Core(s) && a in s.k.groups
    ensures forall e | e in s.k.groups[a].working :: e in s.k.events && e in s.hist && 0 < s.hist[e].seqno <= s.posts
  {
  }

  /** An event nobody in the group has claimed before is claimed only after every event posted to the
      group before it: those still unanswered are being worked on. */
  lemma FreshClaimsFollowPosting(s: Sys, a: Addr, f: Addr)
    requires Core(s) && a in s.k.groups && s.k.groups[a].todo != []
    requires var e := s.k.groups[a].todo[0];
      !Claimed(s.hist, e, a) && e in s.hist && f in s.hist && s.hist[f].seqno < s.hist[e].seqno
    requires Has(s.hist, f, a) && s.hist[f].status[a].Queued?
    ensures f in s.k.groups[a].working
  {
    hide Core;
    QueuedIsListed(s, a, f);
    TodoInOrder(s, a);
    var todo := s.k.groups[a].todo;
    forall j | 0 <= j < |todo| ensures todo[j] != f {}
  }

  lemma TodoInOrder(s: Sys, a: Addr)
    requires Core(s) && a in s.k.groups
    ensures TodoOk(s.k.groups[a].todo, a, s.hist)
  {
  }

  lemma QueuedIsListed(s: Sys, a: Addr, f: Addr)
    requires Core(s) && Has(s.hist, f, a) && s.hist[f].status[a].Queued?
    ensures a in s.k.groups && s.k.groups[a].Holds(f)
  {
    hide Wf, EventsCounted, PhasesOk, ListedIsQueued, CountInv, QueueInv, IdInv;
    assert Owed(s.hist, f, a) && Backed(s.hist[f].status[a], f, a, s.k.groups, s.threads);
  }
}
