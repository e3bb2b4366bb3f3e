/** The verdict of one access, told by the run alone: who was asked when the event was posted, who
    replied what and when, and who was removed. */
module Answers {
  import opened Kernel
  import opened Protocol
  import opened Invariant
  import opened KeepsCounts
  import opened KeepsLists
  import opened Preservation
  import opened Holding
  import opened Tracking
  import opened Verdicts
  import opened Groups

  // ---------------------------------------------------------------- the verdict over a run

  /** Step `i` posts event `e`. */
  ghost predicate PostsAt(run: seq<Step>, i: nat, e: Addr)
    requires Legal(run)
  {
    && i < |run| && run[i].AccessPost?
    && (SafeBefore(run, i);
        run[i].t in At(run[..i]).threads && At(run[..i]).threads[run[i].t] == OpAlloc(e, At(run[..i]).threads[run[i].t].n))
  }

  /** In step `j` group `a` replies to event `e`. */
  ghost predicate Replies(run: seq<Step>, j: nat, e: Addr, a: Addr)
    requires Legal(run)
  {
    j < |run| && ReplyAt(run, j, e).Some? && ReplyAt(run, j, e).value.a == a
  }

  /** A step that gives an event its place in the order of posting posts that event. */
  lemma OnlyPostingNumbers(s: Sys, st: Step, e: Addr)
    requires Core(s) && Safe(s) && Enabled(s, st)
    requires e in Next(s, st).hist && Next(s, st).hist[e].seqno > 0 && (e in s.hist ==> s.hist[e].seqno == 0)
    ensures st.AccessPost? && s.threads[st.t].e == e
  {
    hide AccountInv, CountInv, QueueInv, IdInv;
    if Quiet(st) {
      QuietHist(s, st);
    } else if st.Return? {
      var r := ReturnEvent(s.k, st.gid, st.id, st.response).1;
      if r.Answering? {
        ReplyIsToQueued(s, st, r.a, r.e, r.deny);
        HasIsThere(s.hist, r.e, r.a);
      }
      ReturnHist(s, st);
      hide Next;
    } else if st.RetFinish? {
      PhaseOf(s, st.t);
    } else if st.ClaimEvent? {
      HeadIsKnown(s, s.threads[st.t].a);
    }
    hide Wf, Post, Claim, Kernel.ReturnEvent, RemoveByName, Kernel.CloseTracking, Release;
  }

  lemma {:induction false} PostedAt(run: seq<Step>, e: Addr) returns (i: nat)
    requires Legal(run) && e in At(run).hist && At(run).hist[e].seqno > 0
    ensures PostsAt(run, i, e)
  {
    assert run != [];
    var n := |run| - 1;
    var before := run[..n];
    SafeBefore(run, n);
    assert run[..n + 1] == run;
    var s := At(before);
    if e in s.hist && s.hist[e].seqno > 0 {
      hide *;
      i := PostedAt(before, e);
      PostsLater(run, i, e);
    } else {
      OnlyPostingNumbers(s, run[n], e);
      i := n;
    }
  }

  lemma PostsLater(run: seq<Step>, i: nat, e: Addr)
    requires Legal(run) && run != [] && Legal(run[..|run| - 1]) && PostsAt(run[..|run| - 1], i, e)
    ensures PostsAt(run, i, e)
  {
    assert run[..|run| - 1][..i] == run[..i];
  }

  // ---------------------------------------------------------------- what the statuses say about the run

  ghost predicate Replied(run: seq<Step>, e: Addr, a: Addr)
    requires Legal(run)
  {
    exists j: nat :: Replies(run, j, e, a)
  }

  lemma RepliedSplits(run: seq<Step>, e: Addr, a: Addr)
    requires Legal(run) && run != [] && Legal(run[..|run| - 1])
    requires forall i :: 0 <= i < |run| - 1 ==> ReplyAt(run, i, e) == ReplyAt(run[..|run| - 1], i, e)
    ensures Replied(run, e, a) <==> Replied(run[..|run| - 1], e, a) || Replies(run, |run| - 1, e, a)
  {
    hide ReplyAt, Legal;
    var before := run[..|run| - 1];
    if j :| Replies(before, j, e, a) { assert Replies(run, j, e, a); }
    if j :| Replies(run, j, e, a) { assert j == |before| || Replies(before, j, e, a); }
  }

  /** A group that replied is settled from then on. */
  lemma RepliedIsSettled(run: seq<Step>, e: Addr, a: Addr)
    requires Legal(run) && Replied(run, e, a)
    ensures Settled(At(run).hist, e, a)
  {
    hide At, Legal, ReplyAt, Settled;
    var j: nat :| Replies(run, j, e, a);
    ReplySettles(run, j, e);
    SettledStays(run, j + 1, e, a);
  }

  /** A group that is still asked, or was removed first, is one that has not replied. */
  lemma {:induction false} StatusTells(run: seq<Step>, e: Addr, a: Addr)
    requires Legal(run) && Has(At(run).hist, e, a)
    ensures var x := At(run).hist[e].status[a];
      x.Queued? || x.Removed? <==> !Replied(run, e, a)
  {
    assert run != [];
    hide At, Legal, ReplyAt, Advances, Settled, Replied;
    var before := run[..|run| - 1];
    LastStep(run, e);
    RepliedSplits(run, e, a);
    var reply := ReplyAt(run, |run| - 1, e);
    if Has(At(before).hist, e, a) {
      StatusTells(before, e, a);
    } else if Replied(before, e, a) {
      RepliedIsSettled(before, e, a);
      SettledHas(At(before).hist, e, a);
      assert false;
    }
    StatusMoves(At(before).hist, At(run).hist, e, a, reply);
  }

  lemma SettledHas(hist: map<Addr, Hist>, e: Addr, a: Addr)
    requires Settled(hist, e, a)
    ensures Has(hist, e, a)
  {
  }

  lemma StatusMoves(hist: map<Addr, Hist>, hist': map<Addr, Hist>, e: Addr, a: Addr, reply: Option<Reply>)
    requires Advances(hist, hist', e, reply) && Has(hist', e, a)
    ensures var asked := !Has(hist, e, a) || hist[e].status[a].Queued? || hist[e].status[a].Removed?;
      hist'[e].status[a].Queued? || hist'[e].status[a].Removed? <==> asked && !(reply.Some? && reply.value.a == a)
  {
  }

  // ---------------------------------------------------------------- removed groups stay away

  /** A group that was removed before it replied is not active and never will be again. */
  ghost predicate RemovedAreGone(s: Sys) {
    forall e, a | Has(s.hist, e, a) && s.hist[e].status[a].Removed? :: a in s.born && a !in Active(s.k.groups)
  }

  /** Only a removal marks an answer as removed, and it marks those of the group it takes out of use. */
  lemma MarkedRemoved(s: Sys, st: Step, e: Addr, a: Addr)
    requires Core(s) && Safe(s) && Enabled(s, st) && Has(Next(s, st).hist, e, a) && Next(s, st).hist[e].status[a].Removed?
    ensures (Has(s.hist, e, a) && s.hist[e].status[a].Removed?) || (a in s.k.groups && a !in Active(Next(s, st).k.groups))
  {
    if st.RemWork? || st.Close? {
      RemovingMarks(s, st, e, a);
    } else {
      hide Core;
      if Quiet(st) {
        QuietHist(s, st);
        hide Next;
      } else if st.Return? {
        ReturnedMarks(s, st, e, a);
      } else {
        OtherMarks(s, st, e, a);
      }
    }
  }

  lemma ReturnedMarks(s: Sys, st: Step, e: Addr, a: Addr)
    requires Core(s) && Safe(s) && Enabled(s, st) && st.Return?
    requires Has(Next(s, st).hist, e, a) && Next(s, st).hist[e].status[a].Removed?
    ensures Has(s.hist, e, a) && s.hist[e].status[a].Removed?
  {
    assert Wf(s.k);
    hide *;
    ReturnHist(s, st);
    var r := ReturnEvent(s.k, st.gid, st.id, st.response).1;
    if r.Answering? {
      ReplyIsToQueued(s, st, r.a, r.e, r.deny);
      HasIsThere(s.hist, r.e, r.a);
      InFlightIsNotRemoved(s.hist, r.e, r.a, st.t, r.deny, e, a);
    }
  }

  lemma InFlightIsNotRemoved(hist: map<Addr, Hist>, f: Addr, b: Addr, t: Tid, deny: bool, e: Addr, a: Addr)
    requires f in hist && Has(SetStatus(hist, f, b, InFlight(t, deny)), e, a)
    requires SetStatus(hist, f, b, InFlight(t, deny))[e].status[a].Removed?
    ensures Has(hist, e, a) && hist[e].status[a].Removed?
  {
  }

  lemma OtherMarks(s: Sys, st: Step, e: Addr, a: Addr)
    requires Core(s) && Safe(s) && Enabled(s, st) && (st.AccessAlloc? || st.AccessPost? || st.ClaimEvent? || st.RetFinish?)
    requires Has(Next(s, st).hist, e, a) && Next(s, st).hist[e].status[a].Removed?
    ensures Has(s.hist, e, a) && s.hist[e].status[a].Removed?
  {
    hide AccountInv, CountInv, QueueInv, IdInv, Wf, Safe;
    if st.ClaimEvent? {
      HeadIsKnown(s, s.threads[st.t].a);
    } else if st.RetFinish? {
      PhaseOf(s, st.t);
    }
    hide Core, Post, Claim, Release;
  }

  lemma RemovingMarks(s: Sys, st: Step, e: Addr, a: Addr)
    requires Core(s) && Safe(s) && Enabled(s, st) && (st.RemWork? || st.Close?)
    requires Has(Next(s, st).hist, e, a) && Next(s, st).hist[e].status[a].Removed?
    ensures (Has(s.hist, e, a) && s.hist[e].status[a].Removed?) || (a in s.k.groups && a !in Active(Next(s, st).k.groups))
  {
    hide Core, Safe, Next, Enabled;
    var found := RemovingHist(s, st);
  }

  lemma StepKeepsGone(s: Sys, st: Step)
    requires Core(s) && Safe(s) && Enabled(s, st) && RemovedAreGone(s)
    ensures RemovedAreGone(Next(s, st))
  {
    var s1 := Next(s, st);
    BornGrows(s, st);
    forall e, a | Has(s1.hist, e, a) && s1.hist[e].status[a].Removed? ensures a in s1.born && a !in Active(s1.k.groups) {
      MarkedRemoved(s, st, e, a);
      ActiveExactly(s, st, a);
    }
  }

  lemma BornGrows(s: Sys, st: Step)
    requires Core(s) && Safe(s) && Enabled(s, st)
    ensures s.born <= Next(s, st).born && s.k.groups.Keys <= s.born
  {
    hide Safe, Wf, AccountInv, CountInv, QueueInv, IdInv;
  }

  lemma {:induction false} RunsKeepGone(run: seq<Step>)
    requires Legal(run)
    ensures RemovedAreGone(At(run))
  {
    if run != [] {
      hide Core, Safe, Enabled, Next, RemovedAreGone;
      Unroll(run);
      RunsKeepCore(run[..|run| - 1]);
      RunsKeepGone(run[..|run| - 1]);
      StepKeepsGone(At(run[..|run| - 1]), run[|run| - 1]);
    }
  }

  // ---------------------------------------------------------------- the verdict

  /** Group `a` answered once, in one step of the run. */
  ghost predicate AnsweredOnce(run: seq<Step>, e: Addr, a: Addr)
    requires Legal(run)
  {
    exists j: nat :: Replies(run, j, e, a) && forall i: nat :: Replies(run, i, e, a) ==> i == j
  }

  /** Group `a` never answered and is not active any more. */
  ghost predicate LeftUnanswered(run: seq<Step>, e: Addr, a: Addr)
    requires Legal(run)
  {
    !Replied(run, e, a) && a !in Active(At(run).k.groups)
  }

  lemma RepliedOnce(run: seq<Step>, e: Addr, a: Addr)
    requires Legal(run) && Replied(run, e, a)
    ensures AnsweredOnce(run, e, a)
  {
    hide ReplyAt, Legal;
    var j: nat :| Replies(run, j, e, a);
    forall i: nat | Replies(run, i, e, a) ensures i == j {
      if i < j { AnsweredAtMostOnce(run, i, j, e); }
      if j < i { AnsweredAtMostOnce(run, j, i, e); }
    }
  }

  /** An access that was posted is refused exactly when some group answered DENY. When it returns,
      each group that was active at its posting has either answered exactly once or been removed
      without an answer, and nobody else has answered. */
  lemma Verdict(run: seq<Step>, t: Tid) returns (i: nat)
    requires Legal(run) && t in At(run).threads && At(run).threads[t].OpDone?
    ensures var e := At(run).threads[t].e;
      && PostsAt(run, i, e)
      && (At(run).threads[t].denied <==> DeniedDuring(run, e))
      && Legal(run[..i])
      && (forall a | a in Active(At(run[..i]).k.groups) ::
            AnsweredOnce(run, e, a) != LeftUnanswered(run, e, a))
      && (forall a | Replied(run, e, a) :: a in Active(At(run[..i]).k.groups))
  {
    hide *;
    var e := At(run).threads[t].e;
    DenialsDecide(run, t);
    DoneWasPosted(run, t);
    i := PostedAt(run, e);
    PostStep(run, i, e);
    PostedGroupsStay(run, i);
    var asked := Active(At(run[..i]).k.groups);
    forall a | a in asked ensures AnsweredOnce(run, e, a) != LeftUnanswered(run, e, a) {
      IsThereHas(At(run).hist, e, a);
      SettledAnswer(run, e, a);
    }
    forall a | Replied(run, e, a) ensures a in asked {
      RepliedIsSettled(run, e, a);
      SettledHas(At(run).hist, e, a);
      HasIsThere(At(run).hist, e, a);
    }
  }

  lemma IsThereHas(hist: map<Addr, Hist>, e: Addr, a: Addr)
    requires e in hist && a in hist[e].status
    ensures Has(hist, e, a)
  {
  }

  lemma PostStep(run: seq<Step>, i: nat, e: Addr)
    requires Legal(run) && PostsAt(run, i, e)
    ensures i < |run| && run[i].AccessPost? && Legal(run[..i]) && run[i].t in At(run[..i]).threads
    ensures At(run[..i]).threads[run[i].t].OpAlloc? && At(run[..i]).threads[run[i].t].e == e
  {
    LegalPrefix(run, i);
  }

  lemma DoneWasPosted(run: seq<Step>, t: Tid)
    requires Legal(run) && t in At(run).threads && At(run).threads[t].OpDone?
    ensures var e := At(run).threads[t].e; e in At(run).hist && At(run).hist[e].seqno > 0
  {
    RunsKeepCore(run);
    hide Legal, At;
    PhaseOf(At(run), t);
  }

  /** With no answer outstanding, a group that was asked has replied or is gone. */
  lemma SettledAnswer(run: seq<Step>, e: Addr, a: Addr)
    requires Legal(run) && Has(At(run).hist, e, a)
    requires var x := At(run).hist[e].status[a]; x.Allowed? || x.Denied? || x.Removed?
    ensures AnsweredOnce(run, e, a) != LeftUnanswered(run, e, a)
  {
    hide Legal, At, Replies;
    StatusTells(run, e, a);
    RunsKeepGone(run);
    if Replied(run, e, a) { RepliedOnce(run, e, a); }
  }
}
