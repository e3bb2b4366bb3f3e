/** What the protocol promises over whole runs from the initial state. */
module Verdicts {
  import opened Kernel
  import opened Protocol
  import opened Invariant
  import opened Preservation
  import opened Holding
  import opened Tracking
  import opened KeepsAccounts
  import opened KeepsCounts

  // ---------------------------------------------------------------- runs

  /** A run takes enabled steps only, and ends with the first step, if any, that frees a group under a
      call that holds it: from then on what the code does has no meaning. */
  ghost predicate Legal(run: seq<Step>)
    decreases |run|, 0
  {
    run != [] ==>
      var before := run[..|run| - 1];
      && Legal(before) && Safe(At(before)) && Enabled(At(before), run[|run| - 1])
  }

  ghost function At(run: seq<Step>): Sys
    requires Legal(run)
    decreases |run|, 1
  {
    if run == [] then INIT else Next(At(run[..|run| - 1]), run[|run| - 1])
  }

  lemma {:induction false} LegalPrefix(run: seq<Step>, n: nat)
    requires Legal(run) && n <= |run|
    ensures Legal(run[..n])
  {
    if n == |run| { assert run[..n] == run; } else {
      LegalPrefix(run[..|run| - 1], n);
      assert run[..|run| - 1][..n] == run[..n];
    }
  }

  lemma InitInv()
    ensures Inv(INIT)
  {
  }

  /** The core of the invariant holds after every run, whatever handles are closed. */
  lemma {:induction false} RunsKeepCore(run: seq<Step>)
    requires Legal(run)
    ensures Core(At(run))
  {
    if run == [] {
      InitInv();
    } else {
      RunsKeepCore(run[..|run| - 1]);
      StepKeepsCore(At(run[..|run| - 1]), run[|run| - 1]);
    }
  }

  lemma Unroll(run: seq<Step>)
    requires Legal(run) && run != []
    ensures var before := run[..|run| - 1];
      && Legal(before) && Safe(At(before)) && Enabled(At(before), run[|run| - 1])
      && At(run) == Next(At(before), run[|run| - 1])
  {
    hide Safe, Enabled, Next;
  }

  /** Step `i` of the run starts from a safe state. */
  lemma SafeBefore(run: seq<Step>, i: nat)
    requires Legal(run) && i < |run|
    ensures Legal(run[..i]) && Safe(At(run[..i])) && Core(At(run[..i])) && Enabled(At(run[..i]), run[i])
    ensures Legal(run[..i + 1]) && At(run[..i + 1]) == Next(At(run[..i]), run[i])
  {
    hide *;
    LegalPrefix(run, i + 1);
    assert run[..i + 1][..i] == run[..i];
    Unroll(run[..i + 1]);
    RunsKeepCore(run[..i]);
  }

  // ---------------------------------------------------------------- what is held is not freed

  /** Use counts are right after every run, also after one that frees a group under a call. */
  lemma {:induction false} RunsKeepUse(run: seq<Step>)
    requires Legal(run)
    ensures UseInv(At(run).k.groups, At(run).threads)
  {
    if run == [] {
      InitInv();
    } else {
      hide Core, Safe, Next, Enabled, UseInv;
      Unroll(run);
      RunsKeepCore(run[..|run| - 1]);
      RunsKeepUse(run[..|run| - 1]);
      StepKeepsUse(At(run[..|run| - 1]), run[|run| - 1]);
    }
  }

  /** A run can be continued by every enabled step as long as its last step did not free a group whose
      tracking count was negative, and never after one that did. */
  lemma SafeExactly(run: seq<Step>)
    requires Legal(run) && run != []
    ensures Legal(run[..|run| - 1])
    ensures Safe(At(run)) <==> !FreesNegative(At(run[..|run| - 1]).k.groups, At(run).k.groups)
  {
    hide Core, Safe, Next, Enabled, UseInv, FreesNegative;
    Unroll(run);
    RunsKeepCore(run[..|run| - 1]);
    RunsKeepUse(run[..|run| - 1]);
    StaysSafeExactly(At(run[..|run| - 1]), run[|run| - 1]);
  }

  /** No close in the run lowers a tracking count that is zero. */
  ghost predicate NeverUndercuts(run: seq<Step>)
    requires Legal(run)
    decreases |run|
  {
    run != [] ==>
      var before := run[..|run| - 1];
      NeverUndercuts(before) && !Undercuts(At(before), run[|run| - 1])
  }

  /** In such runs every pointer of the protocol's callers is live, and no tracking count is negative. */
  lemma {:induction false} RunsKeepSafeInv(run: seq<Step>)
    requires Legal(run) && NeverUndercuts(run)
    ensures SafeInv(At(run)) && Safe(At(run))
  {
    if run == [] {
      InitInv();
    } else {
      hide Core, CountsInv, Safe, Next, Enabled, Undercuts;
      Unroll(run);
      RunsKeepSafeInv(run[..|run| - 1]);
      StepKeepsSafeInv(At(run[..|run| - 1]), run[|run| - 1]);
    }
    SafeInvIsSafe(At(run));
  }

  /** Such a run can be continued by every enabled step that does not do so either: asking for safety in
      `Legal` never rules anything out there. */
  lemma SafetyExcludesNothing(run: seq<Step>, st: Step)
    requires Legal(run) && NeverUndercuts(run) && Enabled(At(run), st) && !Undercuts(At(run), st)
    ensures Safe(At(run)) && Legal(run + [st]) && At(run + [st]) == Next(At(run), st)
    ensures NeverUndercuts(run + [st]) && Safe(At(run + [st]))
  {
    hide *;
    RunsKeepSafeInv(run);
    OneStepOn(run, st);
    RunsKeepSafeInv(run + [st]);
  }

  lemma OneStepOn(run: seq<Step>, st: Step)
    requires Legal(run) && Safe(At(run)) && Enabled(At(run), st)
    ensures Legal(run + [st]) && At(run + [st]) == Next(At(run), st)
    ensures NeverUndercuts(run) && !Undercuts(At(run), st) ==> NeverUndercuts(run + [st])
    ensures Matched(run) && HandleMatches(At(run), st) ==> Matched(run + [st])
  {
    assert (run + [st])[..|run|] == run;
    assert ListOk(At(run).k.list, At(run).k.groups);
    hide Safe, Enabled, Next, Undercuts, HandleMatches;
  }

  // ---------------------------------------------------------------- closes that match

  /** Every tracked handle is closed under an id that still is its group's. */
  ghost predicate Matched(run: seq<Step>)
    requires Legal(run)
    decreases |run|
  {
    run != [] ==>
      var before := run[..|run| - 1];
      Matched(before) && HandleMatches(At(before), run[|run| - 1])
  }

  /** In such runs the whole invariant holds, and no close lowers a count that is zero. */
  lemma {:induction false} RunsKeepInv(run: seq<Step>)
    requires Legal(run) && Matched(run)
    ensures Inv(At(run)) && Safe(At(run)) && NeverUndercuts(run)
  {
    if run == [] {
      InitInv();
    } else {
      hide SafeInv, Safe, Next, Enabled, Undercuts, HandleMatches;
      Unroll(run);
      RunsKeepInv(run[..|run| - 1]);
      MatchingCounts(At(run[..|run| - 1]), run[|run| - 1]);
      StepKeepsInv(At(run[..|run| - 1]), run[|run| - 1]);
    }
    SafeInvIsSafe(At(run));
  }

  // ---------------------------------------------------------------- conservation of the assigned count

  function ListedIn(groups: map<Addr, Group>, e: Addr): set<Addr> { set a | a in groups && groups[a].Holds(e) }

  function ReleasesOf(threads: map<Tid, Thread>, e: Addr): set<Tid> {
    set t | t in threads && threads[t].RetRelease? && threads[t].e == e
  }

  /** The assigned count is the number of lists the event is on plus the releases under way. */
  lemma AssignedIsConserved(run: seq<Step>, e: Addr)
    requires Legal(run) && e in At(run).k.events
    ensures var s := At(run);
      s.k.events[e].assignedCount == |ListedIn(s.k.groups, e)| + |ReleasesOf(s.threads, e)|
  {
    hide *;
    RunsKeepCore(run);
    var s := At(run);
    CountsAgree(s, e);
  }

  lemma CountsAgree(s: Sys, e: Addr)
    requires Core(s) && e in s.k.events
    ensures s.k.events[e].assignedCount == |ListedIn(s.k.groups, e)| + |ReleasesOf(s.threads, e)|
  {
    hide CountInv, QueueInv, IdInv, Wf;
    assert e in s.hist && EventOk(s.k.events[e], s.hist[e]);
    hide EventOk;
    var status := s.hist[e].status;
    var flying := set a | a in status && status[a].InFlight?;
    ListedAndFlying(s, e, flying);
    FlyingAreReleases(s, e, flying);
  }

  lemma ListedAndFlying(s: Sys, e: Addr, flying: set<Addr>)
    requires AccountInv(s.k.groups, s.k.events, s.threads, s.hist) && e in s.k.events && e in s.hist
    requires flying == set a | a in s.hist[e].status && s.hist[e].status[a].InFlight?
    ensures |OpenIn(s.hist[e].status)| == |ListedIn(s.k.groups, e)| + |flying|
  {
    var status := s.hist[e].status;
    hide EventsCounted, PhasesOk;
    forall a ensures a in OpenIn(status) <==> a in ListedIn(s.k.groups, e) || a in flying {
      assert a in OpenIn(status) ==> Owed(s.hist, e, a);
      assert a in ListedIn(s.k.groups, e) ==> Listed(s.k.groups, a, e);
    }
    assert OpenIn(status) == ListedIn(s.k.groups, e) + flying;
    forall a | a in flying ensures a !in ListedIn(s.k.groups, e) {
      assert a in ListedIn(s.k.groups, e) ==> Listed(s.k.groups, a, e);
    }
  }

  lemma FlyingAreReleases(s: Sys, e: Addr, flying: set<Addr>)
    requires AccountInv(s.k.groups, s.k.events, s.threads, s.hist) && e in s.k.events && e in s.hist
    requires flying == set a | a in s.hist[e].status && s.hist[e].status[a].InFlight?
    ensures |flying| == |ReleasesOf(s.threads, e)|
  {
    var status := s.hist[e].status;
    hide EventsCounted, ListedIsQueued;
    forall a | a in flying ensures status[a].t in ReleasesOf(s.threads, e) && s.threads[status[a].t].a == a {
      assert Owed(s.hist, e, a);
    }
    forall t | t in ReleasesOf(s.threads, e) ensures s.threads[t].a in flying && status[s.threads[t].a].t == t {
      assert PhaseOk(t, s.threads[t], s.k.events, s.hist);
    }
    hide AccountInv, OwedIsBacked, PhasesOk;
    Bijection(s.threads, status, flying, ReleasesOf(s.threads, e));
  }

  lemma {:induction false} Bijection(threads: map<Tid, Thread>, status: map<Addr, Status>, groups: set<Addr>, releases: set<Tid>)
    requires forall a | a in groups :: a in status && status[a].InFlight? && status[a].t in releases
    requires forall t | t in releases :: t in threads && threads[t].RetRelease? && threads[t].a in groups
    requires forall a | a in groups :: threads[status[a].t].a == a
    requires forall t | t in releases :: status[threads[t].a].t == t
    ensures |groups| == |releases|
  {
    if releases == {} {
      assert groups == {};
    } else {
      var t :| t in releases;
      Bijection(threads, status, groups - {threads[t].a}, releases - {t});
    }
  }

  // ---------------------------------------------------------------- one answer per group

  datatype Reply = Reply(a: Addr, deny: bool)

  /** What this step answers for event `e`, if it is a registered process writing a reply to it. */
  ghost function ReplyIn(s: Sys, st: Step, e: Addr): Option<Reply>
    requires Safe(s)
  {
    if !st.Return? then None
    else match ReturnEvent(s.k, st.gid, st.id, st.response).1
         case Answering(a, f, deny) => if f == e then Some(Reply(a, deny)) else None
         case _ => None
  }

  predicate Has(hist: map<Addr, Hist>, e: Addr, a: Addr) { e in hist && a in hist[e].status }

  predicate Moves(x: Status, y: Status) {
    || x == y
    || (x.Queued? && (y.InFlight? || y.Removed?))
    || (x.InFlight? && y == if x.deny then Denied else Allowed)
  }

  /** Answers only ever move forward, and a reply is what takes one out of the queue. */
  ghost predicate Advances(hist: map<Addr, Hist>, hist': map<Addr, Hist>, e: Addr, reply: Option<Reply>) {
    && (forall a | Has(hist, e, a) ::
          && Has(hist', e, a) && Moves(hist[e].status[a], hist'[e].status[a])
          && (hist[e].status[a].Queued? && hist'[e].status[a].InFlight? ==> reply == Some(Reply(a, hist'[e].status[a].deny))))
    && (forall a | Has(hist', e, a) && !Has(hist, e, a) :: hist'[e].status[a].Queued? && (e in hist ==> hist[e].seqno == 0))
    && (reply.Some? ==>
          && Has(hist, e, reply.value.a) && hist[e].status[reply.value.a].Queued?
          && Has(hist', e, reply.value.a)
          && hist'[e].status[reply.value.a].InFlight? && hist'[e].status[reply.value.a].deny == reply.value.deny)
  }

  lemma SetStatusAdvances(hist: map<Addr, Hist>, f: Addr, a: Addr, x: Status, e: Addr)
    requires Has(hist, f, a) && Moves(hist[f].status[a], x) && (hist[f].status[a].Queued? ==> x.InFlight?)
    ensures Advances(hist, SetStatus(hist, f, a, x), e, if f == e && x.InFlight? && hist[f].status[a].Queued? then Some(Reply(a, x.deny)) else None)
  {}

  lemma RemovalAdvances(hist: map<Addr, Hist>, g: Group, a: Addr, e: Addr)
    requires g.Holds(e) ==> Has(hist, e, a) && hist[e].status[a].Queued?
    ensures Advances(hist, NoteRemoved(hist, g, a), e, None)
  {}

  predicate Quiet(st: Step) {
    !st.AccessAlloc? && !st.AccessPost? && !st.RemWork? && !st.Close? && !st.ClaimEvent? && !st.Return? && !st.RetFinish?
  }

  lemma QuietHist(s: Sys, st: Step)
    requires Safe(s) && Enabled(s, st) && Quiet(st)
    ensures Next(s, st).hist == s.hist
  {
    hide Wf, Safe;
  }

  /** A reply names an event on the working list of an active group, by the ids the process was given. */
  lemma ReplyIsToQueued(s: Sys, st: Step, a: Addr, e: Addr, deny: bool)
    requires Core(s) && Safe(s) && st.Return? && ReturnEvent(s.k, st.gid, st.id, st.response).1 == Answering(a, e, deny)
    ensures a in s.k.groups && !s.k.groups[a].deprecated && s.k.groups[a].id == st.gid && e in s.k.groups[a].working
    ensures e in s.k.events && s.k.events[e].id == st.id && deny == (st.response == DENY) && st.response != REPOST
    ensures Has(s.hist, e, a) && s.hist[e].status[a].Queued?
  {
    hide EventsCounted, PhasesOk, OwedIsBacked, CountInv, QueueInv, IdInv;
    assert Listed(s.k.groups, a, e);
  }

  lemma StepAdvances(s: Sys, st: Step, e: Addr)
    requires Core(s) && Safe(s) && Enabled(s, st)
    ensures Advances(s.hist, Next(s, st).hist, e, ReplyIn(s, st, e))
  {
    hide Core, Safe;
    if Quiet(st) {
      QuietHist(s, st);
    } else if st.Return? {
      ReplyAdvances(s, st, e);
    } else if st.RemWork? || st.Close? {
      RemovingAdvances(s, st, e);
    } else {
      OpenerAdvances(s, st, e);
    }
  }

  lemma ReplyAdvances(s: Sys, st: Step, e: Addr)
    requires Core(s) && Safe(s) && Enabled(s, st) && st.Return?
    ensures Advances(s.hist, Next(s, st).hist, e, ReplyIn(s, st, e))
  {
    assert Wf(s.k);
    hide *;
    var r := ReturnEvent(s.k, st.gid, st.id, st.response).1;
    ReplyInIs(s, st, e);
    ReturnHist(s, st);
    if r.Answering? {
      ReplyIsToQueued(s, st, r.a, r.e, r.deny);
      HasIsThere(s.hist, r.e, r.a);
      InFlightAdvances(s.hist, r.e, r.a, st.t, r.deny, e);
    } else {
      StandsStill(s.hist, e);
    }
  }

  lemma ReplyInIs(s: Sys, st: Step, e: Addr)
    requires Safe(s) && st.Return?
    ensures var r := ReturnEvent(s.k, st.gid, st.id, st.response).1;
      ReplyIn(s, st, e) == if r.Answering? && r.e == e then Some(Reply(r.a, r.deny)) else None
  {
  }

  lemma InFlightAdvances(hist: map<Addr, Hist>, f: Addr, a: Addr, t: Tid, deny: bool, e: Addr)
    requires Has(hist, f, a) && hist[f].status[a].Queued?
    ensures f in hist && Advances(hist, SetStatus(hist, f, a, InFlight(t, deny)), e, if f == e then Some(Reply(a, deny)) else None)
  {
  }

  lemma HasIsThere(hist: map<Addr, Hist>, e: Addr, a: Addr)
    requires Has(hist, e, a)
    ensures e in hist && a in hist[e].status
  {
  }

  lemma StandsStill(hist: map<Addr, Hist>, e: Addr)
    ensures Advances(hist, hist, e, None)
  {
  }

  lemma ReturnHist(s: Sys, st: Step)
    requires Safe(s) && Enabled(s, st) && st.Return?
    ensures var r := ReturnEvent(s.k, st.gid, st.id, st.response).1;
      if r.Answering? then r.e in s.hist ==> Next(s, st).hist == SetStatus(s.hist, r.e, r.a, InFlight(st.t, r.deny))
      else Next(s, st).hist == s.hist
  {
    hide Wf;
  }

  lemma RemovingAdvances(s: Sys, st: Step, e: Addr)
    requires Core(s) && Safe(s) && Enabled(s, st) && (st.RemWork? || st.Close?)
    ensures Advances(s.hist, Next(s, st).hist, e, None)
  {
    hide *;
    var found := RemovingHist(s, st);
    if found.Some? {
      ListedHas(s, found.value, e);
      RemovalAdvances(s.hist, s.k.groups[found.value], found.value, e);
    } else {
      StandsStill(s.hist, e);
    }
  }

  /** The group that such a step takes out of use, if it does, and what that does to the answers. */
  lemma RemovingHist(s: Sys, st: Step) returns (found: Option<Addr>)
    requires Safe(s) && Enabled(s, st) && (st.RemWork? || st.Close?)
    ensures found.None? ==> Next(s, st).hist == s.hist
    ensures found.Some? ==>
              && found.value in s.k.groups && found.value !in Active(Next(s, st).k.groups)
              && Next(s, st).hist == NoteRemoved(s.hist, s.k.groups[found.value], found.value)
  {
    GroupStepIs(s, st);
    hide *;
    if st.RemWork? { found := RemovalHist(s, st.t); } else { found := CloseHist(s, st.h); }
  }

  lemma RemovalHist(s: Sys, t: Tid) returns (found: Option<Addr>)
    requires Safe(s) && t in s.threads && s.threads[t].RemGo?
    ensures found.None? ==> DoRemove(s, t).hist == s.hist
    ensures found.Some? ==>
              && found.value in s.k.groups && found.value !in Active(DoRemove(s, t).k.groups)
              && DoRemove(s, t).hist == NoteRemoved(s.hist, s.k.groups[found.value], found.value)
  {
    hide ReleaseAll, NoteRemoved;
    found := FindByName(s.k.list, s.k.groups, s.threads[t].name);
  }

  lemma CloseHist(s: Sys, h: nat) returns (found: Option<Addr>)
    requires Safe(s) && h in s.handles
    ensures found.None? ==> DoClose(s, h).hist == s.hist
    ensures found.Some? ==>
              && found.value in s.k.groups && found.value !in Active(DoClose(s, h).k.groups)
              && DoClose(s, h).hist == NoteRemoved(s.hist, s.k.groups[found.value], found.value)
  {
    hide ReleaseAll, NoteRemoved;
    found := FindById(s.k.list, s.k.groups, s.handles[h].gid);
    if s.handles[h].group.None? || (found.Some? && !(s.k.groups[found.value].tracking && s.k.groups[found.value].trackCount == 1)) {
      found := None;
    }
  }

  lemma ListedHas(s: Sys, a: Addr, e: Addr)
    requires Core(s) && a in s.k.groups
    ensures s.k.groups[a].Holds(e) ==> Has(s.hist, e, a) && s.hist[e].status[a].Queued?
  {
  }

  lemma OpenerAdvances(s: Sys, st: Step, e: Addr)
    requires Core(s) && Safe(s) && Enabled(s, st)
    requires st.AccessAlloc? || st.AccessPost? || st.ClaimEvent? || st.RetFinish?
    ensures Advances(s.hist, Next(s, st).hist, e, None)
  {
    hide AccountInv, CountInv, QueueInv, IdInv, Wf;
    PhaseOf(s, st.t);
    if st.AccessAlloc? {
      assert st.e !in s.hist.Keys;
    } else if st.RetFinish? {
      var th := s.threads[st.t];
      SetStatusAdvances(s.hist, th.e, th.a, if th.deny then Denied else Allowed, e);
    } else if st.AccessPost? {
      assert s.hist[s.threads[st.t].e].status == map[];
    } else {
      HeadIsKnown(s, s.threads[st.t].a);
    }
  }

  // ---------------------------------------------------------------- the verdict

  predicate Objects(hist: map<Addr, Hist>, e: Addr, a: Addr) {
    Has(hist, e, a) && (hist[e].status[a].Denied? || (hist[e].status[a].InFlight? && hist[e].status[a].deny))
  }

  ghost predicate Objected(hist: map<Addr, Hist>, e: Addr) { exists a :: Objects(hist, e, a) }

  /** The reply to event `e` in step `i` of the run. */
  ghost function ReplyAt(run: seq<Step>, i: nat, e: Addr): Option<Reply>
    requires Legal(run) && i < |run|
  {
    SafeBefore(run, i);
    ReplyIn(At(run[..i]), run[i], e)
  }

  /** Some group answered DENY for event `e` in step `i` of the run. */
  ghost predicate DeniedAt(run: seq<Step>, i: nat, e: Addr)
    requires Legal(run) && i < |run|
  {
    ReplyAt(run, i, e).Some? && ReplyAt(run, i, e).value.deny
  }

  /** The last step of a run moves the answers on, by the reply it contains if any. */
  lemma LastStep(run: seq<Step>, e: Addr)
    requires Legal(run) && run != []
    ensures Legal(run[..|run| - 1])
    ensures Advances(At(run[..|run| - 1]).hist, At(run).hist, e, ReplyAt(run, |run| - 1, e))
    ensures forall i :: 0 <= i < |run| - 1 ==> ReplyAt(run, i, e) == ReplyAt(run[..|run| - 1], i, e)
  {
    hide Core, Safe, Next, Enabled, ReplyIn;
    var before := run[..|run| - 1];
    RunsKeepCore(before);
    StepAdvances(At(before), run[|run| - 1], e);
    hide At, Legal;
    forall i | 0 <= i < |run| - 1 ensures ReplyAt(run, i, e) == ReplyAt(before, i, e) {
      assert run[..i] == before[..i];
    }
  }

  ghost predicate DeniedDuring(run: seq<Step>, e: Addr)
    requires Legal(run)
  {
    exists i :: 0 <= i < |run| && DeniedAt(run, i, e)
  }

  lemma DeniedSplits(run: seq<Step>, e: Addr)
    requires Legal(run) && run != [] && Legal(run[..|run| - 1])
    requires forall i :: 0 <= i < |run| - 1 ==> ReplyAt(run, i, e) == ReplyAt(run[..|run| - 1], i, e)
    ensures DeniedDuring(run, e) <==> DeniedDuring(run[..|run| - 1], e) || DeniedAt(run, |run| - 1, e)
  {
    hide ReplyAt, Legal;
    var before := run[..|run| - 1];
    if i :| 0 <= i < |before| && DeniedAt(before, i, e) { assert DeniedAt(run, i, e); }
    if i :| 0 <= i < |run| && DeniedAt(run, i, e) { assert i == |before| || DeniedAt(before, i, e); }
  }

  lemma {:induction false} ObjectionsAreReplies(run: seq<Step>, e: Addr)
    requires Legal(run)
    ensures Objected(At(run).hist, e) <==> DeniedDuring(run, e)
  {
    if run == [] {
      assert At(run) == INIT;
    } else {
      hide At, Legal, Safe, Core, ReplyAt, Advances, DeniedDuring, Objected;
      LastStep(run, e);
      ObjectionsAreReplies(run[..|run| - 1], e);
      ObjectionStep(At(run[..|run| - 1]).hist, At(run).hist, e, ReplyAt(run, |run| - 1, e));
      DeniedSplits(run, e);
    }
  }

  lemma ObjectionStep(hist: map<Addr, Hist>, hist': map<Addr, Hist>, e: Addr, reply: Option<Reply>)
    requires Advances(hist, hist', e, reply)
    ensures Objected(hist', e) <==> Objected(hist, e) || (reply.Some? && reply.value.deny)
  {
    if a :| Objects(hist', e, a) {
      assert Has(hist, e, a) && Moves(hist[e].status[a], hist'[e].status[a]);
      assert Objects(hist, e, a) || (reply.Some? && reply.value.deny);
    }
    if a :| Objects(hist, e, a) { assert Objects(hist', e, a); }
    if reply.Some? && reply.value.deny { assert Objects(hist', e, reply.value.a); }
  }

  /** An access that was posted is refused exactly when some group answered DENY, and it returns only
      when no group still owes an answer. */
  lemma DenialsDecide(run: seq<Step>, t: Tid)
    requires Legal(run) && t in At(run).threads && At(run).threads[t].OpDone?
    ensures var s := At(run); var e := s.threads[t].e;
      && (s.threads[t].denied <==> DeniedDuring(run, e))
      && e in s.hist && (forall a | a in s.hist[e].status ::
            s.hist[e].status[a].Allowed? || s.hist[e].status[a].Denied? || s.hist[e].status[a].Removed?)
  {
    hide Core, Safe;
    RunsKeepCore(run);
    var s := At(run);
    PhaseOf(s, t);
    DoneIsSettled(s, t);
    ObjectionsAreReplies(run, s.threads[t].e);
  }

  lemma DoneIsSettled(s: Sys, t: Tid)
    requires t in s.threads && PhaseOk(t, s.threads[t], s.k.events, s.hist) && s.threads[t].OpDone?
    ensures var status := s.hist[s.threads[t].e].status;
      && (forall a | a in status :: status[a].Allowed? || status[a].Denied? || status[a].Removed?)
      && s.threads[t].denied == Objected(s.hist, s.threads[t].e)
  {
    var status := s.hist[s.threads[t].e].status;
    forall a | a in status ensures !status[a].Open() { assert a !in OpenIn(status); }
    if a :| a in status && status[a].Denied? { assert Objects(s.hist, s.threads[t].e, a); }
  }

  // ---------------------------------------------------------------- each group answers at most once

  predicate Settled(hist: map<Addr, Hist>, e: Addr, a: Addr) { Has(hist, e, a) && !hist[e].status[a].Queued? }

  lemma {:induction false} SettledStays(run: seq<Step>, n: nat, e: Addr, a: Addr)
    requires Legal(run) && n <= |run| && Legal(run[..n]) && Settled(At(run[..n]).hist, e, a)
    ensures Settled(At(run).hist, e, a)
    decreases |run|
  {
    hide At, Legal, Safe, Core, ReplyAt;
    if n == |run| { assert run[..n] == run; } else {
      var before := run[..|run| - 1];
      assert before[..n] == run[..n];
      LastStep(run, e);
      SettledStays(before, n, e, a);
    }
  }

  lemma ReplySettles(run: seq<Step>, i: nat, e: Addr)
    requires Legal(run) && i < |run| && ReplyAt(run, i, e).Some?
    ensures Legal(run[..i]) && !Settled(At(run[..i]).hist, e, ReplyAt(run, i, e).value.a)
    ensures Legal(run[..i + 1]) && Settled(At(run[..i + 1]).hist, e, ReplyAt(run, i, e).value.a)
  {
    hide At, Legal, Safe, Core, ReplyIn;
    LegalPrefix(run, i); LegalPrefix(run, i + 1);
    assert run[..i + 1][..i] == run[..i] && run[..i + 1][i] == run[i];
    LastStep(run[..i + 1], e);
    assert ReplyAt(run[..i + 1], i, e) == ReplyAt(run, i, e);
  }

  /** No group answers twice for one event. */
  lemma AnsweredAtMostOnce(run: seq<Step>, i: nat, j: nat, e: Addr)
    requires Legal(run) && i < j < |run| && ReplyAt(run, i, e).Some? && ReplyAt(run, j, e).Some?
    ensures ReplyAt(run, i, e).value.a != ReplyAt(run, j, e).value.a
  {
    hide At, Legal, Safe, Core, ReplyAt, Settled;
    ReplySettles(run, i, e);
    ReplySettles(run, j, e);
    assert run[..j][..i + 1] == run[..i + 1];
    SettledStays(run[..j], i + 1, e, ReplyAt(run, i, e).value.a);
  }

  // ---------------------------------------------------------------- who has to answer

  /** A posted event keeps its place in the order of posting. */
  lemma SeqnoStays(s: Sys, st: Step, e: Addr)
    requires Core(s) && Safe(s) && Enabled(s, st) && e in s.hist && s.hist[e].seqno > 0
    ensures e in Next(s, st).hist && Next(s, st).hist[e].seqno == s.hist[e].seqno
  {
    hide AccountInv, CountInv, QueueInv, IdInv, Wf;
    if Quiet(st) {
      QuietHist(s, st);
    } else if st.AccessPost? {
      PhaseOf(s, st.t);
    }
    hide Post, Claim, Kernel.ReturnEvent, RemoveByName, Kernel.CloseTracking, Release;
  }

  /** The groups that owe an answer, or have given it, or were removed, are for ever those that were
      active when the event was posted. */
  lemma {:induction false} PostedGroupsStay(run: seq<Step>, i: nat)
    requires Legal(run) && i < |run| && run[i].AccessPost?
    ensures Legal(run[..i]) && run[i].t in At(run[..i]).threads && At(run[..i]).threads[run[i].t].OpAlloc?
    ensures var e := At(run[..i]).threads[run[i].t].e;
      && e in At(run).hist && At(run).hist[e].seqno > 0
      && At(run).hist[e].status.Keys == Active(At(run[..i]).k.groups)
    decreases |run|
  {
    hide *;
    var before := run[..|run| - 1];
    Unroll(run);
    RunsKeepCore(before);
    if i == |run| - 1 {
      PostAsks(At(before), run[i]);
    } else {
      assert before[..i] == run[..i] && before[i] == run[i];
      PostedGroupsStay(before, i);
      var e := At(run[..i]).threads[run[i].t].e;
      LastStep(run, e);
      SeqnoStays(At(before), run[|run| - 1], e);
      KeysStay(At(before).hist, At(run).hist, e, ReplyAt(run, |run| - 1, e));
    }
  }

  lemma PostAsks(s: Sys, st: Step)
    requires Safe(s) && Enabled(s, st) && st.AccessPost?
    ensures st.t in s.threads && s.threads[st.t].OpAlloc?
    ensures var e := s.threads[st.t].e; var s1 := Next(s, st);
      e in s1.hist && s1.hist[e].seqno > 0 && s1.hist[e].status.Keys == Active(s.k.groups)
  {
  }

  lemma KeysStay(hist: map<Addr, Hist>, hist': map<Addr, Hist>, e: Addr, reply: Option<Reply>)
    requires Advances(hist, hist', e, reply) && e in hist && e in hist' && hist[e].seqno > 0
    ensures hist'[e].status.Keys == hist[e].status.Keys
  {
  }
}
