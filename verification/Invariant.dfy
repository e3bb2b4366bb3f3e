/** What holds in every reachable state of `Protocol`, in parts. Each part names the
    components it depends on, so that a step which leaves them alone keeps it. */
module Invariant {
  import opened Kernel
  import opened Protocol

  // ---------------------------------------------------------------- accounting of events

  function OpenIn(status: map<Addr, Status>): set<Addr> {
    set a | a in status && status[a].Open()
  }

  predicate DeniedIn(status: map<Addr, Status>) {
    exists a :: a in status && status[a].Denied?
  }

  predicate EventOk(ev: Event, h: Hist) {
    && !ev.deprecated
    && ev.assignedCount == |OpenIn(h.status)|
    && ev.deny == DeniedIn(h.status)
  }

  ghost predicate PhaseOk(t: Tid, th: Thread, events: map<Addr, Event>, hist: map<Addr, Hist>) {
    && (th.Opened().Some? ==> th.e in events && th.e in hist && hist[th.e].owner == t)
    && (th.OpAlloc? ==> hist[th.e].status == map[] && hist[th.e].seqno == 0)
    && (th.Opened().Some? && !th.OpAlloc? ==> hist[th.e].seqno > 0)
    && (th.OpWoken? || th.OpJudged? ==> OpenIn(hist[th.e].status) == {})
    && (th.OpJudged? ==> th.denied == events[th.e].deny)
    && (th.OpDone? ==>
          && th.e in hist && th.e !in events && hist[th.e].seqno > 0
          && OpenIn(hist[th.e].status) == {}
          && th.denied == DeniedIn(hist[th.e].status))
    && (th.RetRelease? ==>
          && th.e in events && th.e in hist && th.a in hist[th.e].status
          && hist[th.e].status[th.a] == InFlight(t, th.deny))
  }

  predicate Listed(groups: map<Addr, Group>, a: Addr, e: Addr) { a in groups && groups[a].Holds(e) }

  /** Group `a` has still to answer for event `e`. */
  predicate Owed(hist: map<Addr, Hist>, e: Addr, a: Addr) { e in hist && a in hist[e].status && hist[e].status[a].Open() }

  /** What stands behind an answer still to come: a place on a list, or a release under way. */
  predicate Backed(x: Status, e: Addr, a: Addr, groups: map<Addr, Group>, threads: map<Tid, Thread>) {
    if x.InFlight? then x.t in threads && threads[x.t] == RetRelease(a, e, x.deny)
    else Listed(groups, a, e)
  }

  predicate EventsCounted(events: map<Addr, Event>, threads: map<Tid, Thread>, hist: map<Addr, Hist>) {
    forall e | e in events ::
      && e in hist && EventOk(events[e], hist[e])
      && hist[e].owner in threads && threads[hist[e].owner].Opened() == Some(e)
  }

  ghost predicate PhasesOk(events: map<Addr, Event>, threads: map<Tid, Thread>, hist: map<Addr, Hist>) {
    forall t | t in threads :: PhaseOk(t, threads[t], events, hist)
  }

  ghost predicate ListedIsQueued(groups: map<Addr, Group>, hist: map<Addr, Hist>) {
    forall a, e | Listed(groups, a, e) :: e in hist && a in hist[e].status && hist[e].status[a] == Queued
  }

  ghost predicate OwedIsBacked(groups: map<Addr, Group>, events: map<Addr, Event>, threads: map<Tid, Thread>, hist: map<Addr, Hist>) {
    forall e, a | Owed(hist, e, a) :: e in events && Backed(hist[e].status[a], e, a, groups, threads)
  }

  ghost predicate AccountInv(groups: map<Addr, Group>, events: map<Addr, Event>, threads: map<Tid, Thread>,
                             hist: map<Addr, Hist>)
  {
    && EventsCounted(events, threads, hist)
    && PhasesOk(events, threads, hist)
    && ListedIsQueued(groups, hist)
    && OwedIsBacked(groups, events, threads, hist)
  }

  // ---------------------------------------------------------------- counting of groups

  predicate PendingAdd(threads: map<Tid, Thread>) { exists t :: t in threads && threads[t].AddLinked? }

  predicate CountInv(groups: map<Addr, Group>, count: int, threads: map<Tid, Thread>) {
    && |Active(groups)| == count + (if PendingAdd(threads) then 1 else 0)
    && |Active(groups)| <= GROUP_COUNT
    && (forall t, u | t in threads && u in threads && t != u && threads[t].Writes() ::
          !threads[u].Writes() && !threads[u].Reads())
    && (forall t | t in threads ::
          && (threads[t].OpAlloc? ==> |Active(groups)| <= threads[t].n <= GROUP_COUNT)
          && (threads[t].AddReady? ==> |Active(groups)| < GROUP_COUNT)
          && (threads[t].AddFresh? || threads[t].AddReady? ==>
                forall a | a in Active(groups) :: groups[a].name != threads[t].name && groups[a].id != threads[t].id))
  }

  // ---------------------------------------------------------------- use and tracking counts

  function Users(threads: map<Tid, Thread>, a: Addr): set<Tid> {
    set t | t in threads && threads[t].Held() == Some(a)
  }

  function Trackers(handles: map<nat, Handle>, a: Addr): set<nat> {
    set h | h in handles && handles[h].group == Some(a)
  }

  /** A group is used by the calls that hold it and by what is counted as tracked. */
  predicate UseInv(groups: map<Addr, Group>, threads: map<Tid, Thread>) {
    forall a | a in groups :: groups[a].useCount == groups[a].trackCount + |Users(threads, a)|
  }

  /** The groups that calls hold have not been freed. */
  predicate HeldLive(groups: map<Addr, Group>, threads: map<Tid, Thread>) {
    forall t | t in threads && threads[t].Held().Some? :: threads[t].Held().value in groups
  }

  predicate NonNegative(groups: map<Addr, Group>) { forall a | a in groups :: groups[a].trackCount >= 0 }

  predicate TrackInv(groups: map<Addr, Group>, handles: map<nat, Handle>, born: set<Addr>) {
    && (forall a | a in groups && !groups[a].deprecated :: groups[a].trackCount == |Trackers(handles, a)|)
    && (forall h | h in handles && handles[h].group.Some? ::
          var a := handles[h].group.value;
          a in born && (a in groups ==> groups[a].tracking && groups[a].id == handles[h].gid))
  }

  // ---------------------------------------------------------------- queues

  predicate Claimed(hist: map<Addr, Hist>, e: Addr, a: Addr) { e in hist && a in hist[e].claimed }

  /** Reposted events first, then the events nobody in the group has claimed, in posting order. */
  predicate TodoOk(todo: seq<Addr>, a: Addr, hist: map<Addr, Hist>) {
    forall i, j | 0 <= i < j < |todo| ::
      || Claimed(hist, todo[i], a)
      || (!Claimed(hist, todo[j], a) && todo[i] in hist && todo[j] in hist && hist[todo[i]].seqno < hist[todo[j]].seqno)
  }

  predicate QueueInv(groups: map<Addr, Group>, threads: map<Tid, Thread>, hist: map<Addr, Hist>, posts: nat)
  {
    && (forall a | a in groups ::
          && TodoOk(groups[a].todo, a, hist)
          && (forall e | e in groups[a].working :: Claimed(hist, e, a))
          && (forall e | e in groups[a].todo :: e in hist && hist[e].seqno > 0))
    && (forall t | t in threads && (threads[t].GetClaimed? || threads[t].RetRepost?) ::
          Claimed(hist, threads[t].e, threads[t].a))
    && (forall e | e in hist :: hist[e].seqno <= posts && (hist[e].seqno == 0 ==> hist[e].claimed == {}))
    && (forall e, f | e in hist && f in hist && hist[e].seqno == hist[f].seqno && hist[e].seqno > 0 :: e == f)
  }

  /** The id of the n-th posted event: an int counter that wraps, widened to an unsigned long. */
  function Counter(n: nat): int {
    var m := n % 0x1_0000_0000;
    if m < 0x8000_0000 then m else m - 0x1_0000_0000
  }

  predicate IdInv(events: map<Addr, Event>, hist: map<Addr, Hist>, lastId: int, posts: nat) {
    && lastId == Counter(posts)
    && (forall e | e in events && e in hist && hist[e].seqno > 0 :: events[e].id == AsUnsignedLong(Counter(hist[e].seqno)))
  }

  // ---------------------------------------------------------------- together

  ghost predicate BornInv(s: Sys) {
    && s.k.groups.Keys <= s.born
    && s.hist.Keys <= s.born
  }

  /** What holds in every state that can be reached, whatever handles are closed. */
  ghost predicate Core(s: Sys) {
    && Wf(s.k)
    && BornInv(s)
    && AccountInv(s.k.groups, s.k.events, s.threads, s.hist)
    && CountInv(s.k.groups, s.k.count, s.threads)
    && QueueInv(s.k.groups, s.threads, s.hist, s.posts)
    && IdInv(s.k.events, s.hist, s.k.lastId, s.posts)
  }

  /** What keeps held groups from being freed: use counts that are right, and no negative tracking count. */
  ghost predicate CountsInv(s: Sys) {
    && UseInv(s.k.groups, s.threads)
    && HeldLive(s.k.groups, s.threads)
    && NonNegative(s.k.groups)
  }

  /** What holds as long as no close lowers a tracking count below zero. */
  ghost predicate SafeInv(s: Sys) { Core(s) && CountsInv(s) }

  /** What holds as long as tracked handles are closed under ids that still are their groups'. */
  ghost predicate Inv(s: Sys) { SafeInv(s) && TrackInv(s.k.groups, s.handles, s.born) }

  /** With the core, the only freed memory a step can reach is a group that a call still holds. */
  lemma CoreIsSafeExactly(s: Sys)
    requires Core(s)
    ensures Safe(s) <==> HeldLive(s.k.groups, s.threads)
  {
    forall t | t in s.threads ensures PhaseOk(t, s.threads[t], s.k.events, s.hist) {}
  }

  lemma SafeInvIsSafe(s: Sys)
    requires SafeInv(s)
    ensures Safe(s)
  {
    CoreIsSafeExactly(s);
  }

  /** What tracking asks of the environment: when a tracked handle is closed, the group now found
      under its id, if it counts handles at all, is the group the handle was counted on. */
  predicate HandleMatches(s: Sys, st: Step)
    requires ListOk(s.k.list, s.k.groups)
  {
    st.Close? && st.h in s.handles && s.handles[st.h].group.Some? ==>
      var found := FindById(s.k.list, s.k.groups, s.handles[st.h].gid);
      found.None? || found == s.handles[st.h].group || !s.k.groups[found.value].tracking
  }
}
