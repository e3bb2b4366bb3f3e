/** Every answer still owed is backed by a list entry or a release under way, and the counts agree. */
module KeepsAccounts {
  import opened Kernel
  import opened Protocol
  import opened Invariant
  import opened KeepsCounts

  function OpenedBy(threads: map<Tid, Thread>, t: Tid): Option<Addr> {
    if t in threads then threads[t].Opened() else None
  }

  predicate Releasing(threads: map<Tid, Thread>, t: Tid) { t in threads && threads[t].RetRelease? }

  ghost predicate SameLists(groups: map<Addr, Group>, groups': map<Addr, Group>) {
    forall a, e :: Listed(groups', a, e) <==> Listed(groups, a, e)
  }

  predicate SameAnswers(hist: map<Addr, Hist>, hist': map<Addr, Hist>) {
    && hist'.Keys == hist.Keys
    && forall e | e in hist :: hist'[e] == hist[e].(claimed := hist'[e].claimed)
  }

  /** A caller moves on; no event, answer or list membership changes. */
  lemma AccountMove(groups: map<Addr, Group>, groups': map<Addr, Group>, events: map<Addr, Event>,
                    threads: map<Tid, Thread>, threads': map<Tid, Thread>, hist: map<Addr, Hist>, hist': map<Addr, Hist>, t: Tid)
    requires AccountInv(groups, events, threads, hist) && SameOthers(threads, threads', t)
    requires SameLists(groups, groups') && SameAnswers(hist, hist')
    requires OpenedBy(threads', t) == OpenedBy(threads, t) && !Releasing(threads, t) && !Releasing(threads', t)
    requires t in threads' ==> PhaseOk(t, threads'[t], events, hist)
    ensures AccountInv(groups', events, threads', hist')
  {
    forall u | u in threads' ensures PhaseOk(u, threads'[u], events, hist') {
      if u != t { assert threads'[u] == threads[u] && PhaseOk(u, threads[u], events, hist); }
    }
    forall e, a | Owed(hist', e, a)
      ensures e in events && Backed(hist'[e].status[a], e, a, groups', threads')
    {
      assert Owed(hist, e, a) && Backed(hist[e].status[a], e, a, groups, threads);
    }
  }

  lemma NothingOwed(hist: map<Addr, Hist>, e: Addr)
    requires e in hist && OpenIn(hist[e].status) == {}
    ensures forall a :: !Owed(hist, e, a)
  {
    forall a ensures !Owed(hist, e, a) { assert a !in OpenIn(hist[e].status); }
  }

  lemma AccountAlloc(groups: map<Addr, Group>, events: map<Addr, Event>, threads: map<Tid, Thread>,
                     hist: map<Addr, Hist>, t: Tid, e: Addr, n: nat)
    requires AccountInv(groups, events, threads, hist)
    requires e !in hist && t in threads && threads[t].OpStart?
    ensures AccountInv(groups, events[e := Event(0, 0, false, false)], threads[t := OpAlloc(e, n)], hist[e := Hist(t, 0, map[], {})])
  {
    var threads' := threads[t := OpAlloc(e, n)];
    var events' := events[e := Event(0, 0, false, false)];
    var hist' := hist[e := Hist(t, 0, map[], {})];
    AllocPhases(events, threads, hist, t, e, n);
    AllocCounted(events, threads, hist, t, e, n);
    hide PhasesOk, EventsCounted;
    forall f, a | Owed(hist', f, a) ensures f in events' && Backed(hist'[f].status[a], f, a, groups, threads') {
      assert f != e && Owed(hist, f, a) && Backed(hist[f].status[a], f, a, groups, threads);
    }
    assert ListedIsQueued(groups, hist');
  }

  lemma AllocPhases(events: map<Addr, Event>, threads: map<Tid, Thread>, hist: map<Addr, Hist>, t: Tid, e: Addr, n: nat)
    requires PhasesOk(events, threads, hist) && e !in hist && t in threads && threads[t].OpStart?
    ensures PhasesOk(events[e := Event(0, 0, false, false)], threads[t := OpAlloc(e, n)], hist[e := Hist(t, 0, map[], {})])
  {
  }

  lemma AllocCounted(events: map<Addr, Event>, threads: map<Tid, Thread>, hist: map<Addr, Hist>, t: Tid, e: Addr, n: nat)
    requires EventsCounted(events, threads, hist) && e !in hist && t in threads && threads[t].OpStart?
    ensures EventsCounted(events[e := Event(0, 0, false, false)], threads[t := OpAlloc(e, n)], hist[e := Hist(t, 0, map[], {})])
  {
  }

  /** Posting: the event is owed one answer by every active group. */
  lemma AccountPost(k: State, k1: State, threads: map<Tid, Thread>, hist: map<Addr, Hist>, t: Tid, n: nat)
    requires AccountInv(k.groups, k.events, threads, hist) && n > 0
    requires t in threads && threads[t].OpAlloc? && threads[t].e in k.events && threads[t].e in hist
    requires var e := threads[t].e;
      && e in k1.events && k1.events == k.events[e := k1.events[e]]
      && k1.events[e] == k.events[e].(id := k1.events[e].id, assignedCount := k.events[e].assignedCount + |Active(k.groups)|)
    requires forall a, f :: Listed(k1.groups, a, f) <==> Listed(k.groups, a, f) || (f == threads[t].e && a in Active(k.groups))
    ensures var e := threads[t].e;
      AccountInv(k1.groups, k1.events, threads[t := OpPosted(e)],
        hist[e := hist[e].(seqno := n, status := map a | a in Active(k.groups) :: Queued)])
  {
    var e := threads[t].e;
    var status: map<Addr, Status> := map a | a in Active(k.groups) :: Queued;
    var hist' := hist[e := hist[e].(seqno := n, status := status)];
    var threads' := threads[t := OpPosted(e)];
    NotYetPosted(k.groups, k.events, threads, hist, t);
    assert OpenIn(status) == Active(k.groups) && !DeniedIn(status);
    hide EventsCounted, PhasesOk, OwedIsBacked, ListedIsQueued, PhaseOk, OpenIn, DeniedIn, Active;
    PostPhases(k.events, k1.events, threads, hist, hist', t);
    PostCounted(k.events, k1.events, threads, threads', hist, hist', e);
    PostBacked(k, k1, threads, hist, hist', t);
  }

  lemma NotYetPosted(groups: map<Addr, Group>, events: map<Addr, Event>, threads: map<Tid, Thread>, hist: map<Addr, Hist>, t: Tid)
    requires AccountInv(groups, events, threads, hist)
    requires t in threads && threads[t].OpAlloc? && threads[t].e in events && threads[t].e in hist
    ensures var e := threads[t].e;
      && OpenIn(hist[e].status) == {} && !DeniedIn(hist[e].status) && EventOk(events[e], hist[e])
      && forall a :: !Listed(groups, a, e)
  {
  }

  lemma PostCounted(events: map<Addr, Event>, events': map<Addr, Event>, threads: map<Tid, Thread>, threads': map<Tid, Thread>,
                    hist: map<Addr, Hist>, hist': map<Addr, Hist>, e: Addr)
    requires EventsCounted(events, threads, hist) && e in events && e in hist && e in events' && e in hist'
    requires events' == events[e := events'[e]] && hist' == hist[e := hist'[e]] && hist'[e].owner == hist[e].owner
    requires EventOk(events'[e], hist'[e])
    requires forall t | t in threads :: t in threads' && threads'[t].Opened() == threads[t].Opened()
    ensures EventsCounted(events', threads', hist')
  {
  }

  lemma PostBacked(k: State, k1: State, threads: map<Tid, Thread>, hist: map<Addr, Hist>, hist': map<Addr, Hist>, t: Tid)
    requires OwedIsBacked(k.groups, k.events, threads, hist) && ListedIsQueued(k.groups, hist)
    requires t in threads && threads[t].OpAlloc? && threads[t].e in hist && threads[t].e in hist'
    requires var e := threads[t].e;
      && e in k1.events && k1.events.Keys == k.events.Keys
      && hist' == hist[e := hist'[e]] && hist'[e].status == map a | a in Active(k.groups) :: Queued
    requires forall a :: !Listed(k.groups, a, threads[t].e)
    requires forall a, f :: Listed(k1.groups, a, f) <==> Listed(k.groups, a, f) || (f == threads[t].e && a in Active(k.groups))
    ensures OwedIsBacked(k1.groups, k1.events, threads[t := OpPosted(threads[t].e)], hist')
    ensures ListedIsQueued(k1.groups, hist')
  {
  }

  lemma PostPhases(events: map<Addr, Event>, events': map<Addr, Event>, threads: map<Tid, Thread>,
                   hist: map<Addr, Hist>, hist': map<Addr, Hist>, t: Tid)
    requires PhasesOk(events, threads, hist) && t in threads && threads[t].OpAlloc?
    requires threads[t].e in events && threads[t].e in hist && threads[t].e in events'
    requires events' == events[threads[t].e := events'[threads[t].e]]
    requires threads[t].e in hist' && hist' == hist[threads[t].e := hist'[threads[t].e]]
    requires hist'[threads[t].e].owner == t && hist'[threads[t].e].seqno > 0
    ensures PhasesOk(events', threads[t := OpPosted(threads[t].e)], hist')
  {
  }

  /** The opener frees the event; nobody else can still reach it. */
  lemma AccountFree(groups: map<Addr, Group>, events: map<Addr, Event>, threads: map<Tid, Thread>,
                    hist: map<Addr, Hist>, t: Tid)
    requires AccountInv(groups, events, threads, hist) && t in threads && threads[t].OpJudged?
    requires threads[t].e in events
    ensures Frees(events[threads[t].e], false)
    ensures forall a :: !Listed(groups, a, threads[t].e)
    ensures AccountInv(groups, events - {threads[t].e}, threads[t := OpDone(threads[t].e, threads[t].denied)], hist)
  {
    var e := threads[t].e;
    assert PhaseOk(t, threads[t], events, hist) && EventOk(events[e], hist[e]);
    NothingOwed(hist, e);
    forall a ensures !Listed(groups, a, e) {
      assert Listed(groups, a, e) ==> Owed(hist, e, a);
    }
    var threads' := threads[t := OpDone(e, threads[t].denied)];
    forall u | u in threads' ensures PhaseOk(u, threads'[u], events - {e}, hist) {
      if u != t {
        assert PhaseOk(u, threads[u], events, hist);
        assert threads[u].RetRelease? ==> Owed(hist, threads[u].e, threads[u].a);
      }
    }
    forall f, a | Owed(hist, f, a) ensures f in events - {e} && Backed(hist[f].status[a], f, a, groups, threads') {
      assert Backed(hist[f].status[a], f, a, groups, threads);
    }
  }

  lemma StatusUpdate(status: map<Addr, Status>, a: Addr, x: Status)
    requires a in status && status[a].Open()
    ensures DeniedIn(status[a := x]) == (DeniedIn(status) || x.Denied?)
    ensures OpenIn(status[a := x]) == if x.Open() then OpenIn(status) else OpenIn(status) - {a}
    ensures a in OpenIn(status)
  {
    var status' := status[a := x];
    if b :| b in status && status[b].Denied? { assert status'[b].Denied?; }
    if x.Denied? { assert status'[a].Denied?; }
  }

  /** An answer takes the event off the working list: the release is now under way. */
  lemma AccountUnlink(groups: map<Addr, Group>, g: Group, events: map<Addr, Event>, threads: map<Tid, Thread>,
                      hist: map<Addr, Hist>, t: Tid, a: Addr, e: Addr, deny: bool)
    requires AccountInv(groups, events, threads, hist) && t !in threads
    requires e in events && e in hist && Listed(groups, a, e)
    requires forall f :: g.Holds(f) <==> groups[a].Holds(f) && f != e
    ensures AccountInv(groups[a := g], events, threads[t := RetRelease(a, e, deny)], SetStatus(hist, e, a, InFlight(t, deny)))
  {
    UnlinkPhases(events, threads, hist, t, a, e, deny);
    UnlinkCounted(events, threads, hist, t, a, e, deny);
    UnlinkBacked(groups, g, events, threads, hist, t, a, e, deny);
    hide PhasesOk, EventsCounted, ListedIsQueued, OwedIsBacked;
  }

  lemma UnlinkBacked(groups: map<Addr, Group>, g: Group, events: map<Addr, Event>, threads: map<Tid, Thread>,
                     hist: map<Addr, Hist>, t: Tid, a: Addr, e: Addr, deny: bool)
    requires OwedIsBacked(groups, events, threads, hist) && ListedIsQueued(groups, hist) && t !in threads
    requires e in events && e in hist && Listed(groups, a, e)
    requires forall f :: g.Holds(f) <==> groups[a].Holds(f) && f != e
    ensures OwedIsBacked(groups[a := g], events, threads[t := RetRelease(a, e, deny)], SetStatus(hist, e, a, InFlight(t, deny)))
    ensures ListedIsQueued(groups[a := g], SetStatus(hist, e, a, InFlight(t, deny)))
  {
    var hist' := SetStatus(hist, e, a, InFlight(t, deny));
    var threads' := threads[t := RetRelease(a, e, deny)];
    var groups' := groups[a := g];
    forall b, f | Listed(groups', b, f) ensures f in hist' && b in hist'[f].status && hist'[f].status[b] == Queued {
      assert Listed(groups, b, f);
    }
    forall f, b | Owed(hist', f, b) ensures f in events && Backed(hist'[f].status[b], f, b, groups', threads') {
      if f != e || b != a { assert Owed(hist, f, b) && Backed(hist[f].status[b], f, b, groups, threads); }
    }
  }

  lemma UnlinkCounted(events: map<Addr, Event>, threads: map<Tid, Thread>, hist: map<Addr, Hist>, t: Tid, a: Addr, e: Addr, deny: bool)
    requires EventsCounted(events, threads, hist) && t !in threads
    requires e in events && e in hist && Owed(hist, e, a) && hist[e].status[a].Queued?
    ensures EventsCounted(events, threads[t := RetRelease(a, e, deny)], SetStatus(hist, e, a, InFlight(t, deny)))
  {
    StatusUpdate(hist[e].status, a, InFlight(t, deny));
    hide OpenIn, DeniedIn;
  }

  lemma UnlinkPhases(events: map<Addr, Event>, threads: map<Tid, Thread>, hist: map<Addr, Hist>, t: Tid, a: Addr, e: Addr, deny: bool)
    requires PhasesOk(events, threads, hist) && t !in threads
    requires e in events && e in hist && Owed(hist, e, a) && hist[e].status[a].Queued?
    ensures PhasesOk(events, threads[t := RetRelease(a, e, deny)], SetStatus(hist, e, a, InFlight(t, deny)))
  {
  }

  /** The release itself: one answer fewer is owed, and the verdict is updated. */
  lemma AccountRelease(groups: map<Addr, Group>, events: map<Addr, Event>, events': map<Addr, Event>,
                       threads: map<Tid, Thread>, hist: map<Addr, Hist>, t: Tid, x: Status)
    requires AccountInv(groups, events, threads, hist) && t in threads && threads[t].RetRelease?
    requires threads[t].e in events && threads[t].e in hist
    requires events' == Release(events, threads[t].e, true, threads[t].deny)
    requires x == if threads[t].deny then Denied else Allowed
    ensures events'.Keys == events.Keys && forall e | e in events' :: events'[e].id == events[e].id
    ensures AccountInv(groups, events', threads[t := UseOut(threads[t].a)], SetStatus(hist, threads[t].e, threads[t].a, x))
  {
    assert PhaseOk(t, threads[t], events, hist) && EventOk(events[threads[t].e], hist[threads[t].e]);
    ReleaseCounted(events, threads, hist, t, x);
    ReleasePhases(events, events', threads, hist, t, x);
    ReleaseBacked(groups, events, threads, hist, t, x);
  }

  lemma ReleaseBacked(groups: map<Addr, Group>, events: map<Addr, Event>, threads: map<Tid, Thread>,
                      hist: map<Addr, Hist>, t: Tid, x: Status)
    requires ListedIsQueued(groups, hist) && OwedIsBacked(groups, events, threads, hist) && !x.Open()
    requires t in threads && threads[t].RetRelease? && Owed(hist, threads[t].e, threads[t].a)
    requires hist[threads[t].e].status[threads[t].a].InFlight?
    ensures var hist' := SetStatus(hist, threads[t].e, threads[t].a, x);
      ListedIsQueued(groups, hist') && OwedIsBacked(groups, events, threads[t := UseOut(threads[t].a)], hist')
  {
  }

  lemma ReleaseCounted(events: map<Addr, Event>, threads: map<Tid, Thread>, hist: map<Addr, Hist>, t: Tid, x: Status)
    requires EventsCounted(events, threads, hist) && t in threads && threads[t].RetRelease?
    requires threads[t].e in events && Owed(hist, threads[t].e, threads[t].a)
    requires x == if threads[t].deny then Denied else Allowed
    ensures var th := threads[t];
      EventsCounted(Release(events, th.e, true, th.deny), threads[t := UseOut(th.a)], SetStatus(hist, th.e, th.a, x))
  {
    var th := threads[t];
    var events' := Release(events, th.e, true, th.deny);
    var hist' := SetStatus(hist, th.e, th.a, x);
    StatusUpdate(hist[th.e].status, th.a, x);
    assert EventOk(events[th.e], hist[th.e]);
    forall f | f in events' ensures EventOk(events'[f], hist'[f]) {
      if f != th.e { assert EventOk(events[f], hist[f]); }
    }
  }

  lemma ReleasePhases(events: map<Addr, Event>, events': map<Addr, Event>, threads: map<Tid, Thread>,
                      hist: map<Addr, Hist>, t: Tid, x: Status)
    requires PhasesOk(events, threads, hist) && t in threads && threads[t].RetRelease?
    requires threads[t].e in events && threads[t].e in hist
    requires events'.Keys == events.Keys && forall e | e in events && e != threads[t].e :: events'[e] == events[e]
    requires !x.Open()
    ensures PhasesOk(events', threads[t := UseOut(threads[t].a)], SetStatus(hist, threads[t].e, threads[t].a, x))
  {
    var e, a := threads[t].e, threads[t].a;
    var threads' := threads[t := UseOut(a)];
    var hist' := SetStatus(hist, e, a, x);
    assert PhaseOk(t, threads[t], events, hist) && a in OpenIn(hist[e].status);
    forall u | u in threads' ensures PhaseOk(u, threads'[u], events', hist') {
      if u != t { assert PhaseOk(u, threads[u], events, hist); }
    }
  }

  /** Removing a group answers, with no objection, everything on its lists. */
  lemma AccountRemove(k: State, k1: State, a: Addr, threads: map<Tid, Thread>, hist: map<Addr, Hist>)
    requires AccountInv(k.groups, k.events, threads, hist) && a in k.groups
    requires k1.events == map e | e in k.events ::
               if k.groups[a].Holds(e) then k.events[e].(assignedCount := k.events[e].assignedCount - 1) else k.events[e]
    requires forall b, f :: Listed(k1.groups, b, f) <==> Listed(k.groups, b, f) && b != a
    ensures AccountInv(k1.groups, k1.events, threads, NoteRemoved(hist, k.groups[a], a))
  {
    HeldIsQueued(k, a, threads, hist);
    RemoveCounted(k, a, k1.events, threads, hist);
    RemovePhases(k, a, threads, hist, k1.events);
    RemoveBacked(k, k1, a, threads, hist);
    hide EventsCounted, PhasesOk, OwedIsBacked, ListedIsQueued, Listed, NoteRemoved;
  }

  lemma HeldIsQueued(k: State, a: Addr, threads: map<Tid, Thread>, hist: map<Addr, Hist>)
    requires OwedIsBacked(k.groups, k.events, threads, hist) && ListedIsQueued(k.groups, hist) && a in k.groups
    ensures forall e | e in hist && k.groups[a].Holds(e) :: e in k.events && Owed(hist, e, a) && hist[e].status[a] == Queued
  {
    forall e | e in hist && k.groups[a].Holds(e) ensures e in k.events && Owed(hist, e, a) && hist[e].status[a] == Queued {
      assert Listed(k.groups, a, e) && Owed(hist, e, a);
    }
  }

  lemma RemovePhases(k: State, a: Addr, threads: map<Tid, Thread>, hist: map<Addr, Hist>, events': map<Addr, Event>)
    requires PhasesOk(k.events, threads, hist) && a in k.groups
    requires forall e | e in hist && k.groups[a].Holds(e) :: e in k.events && Owed(hist, e, a) && hist[e].status[a] == Queued
    requires events' == map e | e in k.events ::
               if k.groups[a].Holds(e) then k.events[e].(assignedCount := k.events[e].assignedCount - 1) else k.events[e]
    ensures PhasesOk(events', threads, NoteRemoved(hist, k.groups[a], a))
  {
  }

  lemma RemoveBacked(k: State, k1: State, a: Addr, threads: map<Tid, Thread>, hist: map<Addr, Hist>)
    requires OwedIsBacked(k.groups, k.events, threads, hist) && ListedIsQueued(k.groups, hist) && a in k.groups
    requires k1.events.Keys == k.events.Keys
    requires forall b, f :: Listed(k1.groups, b, f) <==> Listed(k.groups, b, f) && b != a
    ensures OwedIsBacked(k1.groups, k1.events, threads, NoteRemoved(hist, k.groups[a], a))
    ensures ListedIsQueued(k1.groups, NoteRemoved(hist, k.groups[a], a))
  {
  }

  lemma RemoveCounted(k: State, a: Addr, events': map<Addr, Event>, threads: map<Tid, Thread>, hist: map<Addr, Hist>)
    requires EventsCounted(k.events, threads, hist) && a in k.groups
    requires forall e | e in hist && k.groups[a].Holds(e) :: e in k.events && Owed(hist, e, a) && hist[e].status[a] == Queued
    requires events' == map e | e in k.events ::
               if k.groups[a].Holds(e) then k.events[e].(assignedCount := k.events[e].assignedCount - 1) else k.events[e]
    ensures EventsCounted(events', threads, NoteRemoved(hist, k.groups[a], a))
  {
    var hist' := NoteRemoved(hist, k.groups[a], a);
    forall e | e in events' ensures EventOk(events'[e], hist'[e]) {
      assert EventOk(k.events[e], hist[e]);
      if k.groups[a].Holds(e) {
        StatusUpdate(hist[e].status, a, Removed);
      }
    }
  }

}
