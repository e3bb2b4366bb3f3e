/** The access-decision protocol of event.c as a transition system. One step is one critical section
    (or one unlocked read of shared data); `threads` records where each caller is between two of them.
    Any number of openers, writers and registered processes interleave freely.

    `hist` and `born` are history variables: no step's outcome depends on them. */
module Protocol {
  import opened Kernel

  type Tid = nat

  datatype Thread =
    // dazukofs_check_access, by the process that opens a file
    | OpStart                          // holds group_count_sem for reading, event to be handled
    | OpAlloc(e: Addr, n: nat)         // event and n containers allocated, still holding it
    | OpPosted(e: Addr)                // posted, still holding it
    | OpWait(e: Addr)                  // asleep on the event's queue
    | OpWoken(e: Addr)                 // saw the assigned count at zero
    | OpJudged(e: Addr, denied: bool)  // has read the deny flag
    | OpDone(e: Addr, denied: bool)    // returned -EPERM exactly when denied
    // dazukofs_add_group and dazukofs_remove_group: hold group_count_sem for writing
    | AddStart(name: string, track: bool)
    | AddFresh(name: string, track: bool, id: nat)
    | AddReady(name: string, track: bool, id: nat)
    | AddLinked
    | RemStart(name: string)
    | RemGo(name: string)
    | WriteOut
    // dazukofs_get_event, dazukofs_poll and dazukofs_return_event: hold a use count of group `a`
    | GetWait(a: Addr)
    | GetClaimed(a: Addr, e: Addr)
    | RetRelease(a: Addr, e: Addr, deny: bool)
    | RetRepost(a: Addr, e: Addr)
    | UseOut(a: Addr)
  {
    predicate Reads() { OpStart? || OpAlloc? || OpPosted? }

    predicate Writes() { AddStart? || AddFresh? || AddReady? || AddLinked? || RemStart? || RemGo? || WriteOut? }

    /** The event this opener has a handle to. */
    function Opened(): Option<Addr> {
      if OpAlloc? || OpPosted? || OpWait? || OpWoken? || OpJudged? then Some(e) else None
    }

    /** The group this caller has a use count of. */
    function Held(): Option<Addr> {
      if GetWait? || GetClaimed? || RetRelease? || RetRepost? || UseOut? then Some(a) else None
    }
  }

  /** What became of an event in one of the groups it was posted to. */
  datatype Status = Queued | InFlight(t: Tid, deny: bool) | Allowed | Denied | Removed
  {
    predicate Open() { Queued? || InFlight? }
  }

  /** `seqno` is the position in the order of posting (0 before), `claimed` the groups in which some
      process has claimed the event. */
  datatype Hist = Hist(owner: Tid, seqno: nat, status: map<Addr, Status>, claimed: set<Addr>)

  /** An open group device; `group` is what its `private_data` flag stands for. */
  datatype Handle = Handle(gid: nat, group: Option<Addr>)

  datatype Sys = Sys(k: State, threads: map<Tid, Thread>, handles: map<nat, Handle>,
                     hist: map<Addr, Hist>, born: set<Addr>, posts: nat)

  const INIT := Sys(State([], map[], map[], 0, 0), map[], map[], map[], {}, 0)

  datatype Step =
    | AccessEnter(t: Tid) | AccessNoMemory(t: Tid) | AccessAlloc(t: Tid, e: Addr) | AccessPost(t: Tid)
    | AccessUp(t: Tid) | AccessWake(t: Tid) | AccessJudge(t: Tid) | AccessFree(t: Tid)
    | AddEnter(t: Tid, name: string, track: bool) | AddScan(t: Tid) | AddRoom(t: Tid, noMemory: bool)
    | AddLink(t: Tid, a: Addr) | AddCount(t: Tid)
    | RemEnter(t: Tid, name: string) | RemCheck(t: Tid) | RemWork(t: Tid) | WriteUp(t: Tid)
    | Open(h: nat, gid: nat) | Close(h: nat)
    | UseEnter(t: Tid, gid: nat) | ClaimEvent(t: Tid) | OpenOk(t: Tid) | OpenFailed(t: Tid) | GetLeave(t: Tid)
    | Return(t: Tid, gid: nat, id: nat, response: Response) | RetFinish(t: Tid) | RetUnclaim(t: Tid) | UseDrop(t: Tid)

  // ---------------------------------------------------------------- steps

  predicate NoWriter(threads: map<Tid, Thread>) { forall t | t in threads :: !threads[t].Writes() }

  predicate NoReader(threads: map<Tid, Thread>) { forall t | t in threads :: !threads[t].Reads() }

  /** When a step can be taken. Three guards stand for the container still being on a list of its group:
      the code uses the container after dropping `work_mutex` and has no meaning otherwise. */
  predicate Enabled(s: Sys, st: Step) {
    var T, G := s.threads, s.k.groups;
    match st
    case AccessEnter(t) => t !in T && NoWriter(T) && s.k.count != 0
    case AccessNoMemory(t) => t in T && T[t].OpStart?
    case AccessAlloc(t, e) => t in T && T[t].OpStart? && e !in s.born && s.k.count >= 0
    case AccessPost(t) => t in T && T[t].OpAlloc?
    case AccessUp(t) => t in T && T[t].OpPosted?
    case AccessWake(t) => t in T && T[t].OpWait? && T[t].e in s.k.events && s.k.events[T[t].e].assignedCount == 0
    case AccessJudge(t) => t in T && T[t].OpWoken?
    case AccessFree(t) => t in T && T[t].OpJudged?
    case AddEnter(t, name, track) => t !in T && NoWriter(T) && NoReader(T)
    case AddScan(t) => t in T && T[t].AddStart?
    case AddRoom(t, noMemory) => t in T && T[t].AddFresh?
    case AddLink(t, a) => t in T && T[t].AddReady? && a !in s.born
    case AddCount(t) => t in T && T[t].AddLinked?
    case RemEnter(t, name) => t !in T && NoWriter(T) && NoReader(T)
    case RemCheck(t) => t in T && T[t].RemStart?
    case RemWork(t) => t in T && T[t].RemGo?
    case WriteUp(t) => t in T && T[t].WriteOut?
    case Open(h, gid) => h !in s.handles
    case Close(h) => h in s.handles
    case UseEnter(t, gid) => t !in T
    case ClaimEvent(t) => t in T && T[t].GetWait? && T[t].a in G && G[T[t].a].todo != []
    case OpenOk(t) => t in T && T[t].GetClaimed? && T[t].a in G && G[T[t].a].Holds(T[t].e)
    case OpenFailed(t) => t in T && T[t].GetClaimed? && T[t].a in G && G[T[t].a].Holds(T[t].e)
    case GetLeave(t) => t in T && T[t].GetWait?
    case Return(t, gid, id, response) => t !in T
    case RetFinish(t) => t in T && T[t].RetRelease?
    case RetUnclaim(t) => t in T && T[t].RetRepost? && T[t].a in G && G[T[t].a].Holds(T[t].e)
    case UseDrop(t) => t in T && T[t].UseOut?
  }

  /** No step follows a pointer to something freed. */
  ghost predicate Safe(s: Sys) {
    && Wf(s.k)
    && -0x8000_0000 <= s.k.lastId < 0x8000_0000
    && (forall t | t in s.threads && s.threads[t].Opened().Some? ::
          s.threads[t].Opened().value in s.k.events && s.threads[t].Opened().value in s.hist)
    && (forall t | t in s.threads && s.threads[t].Held().Some? :: s.threads[t].Held().value in s.k.groups)
    && (forall t | t in s.threads && (s.threads[t].RetRelease?) :: s.threads[t].e in s.k.events && s.threads[t].e in s.hist)
    && (forall a, e | a in s.k.groups && e in s.k.events && s.k.groups[a].Holds(e) :: e in s.hist)
  }

  function SetStatus(hist: map<Addr, Hist>, e: Addr, a: Addr, x: Status): map<Addr, Hist>
    requires e in hist
  {
    hist[e := hist[e].(status := hist[e].status[a := x])]
  }

  /** Removing a group answers everything on its lists. */
  function NoteRemoved(hist: map<Addr, Hist>, g: Group, a: Addr): map<Addr, Hist> {
    map e | e in hist :: if g.Holds(e) then hist[e].(status := hist[e].status[a := Removed]) else hist[e]
  }

  ghost function DoAlloc(s: Sys, t: Tid, e: Addr): Sys
    requires t in s.threads && s.threads[t].OpStart? && e !in s.born && s.k.count >= 0
  {
    s.(k := s.k.(events := s.k.events[e := Event(0, 0, false, false)]), born := s.born + {e},
       hist := s.hist[e := Hist(t, 0, map[], {})], threads := s.threads[t := OpAlloc(e, s.k.count)])
  }

  ghost function DoPost(s: Sys, t: Tid): Sys
    requires Safe(s) && t in s.threads && s.threads[t].OpAlloc?
  {
    var e := s.threads[t].e;
    s.(k := Post(s.k, e), threads := s.threads[t := OpPosted(e)], posts := s.posts + 1,
       hist := s.hist[e := s.hist[e].(seqno := s.posts + 1, status := map a | a in Active(s.k.groups) :: Queued)])
  }

  ghost function DoFree(s: Sys, t: Tid): Sys
    requires Safe(s) && t in s.threads && s.threads[t].OpJudged?
  {
    var th := s.threads[t];
    s.(k := s.k.(events := Release(s.k.events, th.e, false, false)), threads := s.threads[t := OpDone(th.e, th.denied)])
  }

  ghost function DoScan(s: Sys, t: Tid): Sys
    requires Safe(s) && t in s.threads && s.threads[t].AddStart?
  {
    var th := s.threads[t];
    var c := ChooseId(s.k.list, s.k.groups, th.name, th.track, 0);
    s.(k := s.k.(list := c.list, groups := c.groups),
       threads := s.threads[t := if c.id.None? then WriteOut else AddFresh(th.name, th.track, c.id.value)])
  }

  ghost function DoLink(s: Sys, t: Tid, a: Addr): Sys
    requires t in s.threads && s.threads[t].AddReady? && a !in s.born
  {
    var th := s.threads[t];
    s.(k := LinkGroup(s.k, a, th.name, th.id, th.track), born := s.born + {a}, threads := s.threads[t := AddLinked])
  }

  ghost function DoRemove(s: Sys, t: Tid): Sys
    requires Safe(s) && t in s.threads && s.threads[t].RemGo?
  {
    var name := s.threads[t].name;
    s.(k := RemoveByName(s.k, name), threads := s.threads[t := WriteOut],
       hist := match FindByName(s.k.list, s.k.groups, name)
               case Some(a) => NoteRemoved(s.hist, s.k.groups[a], a)
               case None => s.hist)
  }

  ghost function DoOpen(s: Sys, h: nat, gid: nat): Sys
    requires Safe(s)
  {
    var (k1, a) := OpenTracking(s.k, gid);
    s.(k := k1, handles := s.handles[h := Handle(gid, a)])
  }

  ghost function DoClose(s: Sys, h: nat): Sys
    requires Safe(s) && h in s.handles
  {
    var hd := s.handles[h];
    if hd.group.None? then s.(handles := s.handles - {h})
    else
      s.(k := CloseTracking(s.k, hd.gid), handles := s.handles - {h},
         hist := match FindById(s.k.list, s.k.groups, hd.gid)
                 case Some(a) =>
                   if s.k.groups[a].tracking && s.k.groups[a].trackCount == 1
                   then NoteRemoved(s.hist, s.k.groups[a], a) else s.hist
                 case None => s.hist)
  }

  ghost function DoClaim(s: Sys, t: Tid): Sys
    requires Safe(s) && t in s.threads && s.threads[t].GetWait? && s.threads[t].a in s.k.groups
    requires s.k.groups[s.threads[t].a].todo != []
  {
    var a := s.threads[t].a;
    var e := s.k.groups[a].todo[0];
    assert s.k.groups[a].Holds(e);
    s.(k := Claim(s.k, a).0, threads := s.threads[t := GetClaimed(a, e)],
       hist := s.hist[e := s.hist[e].(claimed := s.hist[e].claimed + {a})])
  }

  /** `unclaim_event`, after a failed open or for REPOST. */
  ghost function DoUnclaim(s: Sys, t: Tid): Sys
    requires t in s.threads && (s.threads[t].GetClaimed? || s.threads[t].RetRepost?) && s.threads[t].a in s.k.groups
  {
    var th := s.threads[t];
    s.(k := Unclaim(s.k, th.a, th.e), threads := s.threads[t := UseOut(th.a)])
  }

  ghost function DoReturn(s: Sys, t: Tid, gid: nat, id: nat, response: Response): Sys
    requires Safe(s)
  {
    var (k1, r) := ReturnEvent(s.k, gid, id, response);
    match r
    case NoGroup => s
    case NoEvent(a) => s.(k := k1, threads := s.threads[t := UseOut(a)])
    case Reposting(a, e) => s.(k := k1, threads := s.threads[t := RetRepost(a, e)])
    case Answering(a, e, deny) =>
      s.(k := k1, threads := s.threads[t := RetRelease(a, e, deny)],
         hist := assert s.k.groups[a].Holds(e); SetStatus(s.hist, e, a, InFlight(t, deny)))
  }

  ghost function DoRelease(s: Sys, t: Tid): Sys
    requires Safe(s) && t in s.threads && s.threads[t].RetRelease?
  {
    var th := s.threads[t];
    s.(k := s.k.(events := Release(s.k.events, th.e, true, th.deny)), threads := s.threads[t := UseOut(th.a)],
       hist := SetStatus(s.hist, th.e, th.a, if th.deny then Denied else Allowed))
  }

  ghost function DoUseEnter(s: Sys, t: Tid, gid: nat): Sys
    requires Safe(s)
  {
    var (k1, a) := Enter(s.k, gid);
    s.(k := k1, threads := if a.Some? then s.threads[t := GetWait(a.value)] else s.threads)
  }

  ghost function DoUseDrop(s: Sys, t: Tid): Sys
    requires Safe(s) && t in s.threads && s.threads[t].UseOut?
  {
    s.(k := AddUse(s.k, s.threads[t].a, -1), threads := s.threads - {t})
  }

  /** The deny flag is read without a lock. */
  ghost function DoJudge(s: Sys, t: Tid): Sys
    requires Safe(s) && t in s.threads && s.threads[t].OpWoken?
  {
    Goto(s, t, OpJudged(s.threads[t].e, s.k.events[s.threads[t].e].deny))
  }

  /** A step that only moves the thread on. */
  function Goto(s: Sys, t: Tid, th: Thread): Sys { s.(threads := s.threads[t := th]) }

  /** The steps of a process that opens a file. */
  ghost function NextAccess(s: Sys, st: Step): Sys
    requires Safe(s) && Enabled(s, st)
    requires st.AccessEnter? || st.AccessNoMemory? || st.AccessAlloc? || st.AccessPost? || st.AccessUp?
          || st.AccessWake? || st.AccessJudge? || st.AccessFree?
  {
    match st
    case AccessEnter(t) => Goto(s, t, OpStart)
    case AccessNoMemory(t) => s.(threads := s.threads - {t})
    case AccessAlloc(t, e) => DoAlloc(s, t, e)
    case AccessPost(t) => DoPost(s, t)
    case AccessUp(t) => Goto(s, t, OpWait(s.threads[t].e))
    case AccessWake(t) => Goto(s, t, OpWoken(s.threads[t].e))
    case AccessJudge(t) => DoJudge(s, t)
    case AccessFree(t) => DoFree(s, t)
  }

  ghost function Next(s: Sys, st: Step): Sys
    requires Safe(s) && Enabled(s, st)
  {
    match st
    case AddEnter(t, name, track) => Goto(s, t, AddStart(name, track))
    case AddScan(t) => DoScan(s, t)
    case AddRoom(t, noMemory) =>
      var th := s.threads[t];
      Goto(s, t, if s.k.count == GROUP_COUNT || noMemory then WriteOut else AddReady(th.name, th.track, th.id))
    case AddLink(t, a) => DoLink(s, t, a)
    case AddCount(t) => Goto(s, t, WriteOut).(k := s.k.(count := s.k.count + 1))
    case RemEnter(t, name) => Goto(s, t, RemStart(name))
    case RemCheck(t) => Goto(s, t, if s.k.count == 0 then WriteOut else RemGo(s.threads[t].name))
    case RemWork(t) => DoRemove(s, t)
    case WriteUp(t) => s.(threads := s.threads - {t})
    case Open(h, gid) => DoOpen(s, h, gid)
    case Close(h) => DoClose(s, h)
    case UseEnter(t, gid) => DoUseEnter(s, t, gid)
    case ClaimEvent(t) => DoClaim(s, t)
    case OpenOk(t) => Goto(s, t, UseOut(s.threads[t].a))
    case OpenFailed(t) => DoUnclaim(s, t)
    case GetLeave(t) => Goto(s, t, UseOut(s.threads[t].a))
    case Return(t, gid, id, response) => DoReturn(s, t, gid, id, response)
    case RetFinish(t) => DoRelease(s, t)
    case RetUnclaim(t) => DoUnclaim(s, t)
    case UseDrop(t) => DoUseDrop(s, t)
    case _ => NextAccess(s, st)
  }
}
