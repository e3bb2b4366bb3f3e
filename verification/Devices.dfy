/** What a call on the device with some id does: to the active group of that id, and to no other. */
module Devices {
  import opened Kernel
  import opened Protocol
  import opened Invariant
  import opened KeepsLists
  import opened KeepsCounts
  import opened Preservation
  import opened Registry
  import opened Holding
  import opened Tracking
  import opened Verdicts
  import opened Groups
  import opened Guarantees
  import opened Ids

  /** The active group of that id. */
  predicate HasDevice(groups: map<Addr, Group>, gid: nat, a: Addr) { a in Active(groups) && groups[a].id == gid }

  ghost predicate SomeHasDevice(groups: map<Addr, Group>, gid: nat) { exists a :: HasDevice(groups, gid, a) }

  function Used(g: Group): Group { g.(useCount := g.useCount + 1) }

  /** The groups once the one with that id is held by one call more. */
  function OneUseMore(groups: map<Addr, Group>, gid: nat): map<Addr, Group> {
    map a | a in groups :: if HasDevice(groups, gid, a) then Used(groups[a]) else groups[a]
  }

  // ---------------------------------------------------------------- taking hold

  lemma EnterIs(k: State, gid: nat)
    requires Wf(k)
    ensures var (k1, found) := Enter(k, gid);
      && (forall a: Addr :: found == Some(a) <==> HasDevice(k.groups, gid, a))
      && (found == None <==> !SomeHasDevice(k.groups, gid))
      && k1 == k.(groups := OneUseMore(k.groups, gid))
  {
    var found := FindById(k.list, k.groups, gid);
    forall a: Addr ensures found == Some(a) <==> HasDevice(k.groups, gid, a) { LookupIsUnique(k, gid, a); }
    if found.Some? { assert HasDevice(k.groups, gid, found.value); }
    hide Wf, FindById;
    assert Enter(k, gid).0.groups == OneUseMore(k.groups, gid);
  }

  /** A process that reads or polls takes hold of the active group with the id of its device, if there is
      one; the use count of that group rises by one, and nothing else changes. */
  lemma EnterExactly(s: Sys, t: Tid, gid: nat)
    requires Core(s) && Safe(s) && t !in s.threads
    ensures Enabled(s, UseEnter(t, gid))
    ensures var s1 := Next(s, UseEnter(t, gid));
      && (forall a: Addr :: t in s1.threads && s1.threads[t] == GetWait(a) <==> HasDevice(s.k.groups, gid, a))
      && (t !in s1.threads <==> !SomeHasDevice(s.k.groups, gid))
      && (forall u | u in s.threads :: u in s1.threads && s1.threads[u] == s.threads[u])
      && (forall u | u in s1.threads && u != t :: u in s.threads)
      && s1 == s.(threads := s1.threads, k := s.k.(groups := OneUseMore(s.k.groups, gid)))
  {
    assert Wf(s.k);
    CanEnter(s, t, gid);
    hide *;
    EnterIs(s.k, gid);
    HoldStepIs(s, UseEnter(t, gid));
    EnterGoes(s, t, gid);
    EntersAs(s.threads, t, gid, s.k.groups, Enter(s.k, gid).1);
  }

  lemma EntersAs(threads: map<Tid, Thread>, t: Tid, gid: nat, groups: map<Addr, Group>, found: Option<Addr>)
    requires t !in threads && forall a: Addr :: found == Some(a) <==> HasDevice(groups, gid, a)
    ensures var threads' := if found.Some? then threads[t := GetWait(found.value)] else threads;
      && (forall a: Addr :: t in threads' && threads'[t] == GetWait(a) <==> HasDevice(groups, gid, a))
      && (t !in threads' <==> !SomeHasDevice(groups, gid))
      && (forall u | u in threads :: u in threads' && threads'[u] == threads[u])
      && (forall u | u in threads' && u != t :: u in threads)
  {
    if found.Some? { assert HasDevice(groups, gid, found.value); }
    hide HasDevice;
  }

  lemma CanEnter(s: Sys, t: Tid, gid: nat)
    requires t !in s.threads
    ensures Enabled(s, UseEnter(t, gid))
  {
  }

  lemma EnterGoes(s: Sys, t: Tid, gid: nat)
    requires Safe(s) && t !in s.threads
    ensures ListOk(s.k.list, s.k.groups)
    ensures var (k1, found) := Enter(s.k, gid);
      DoUseEnter(s, t, gid)
      == s.(k := k1, threads := if found.Some? then s.threads[t := GetWait(found.value)] else s.threads)
  {
    hide Enter;
  }

  // ---------------------------------------------------------------- claiming

  /** A claim takes the first event that waits in the group held, and puts it first among those worked on. */
  lemma ClaimExactly(s: Sys, t: Tid, a: Addr)
    requires Core(s) && Safe(s) && t in s.threads && s.threads[t] == GetWait(a)
    ensures a in s.k.groups && (Enabled(s, ClaimEvent(t)) <==> s.k.groups[a].todo != [])
    ensures s.k.groups[a].todo != [] ==>
              var s1 := Next(s, ClaimEvent(t));
              var g := s.k.groups[a];
              && s1.threads == s.threads[t := GetClaimed(a, g.todo[0])]
              && a in s1.k.groups && s1.k.groups[a] == g.(todo := s1.k.groups[a].todo, working := s1.k.groups[a].working)
              && s1.k == s.k.(groups := s.k.groups[a := s1.k.groups[a]])
              && [g.todo[0]] + s1.k.groups[a].todo == g.todo
              && s1.k.groups[a].working == [g.todo[0]] + g.working
              && !g.deprecated
  {
    WaitedForIsLive(s, t, a);
    CanClaim(s, t, a);
    assert QueuesOk(s.k.groups, s.k.events);
    if s.k.groups[a].todo != [] {
      WaitingIsActive(s.k.groups, s.k.events, a);
      MoveIs(s, ClaimEvent(t));
      hide Core, Safe, QueuesOk, Next, Enabled;
      ClaimGoes(s, t, a);
    }
  }

  lemma CanClaim(s: Sys, t: Tid, a: Addr)
    requires t in s.threads && s.threads[t] == GetWait(a) && a in s.k.groups
    ensures Enabled(s, ClaimEvent(t)) <==> s.k.groups[a].todo != []
  {
  }

  lemma ClaimGoes(s: Sys, t: Tid, a: Addr)
    requires Safe(s) && t in s.threads && s.threads[t] == GetWait(a) && a in s.k.groups && s.k.groups[a].todo != []
    ensures var s1 := DoClaim(s, t);
      var g := s.k.groups[a];
      && s1.threads == s.threads[t := GetClaimed(a, g.todo[0])]
      && a in s1.k.groups && s1.k == s.k.(groups := s.k.groups[a := s1.k.groups[a]])
      && s1.k.groups[a] == g.(todo := s1.k.groups[a].todo, working := s1.k.groups[a].working)
      && [g.todo[0]] + s1.k.groups[a].todo == g.todo && s1.k.groups[a].working == [g.todo[0]] + g.working
  {
    hide Wf;
    assert [s.k.groups[a].todo[0]] + s.k.groups[a].todo[1..] == s.k.groups[a].todo;
  }

  lemma WaitingIsActive(groups: map<Addr, Group>, events: map<Addr, Event>, a: Addr)
    requires QueuesOk(groups, events) && a in groups && groups[a].todo != []
    ensures !groups[a].deprecated
  {
  }

  // ---------------------------------------------------------------- handing back

  /** `rest` is `l` without its entry at `i`, in the same order. */
  ghost predicate WithoutAt(l: seq<Addr>, i: nat, rest: seq<Addr>) {
    && i < |l| && |rest| == |l| - 1
    && forall k | 0 <= k < |rest| :: rest[k] == l[if k < i then k else k + 1]
  }

  /** An event that is worked on and handed back waits before all others; the order of the rest is kept. */
  lemma HandBackExactly(s: Sys, st: Step)
    requires Core(s) && Safe(s) && Enabled(s, st) && (st.OpenFailed? || st.RetUnclaim?)
    ensures st.t in s.threads && (s.threads[st.t].GetClaimed? || s.threads[st.t].RetRepost?) && s.threads[st.t].a in s.k.groups
    ensures var s1 := Next(s, st);
      var a, e := s.threads[st.t].a, s.threads[st.t].e;
      var g := s.k.groups[a];
      && s1.threads == s.threads[st.t := UseOut(a)]
      && a in s1.k.groups && s1.k == s.k.(groups := s.k.groups[a := s1.k.groups[a]])
      && s1.k.groups[a] == g.(todo := s1.k.groups[a].todo, working := s1.k.groups[a].working)
      && (e in g.working ==> s1.k.groups[a].todo == [e] + g.todo
                             && exists i: nat :: i < |g.working| && g.working[i] == e && WithoutAt(g.working, i, s1.k.groups[a].working))
      && (e in g.todo ==> s1.k.groups[a].working == g.working && s1.k.groups[a].todo != [] && s1.k.groups[a].todo[0] == e
                          && exists i: nat :: i < |g.todo| && g.todo[i] == e && WithoutAt(g.todo, i, s1.k.groups[a].todo[1..]))
  {
    MoveIs(s, st);
    var a, e := s.threads[st.t].a, s.threads[st.t].e;
    var g := s.k.groups[a];
    assert QueuesOk(s.k.groups, s.k.events);
    OneListOnly(s.k.groups, s.k.events, a);
    WithoutIsWithoutAt(g.working, e);
    WithoutIsWithoutAt(g.todo, e);
    hide Core, Safe, Wf, QueuesOk, Next, Enabled, Without, WithoutAt;
    UnclaimGoes(s, st.t);
  }

  lemma OneListOnly(groups: map<Addr, Group>, events: map<Addr, Event>, a: Addr)
    requires QueuesOk(groups, events) && a in groups
    ensures forall e | e in groups[a].working :: e !in groups[a].todo
  {
  }

  lemma UnclaimGoes(s: Sys, t: Tid)
    requires t in s.threads && (s.threads[t].GetClaimed? || s.threads[t].RetRepost?) && s.threads[t].a in s.k.groups
    ensures var a, e := s.threads[t].a, s.threads[t].e;
      var g := s.k.groups[a];
      DoUnclaim(s, t)
      == s.(k := s.k.(groups := s.k.groups[a := g.(todo := [e] + Without(g.todo, e), working := Without(g.working, e))]),
            threads := s.threads[t := UseOut(a)])
  {
    hide Without;
  }

  lemma WithoutIsWithoutAt(l: seq<Addr>, e: Addr)
    ensures e !in l ==> Without(l, e) == l
    ensures e in l ==> exists i: nat :: i < |l| && l[i] == e && WithoutAt(l, i, Without(l, e))
  {
    if e in l {
      var i := IndexOf(l, e);
      assert WithoutAt(l, i, Without(l, e));
    }
  }

  // ---------------------------------------------------------------- over runs

  lemma WaitsSinceEntering(s: Sys, st: Step, t: Tid, a: Addr)
    requires Core(s) && Safe(s) && Enabled(s, st) && StepOf(st, t)
    requires t in Next(s, st).threads && Next(s, st).threads[t] == GetWait(a)
    ensures st.UseEnter? && t !in s.threads
  {
    hide Core, Safe, Wf;
  }

  /** A group that is held before and after a step keeps its id. */
  lemma HeldKeepsId(s: Sys, st: Step, a: Addr)
    requires Core(s) && Safe(s) && Enabled(s, st) && a in s.k.groups && a in Next(s, st).k.groups
    ensures Next(s, st).k.groups[a].id == s.k.groups[a].id
  {
    if st.AddLink? {
      LinksAnother(s, st, a);
    } else {
      OldNamesStay(s, st, a);
    }
    hide *;
  }

  lemma LinksAnother(s: Sys, st: Step, a: Addr)
    requires Core(s) && Safe(s) && Enabled(s, st) && st.AddLink? && a in s.k.groups
    ensures a in Next(s, st).k.groups && Next(s, st).k.groups[a] == s.k.groups[a]
  {
    assert BornInv(s);
    GroupStepIs(s, st);
    hide Core, Safe, Wf, Next, Enabled;
  }

  /** Step `i` is where caller `t` has come to wait for events of group `a`, on the device with its id. */
  ghost predicate CameFor(run: seq<Step>, i: nat, t: Tid, a: Addr)
    requires Legal(run)
  {
    && i < |run| && run[i].UseEnter? && run[i].t == t
    && (SafeBefore(run, i); HasDevice(At(run[..i]).k.groups, run[i].gid, a))
  }

  lemma {:induction false} EnteredBefore(run: seq<Step>, n: nat, t: Tid, a: Addr) returns (i: nat)
    requires Legal(run) && n < |run| && Legal(run[..n]) && t in At(run[..n]).threads && At(run[..n]).threads[t] == GetWait(a)
    ensures i < n && CameFor(run, i, t, a) && forall m | i < m < n :: !StepOf(run[m], t)
    ensures a in At(run[..n]).k.groups && At(run[..n]).k.groups[a].id == run[i].gid
    decreases n
  {
    hide *;
    if n == 0 { NoCallersYet(run[..n]); InitIsEmpty(t); }
    SafeBefore(run, n - 1);
    SafeBefore(run, n);
    assert run[..n - 1 + 1] == run[..n];
    var s, st := At(run[..n - 1]), run[n - 1];
    WaitedForIsLive(At(run[..n]), t, a);
    if StepOf(st, t) {
      WaitsSinceEntering(s, st, t, a);
      IsStepOf(st, t);
      EnterExactly(s, t, st.gid);
      i := n - 1;
      Came(run, i, t, a);
      KeptId(s.k.groups, st.gid, a);
    } else {
      CallerCame(s, st, t);
      WaitedForIsLive(s, t, a);
      i := EnteredBefore(run, n - 1, t, a);
      HeldKeepsId(s, st, a);
    }
  }

  lemma InitIsEmpty(t: Tid)
    ensures t !in INIT.threads
  {
  }

  lemma IsStepOf(st: Step, t: Tid)
    ensures StepOf(st, t) <==> !st.Open? && !st.Close? && st.t == t
  {
  }

  lemma Came(run: seq<Step>, i: nat, t: Tid, a: Addr)
    requires Legal(run) && i < |run| && run[i].UseEnter? && run[i].t == t
    requires Legal(run[..i]) && HasDevice(At(run[..i]).k.groups, run[i].gid, a)
    ensures CameFor(run, i, t, a)
  {
  }

  lemma KeptId(groups: map<Addr, Group>, gid: nat, a: Addr)
    requires HasDevice(groups, gid, a)
    ensures a in OneUseMore(groups, gid) && OneUseMore(groups, gid)[a].id == gid
  {
  }

  lemma WaitedForIsLive(s: Sys, t: Tid, a: Addr)
    requires Safe(s) && t in s.threads && s.threads[t] == GetWait(a)
    ensures a in s.k.groups
  {
    assert s.threads[t].Held() == Some(a);
  }

  /** Over every run, an event is claimed from the todo list of the active group with the id of the device
      that its caller reads, and that had this id when the caller came; and it is the first one there. */
  lemma ClaimsFromItsDevice(run: seq<Step>, j: nat) returns (i: nat, a: Addr)
    requires Legal(run) && j < |run| && run[j].ClaimEvent?
    ensures i < j && CameFor(run, i, run[j].t, a) && forall m | i < m < j :: !StepOf(run[m], run[j].t)
    ensures Legal(run[..j]) && HasDevice(At(run[..j]).k.groups, run[i].gid, a) && At(run[..j]).k.groups[a].todo != []
    ensures Legal(run[..j + 1]) && run[j].t in At(run[..j + 1]).threads
    ensures At(run[..j + 1]).threads[run[j].t] == GetClaimed(a, At(run[..j]).k.groups[a].todo[0])
  {
    hide *;
    var t := run[j].t;
    SafeBefore(run, j);
    a := ClaimerWaits(At(run[..j]), run[j]);
    i := EnteredBefore(run, j, t, a);
    ClaimExactly(At(run[..j]), t, a);
    HasItsDevice(At(run[..j]).k.groups, a);
  }

  lemma ClaimerWaits(s: Sys, st: Step) returns (a: Addr)
    requires Safe(s) && Enabled(s, st) && st.ClaimEvent?
    ensures st == ClaimEvent(st.t) && st.t in s.threads && s.threads[st.t] == GetWait(a)
  {
    a := s.threads[st.t].a;
  }

  lemma HasItsDevice(groups: map<Addr, Group>, a: Addr)
    requires a in groups && !groups[a].deprecated
    ensures HasDevice(groups, groups[a].id, a)
  {
  }

  // ---------------------------------------------------------------- returning

  /** The event named is worked on in that group. */
  predicate WorkedOn(k: State, a: Addr, e: Addr, id: nat) {
    a in k.groups && e in k.groups[a].working && e in k.events && k.events[e].id == id
  }

  /** What a return on the device of group `a` does: it holds the group and, if an event of that id is worked
      on there, hands it back or takes exactly it off the list. */
  ghost predicate ReturnsAs(s: Sys, s1: Sys, t: Tid, a: Addr, id: nat, response: Response)
    requires a in s.k.groups
  {
    && t in s1.threads && a in s1.k.groups
    && s1.k == s.k.(groups := s.k.groups[a := s1.k.groups[a]])
    && s1.k.groups[a] == Used(s.k.groups[a]).(working := s1.k.groups[a].working)
    && (s1.threads[t] == UseOut(a) <==> forall e :: !WorkedOn(s.k, a, e, id))
    && (s1.threads[t] != UseOut(a) ==> exists e: Addr ::
          && WorkedOn(s.k, a, e, id)
          && s1.threads[t] == (if response == REPOST then RetRepost(a, e) else RetRelease(a, e, response == DENY))
          && (response != REPOST ==> forall f :: f in s1.k.groups[a].working <==> f in s.k.groups[a].working && f != e))
    && (s1.threads[t] == UseOut(a) || response == REPOST ==> s1.k.groups[a].working == s.k.groups[a].working)
  }

  /** A reply reaches the active group with the id of the device and nothing else; without one it is refused
      and nothing changes. */
  lemma ReturnExactly(s: Sys, t: Tid, gid: nat, id: nat, response: Response)
    requires Core(s) && Safe(s) && t !in s.threads
    ensures Enabled(s, Return(t, gid, id, response))
    ensures !SomeHasDevice(s.k.groups, gid) ==> Next(s, Return(t, gid, id, response)) == s
    ensures forall a | HasDevice(s.k.groups, gid, a) :: ReturnsAs(s, Next(s, Return(t, gid, id, response)), t, a, id, response)
  {
    assert Wf(s.k);
    var s1 := Next(s, Return(t, gid, id, response));
    assert s1 == DoReturn(s, t, gid, id, response);
    ReturnsTo(s, t, gid, id, response);
    hide Next;
    forall a: Addr ensures FindById(s.k.list, s.k.groups, gid) == Some(a) <==> HasDevice(s.k.groups, gid, a) {
      LookupIsUnique(s.k, gid, a);
    }
    forall a | HasDevice(s.k.groups, gid, a) ensures ReturnsAs(s, s1, t, a, id, response) {
      FoundReturn(s, t, gid, id, response, a);
    }
    if !SomeHasDevice(s.k.groups, gid) { NoReturn(s.k, gid, id, response); }
    hide DoReturn, Core, Safe, Wf, FindById;
  }

  lemma NoReturn(k: State, gid: nat, id: nat, response: Response)
    requires Wf(k) && !SomeHasDevice(k.groups, gid)
    ensures Kernel.ReturnEvent(k, gid, id, response) == (k, NoGroup)
  {
    var found := FindById(k.list, k.groups, gid);
    if found.Some? { assert HasDevice(k.groups, gid, found.value); }
  }

  lemma FoundReturn(s: Sys, t: Tid, gid: nat, id: nat, response: Response, a: Addr)
    requires Safe(s) && t !in s.threads && FindById(s.k.list, s.k.groups, gid) == Some(a) && a in s.k.groups
    ensures ReturnsAs(s, DoReturn(s, t, gid, id, response), t, a, id, response)
  {
    assert Wf(s.k) && QueuesOk(s.k.groups, s.k.events) && NoDup(s.k.groups[a].working);
    assert forall e | e in s.k.groups[a].working :: e in s.k.events;
    hide *;
    ReturnSplits(s, t, gid, id, response, a);
    var s1 := DoReturn(s, t, gid, id, response);
    var found := FindEvent(s.k.groups[a].working, s.k.events, id);
    if found == None {
      NothingWorkedOn(s.k, a, id);
      NothingReturned(s, s1, t, a, id, response);
    } else {
      FoundIsReturned(s, s1, t, a, id, response, found.value);
    }
  }

  lemma NothingReturned(s: Sys, s1: Sys, t: Tid, a: Addr, id: nat, response: Response)
    requires a in s.k.groups && forall e :: !WorkedOn(s.k, a, e, id)
    requires s1.k == s.k.(groups := s.k.groups[a := Used(s.k.groups[a])]) && s1.threads == s.threads[t := UseOut(a)]
    ensures ReturnsAs(s, s1, t, a, id, response)
  {
  }

  lemma FoundIsReturned(s: Sys, s1: Sys, t: Tid, a: Addr, id: nat, response: Response, e: Addr)
    requires a in s.k.groups && e in s.k.groups[a].working && e in s.k.events && s.k.events[e].id == id
    requires NoDup(s.k.groups[a].working)
    requires s1.k == s.k.(groups := s.k.groups[a := if response == REPOST then Used(s.k.groups[a]) else Answer(s.k.groups[a], e)])
    requires s1.threads == s.threads[t := if response == REPOST then RetRepost(a, e) else RetRelease(a, e, response == DENY)]
    ensures ReturnsAs(s, s1, t, a, id, response)
  {
    assert WorkedOn(s.k, a, e, id);
    hide NoDup, IndexOf;
  }

  lemma NothingWorkedOn(k: State, a: Addr, id: nat)
    requires a in k.groups && (forall e | e in k.groups[a].working :: e in k.events)
    requires FindEvent(k.groups[a].working, k.events, id) == None
    ensures forall e :: !WorkedOn(k, a, e, id)
  {
  }

  lemma ReturnSplits(s: Sys, t: Tid, gid: nat, id: nat, response: Response, a: Addr)
    requires Safe(s) && Wf(s.k) && t !in s.threads && FindById(s.k.list, s.k.groups, gid) == Some(a) && a in s.k.groups
    requires forall e | e in s.k.groups[a].working :: e in s.k.events
    ensures var g := s.k.groups[a];
      var found := FindEvent(g.working, s.k.events, id);
      var s1 := DoReturn(s, t, gid, id, response);
      && s1.k == s.k.(groups := s.k.groups[a := if found.None? || response == REPOST then Used(g) else Answer(g, found.value)])
      && s1.threads == s.threads[t := if found.None? then UseOut(a) else if response == REPOST then RetRepost(a, found.value)
                                      else RetRelease(a, found.value, response == DENY)]
  {
    hide Safe, Wf, FindById, FindEvent, Without, SetStatus;
  }
}
