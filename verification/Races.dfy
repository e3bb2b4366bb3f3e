/** Three runs in which a close comes at the wrong time: a group is linked under an id that has no device,
    a handle takes a group away from under another handle, and a group is freed under a call that holds it. */
module Races {
  import opened Kernel
  import opened Protocol
  import opened Invariant
  import opened KeepsCounts
  import opened Holding
  import opened Tracking
  import opened Registry
  import opened Verdicts
  import opened Groups
  import opened Ids
  import opened Example

  // ---------------------------------------------------------------- one addition

  /** No walk of the list has anything to free. */
  predicate AllUsed(groups: map<Addr, Group>) {
    forall a | a in groups :: groups[a].deprecated ==> groups[a].useCount != 0
  }

  lemma {:induction false} WalkChangesNothing(list: seq<Addr>, groups: map<Addr, Group>, name: string, id: nat, track: bool)
    requires NoDup(list) && (forall a | a in list :: a in groups) && AllUsed(groups)
    requires forall a | a in list :: groups[a].deprecated || groups[a].name != name
    ensures var (l, gs, c) := CheckForGroup(list, groups, name, id, track);
      l == list && gs == groups && c != Exists
  {
    if list != [] { WalkChangesNothing(list[1..], groups, name, id, track); }
  }

  lemma {:induction false} ChoiceChangesNothing(list: seq<Addr>, groups: map<Addr, Group>, name: string, track: bool, id: nat)
    requires ListOk(list, groups) && AllUsed(groups) && !NameInUse(groups, name)
    ensures var c := ChooseId(list, groups, name, track, id);
      c.list == list && c.groups == groups && c.id.Some?
    decreases |Above(groups, id)|
  {
    forall a | a in list ensures groups[a].deprecated || groups[a].name != name {
      assert a in Active(groups) || groups[a].deprecated;
    }
    WalkChangesNothing(list, groups, name, id, track);
    if CheckForGroup(list, groups, name, id, track).2 == Taken {
      AboveShrinks(list, groups, name, track, id);
      ChoiceChangesNothing(list, groups, name, track, id + 1);
    }
  }

  lemma AboveShrinks(list: seq<Addr>, groups: map<Addr, Group>, name: string, track: bool, id: nat)
    requires ListOk(list, groups) && CheckForGroup(list, groups, name, id, track).2 == Taken
    ensures |Above(groups, id + 1)| < |Above(groups, id)|
  {
    CheckForGroupTidies(list, groups, name, id, track);
    var a :| a in list && !groups[a].deprecated && groups[a].id == id;
    TakenIdShrinksAbove(groups, groups, id, a);
  }

  lemma Chosen(list: seq<Addr>, groups: map<Addr, Group>, name: string, track: bool, id: nat)
    requires ListOk(list, groups) && AllUsed(groups) && !NameInUse(groups, name) && LeastFree(groups, id)
    ensures var c := ChooseId(list, groups, name, track, 0);
      c.list == list && c.groups == groups && c.id == Some(id)
  {
    hide ListOk, AllUsed, ChooseId;
    ChooseIdIsLeastFree(list, groups, name, track, 0);
    ChoiceChangesNothing(list, groups, name, track, 0);
  }

  lemma ScanLeads(s: Sys, name: string, track: bool, id: nat)
    requires s.threads == map[0 := AddStart(name, track)]
    requires AllUsed(s.k.groups) && !NameInUse(s.k.groups, name) && LeastFree(s.k.groups, id)
    ensures Leads(s, AddScan(0), s.(threads := map[0 := AddFresh(name, track, id)]))
  {
    if Safe(s) {
      assert ListOk(s.k.list, s.k.groups);
      hide Safe, Wf, ListOk, AllUsed, ChooseId, NameInUse, LeastFree;
      Chosen(s.k.list, s.k.groups, name, track, id);
      assert s.threads[0 := AddFresh(name, track, id)] == map[0 := AddFresh(name, track, id)];
    }
  }

  /** An addition up to its capacity check. */
  lemma ScanRun(run: seq<Step>, s: Sys, name: string, track: bool, id: nat) returns (run1: seq<Step>)
    requires Reached(run, s) && s.threads == map[]
    requires AllUsed(s.k.groups) && !NameInUse(s.k.groups, name) && LeastFree(s.k.groups, id)
    ensures Reached(run1, s.(threads := map[0 := AddFresh(name, track, id)]))
  {
    var s1 := s.(threads := map[0 := AddStart(name, track)]);
    EnterLeads(s, name, track);
    ScanLeads(s1, name, track, id);
    hide *;
    run1 := Then(run, s, AddEnter(0, name, track), s1);
    run1 := Then(run1, s1, AddScan(0), s.(threads := map[0 := AddFresh(name, track, id)]));
  }

  lemma EnterLeads(s: Sys, name: string, track: bool)
    requires s.threads == map[]
    ensures Leads(s, AddEnter(0, name, track), s.(threads := map[0 := AddStart(name, track)]))
  {
    hide Safe;
  }

  function Linked(s: Sys, a: Addr, name: string, id: nat, track: bool): Sys {
    s.(k := LinkGroup(s.k, a, name, id, track).(count := s.k.count + 1), born := s.born + {a}, threads := map[])
  }

  lemma RoomLeads(s: Sys, name: string, track: bool, id: nat)
    requires s.threads == map[0 := AddFresh(name, track, id)] && s.k.count != GROUP_COUNT
    ensures Leads(s, AddRoom(0, false), s.(threads := map[0 := AddReady(name, track, id)]))
  {
    hide Safe;
  }

  lemma LinkLeads(s: Sys, a: Addr, name: string, track: bool, id: nat)
    requires s.threads == map[0 := AddReady(name, track, id)] && a !in s.born
    ensures Leads(s, AddLink(0, a),
                  s.(threads := map[0 := AddLinked], k := LinkGroup(s.k, a, name, id, track), born := s.born + {a}))
  {
    hide Safe;
  }

  lemma CountLeads(s: Sys)
    requires s.threads == map[0 := AddLinked]
    ensures var s1 := s.(threads := map[0 := WriteOut], k := s.k.(count := s.k.count + 1));
      Leads(s, AddCount(0), s1) && Leads(s1, WriteUp(0), s1.(threads := map[]))
  {
    hide Safe;
  }

  /** The rest of it, when there is room. */
  lemma LinkRun(run: seq<Step>, s: Sys, a: Addr, name: string, track: bool, id: nat) returns (run1: seq<Step>)
    requires Reached(run, s) && s.threads == map[0 := AddFresh(name, track, id)]
    requires s.k.count != GROUP_COUNT && a !in s.born
    ensures Reached(run1, Linked(s, a, name, id, track))
  {
    var s1 := s.(threads := map[0 := AddReady(name, track, id)]);
    var s2 := s.(threads := map[0 := AddLinked], k := LinkGroup(s.k, a, name, id, track), born := s.born + {a});
    var s3 := s2.(threads := map[0 := WriteOut], k := s2.k.(count := s2.k.count + 1));
    RoomLeads(s, name, track, id);
    LinkLeads(s1, a, name, track, id);
    CountLeads(s2);
    assert s2.k.count == s.k.count && s3.(threads := map[]) == Linked(s, a, name, id, track);
    hide *;
    run1 := Then(run, s, AddRoom(0, false), s1);
    run1 := Then(run1, s1, AddLink(0, a), s2);
    run1 := Then(run1, s2, AddCount(0), s3);
    run1 := Then(run1, s3, WriteUp(0), s3.(threads := map[]));
  }

  // ---------------------------------------------------------------- as many groups as there can be

  /** The name of the n-th group: one letter more than n. */
  function Name(n: nat): string { seq(n + 1, i => 'a') }

  lemma NamesOfGroups(n: nat, m: nat)
    ensures Name(n) == Name(m) <==> n == m
  {
    assert |Name(n)| == n + 1 && |Name(m)| == m + 1;
  }

  function TrackedGroup(n: nat): Group { Group(Name(n), n, true, 0, 0, false, [], []) }

  /** The state after n additions: the i-th group at address i under id i. */
  function Lined(n: nat): Sys {
    var groups := map a: nat | 0 <= a < n :: TrackedGroup(a);
    Sys(State(seq(n, i => i), groups, map[], n, 0), map[], map[], map[], groups.Keys, 0)
  }

  lemma LinedHas(n: nat)
    ensures var g := Lined(n).k.groups;
      && AllUsed(g) && !NameInUse(g, Name(n)) && LeastFree(g, n) && n !in Lined(n).born
  {
    var g := Lined(n).k.groups;
    assert forall a | a in g :: g[a] == TrackedGroup(a);
    if a :| a in Active(g) && g[a].name == Name(n) { NamesOfGroups(a, n); }
    forall j | 0 <= j < n ensures IdInUse(g, j) { assert j in Active(g) && g[j].id == j; }
  }

  lemma LinedGrows(n: nat)
    ensures Linked(Lined(n).(threads := map[0 := AddFresh(Name(n), true, n)]), n, Name(n), n, true) == Lined(n + 1)
  {
    var s := Linked(Lined(n).(threads := map[0 := AddFresh(Name(n), true, n)]), n, Name(n), n, true);
    assert s.k.list == Lined(n + 1).k.list;
    assert s.k.groups == Lined(n + 1).k.groups;
    assert s.born == Lined(n + 1).born;
  }

  lemma {:induction false} ToLined(n: nat) returns (run: seq<Step>)
    requires n <= GROUP_COUNT
    ensures Reached(run, Lined(n))
  {
    if n == 0 {
      run := [];
      assert Lined(0) == INIT;
      LinedStarts(run);
    } else {
      run := ToLined(n - 1);
      LinedHas(n - 1);
      LinedGrows(n - 1);
      var s := Lined(n - 1);
      var s1 := s.(threads := map[0 := AddFresh(Name(n - 1), true, n - 1)]);
      assert s.k.count == n - 1 && s.threads == map[];
      hide *;
      run := ScanRun(run, s, Name(n - 1), true, n - 1);
      run := LinkRun(run, s1, n - 1, Name(n - 1), true, n - 1);
    }
  }

  lemma LinedStarts(run: seq<Step>)
    requires run == []
    ensures Reached(run, INIT)
  {
  }

  // ---------------------------------------------------------------- an id without a device

  /** All ids are taken and the group at 0 has one handle. */
  function AllTaken(): Sys {
    var s := Lined(GROUP_COUNT);
    s.(k := s.k.(groups := s.k.groups[0 := Tracked(TrackedGroup(0))]), handles := map[0 := Handle(0, Some(0))])
  }

  lemma OpenLeads()
    ensures Leads(Lined(GROUP_COUNT), Open(0, 0), AllTaken())
  {
    var s := Lined(GROUP_COUNT);
    assert 0 in Active(s.k.groups) && s.k.groups[0] == TrackedGroup(0);
    if Safe(s) {
      OpenFound(s, 0, 0, 0);
    }
  }

  lemma OpenFound(s: Sys, h: nat, gid: nat, a: Addr)
    requires Safe(s) && a in Active(s.k.groups) && s.k.groups[a].id == gid && s.k.groups[a].tracking && h !in s.handles
    ensures Enabled(s, Open(h, gid)) && HandleMatches(s, Open(h, gid))
    ensures Next(s, Open(h, gid)) == s.(k := s.k.(groups := s.k.groups[a := Tracked(s.k.groups[a])]),
                                        handles := s.handles[h := Handle(gid, Some(a))])
  {
    hide QueuesOk, NamesDistinct;
    LookupIsUnique(s.k, gid, a);
  }

  lemma AllTakenHas()
    ensures var s := AllTaken();
      && s.threads == map[] && AllUsed(s.k.groups)
      && !NameInUse(s.k.groups, Name(GROUP_COUNT)) && LeastFree(s.k.groups, GROUP_COUNT) && GROUP_COUNT !in s.born
  {
    var n := GROUP_COUNT;
    var g := AllTaken().k.groups;
    assert forall a | a in g :: 0 <= a < n && g[a].id == a && g[a].name == Name(a) && !g[a].deprecated;
    if a :| a in Active(g) && g[a].name == Name(n) { NamesOfGroups(a, n); }
    forall j | 0 <= j < n ensures IdInUse(g, j) { assert j in Active(g); }
  }

  /** The last handle of a group is closed while an addition is waiting for its check. */
  lemma CloseFrees(s: Sys)
    requires s == AllTaken().(threads := map[0 := AddFresh(Name(GROUP_COUNT), true, GROUP_COUNT)])
    requires Safe(s)
    ensures Enabled(s, Close(0)) && HandleMatches(s, Close(0))
    ensures var s1 := Next(s, Close(0));
      s1.threads == s.threads && s1.k.count == GROUP_COUNT - 1 && s1.born == s.born
  {
    hide QueuesOk, NamesDistinct, ReleaseAll;
    assert 0 in Active(s.k.groups) && s.k.groups[0] == Tracked(TrackedGroup(0));
    LookupIsUnique(s.k, 0, 0);
  }

  /** A legal run that ends with an active group under an id for which there is no device. */
  lemma SomeGroupHasNoDevice() returns (run: seq<Step>, a: Addr)
    ensures Legal(run) && Matched(run) && a in Active(At(run).k.groups) && At(run).k.groups[a].id == GROUP_COUNT
    ensures At(run).threads == map[]
  {
    var n := GROUP_COUNT;
    var s := AllTaken();
    var s1 := s.(threads := map[0 := AddFresh(Name(n), true, n)]);
    AllTakenHas();
    OpenLeads();
    assert s1.born == s.born;
    hide *;
    run := ToLined(n);
    run := Then(run, Lined(n), Open(0, 0), s);
    run := ScanRun(run, s, Name(n), true, n);
    ReachedIsSafe(run, s1);
    CloseFrees(s1);
    MatchedGoesOn(run, Close(0));
    run := run + [Close(0)];
    var s2 := Next(s1, Close(0));
    IsReached(run, s2);
    run := LinkRun(run, s2, n, Name(n), true, n);
    a := n;
    LinkedHas(s2, a, Name(n), n, true);
    ReachedIsSafe(run, Linked(s2, a, Name(n), n, true));
  }

  lemma IsReached(run: seq<Step>, s: Sys)
    requires Legal(run) && Matched(run) && At(run) == s
    ensures Reached(run, s)
  {
  }

  lemma LinkedHas(s: Sys, a: Addr, name: string, id: nat, track: bool)
    ensures var s1 := Linked(s, a, name, id, track);
      a in Active(s1.k.groups) && s1.k.groups[a].id == id && s1.threads == map[]
  {
  }

  // ---------------------------------------------------------------- a handle that takes away another's group

  /** One tracked group with one handle. */
  function OneOpen(): Sys {
    var s := Lined(1);
    s.(k := s.k.(groups := s.k.groups[0 := Tracked(TrackedGroup(0))]), handles := map[0 := Handle(0, Some(0))])
  }

  /** The group has been removed; the handle is still open. */
  function Orphaned(): Sys {
    var s := OneOpen();
    s.(k := s.k.(groups := s.k.groups[0 := Tracked(TrackedGroup(0)).(deprecated := true)], count := 0))
  }

  /** A second group has come under the same id, and has a handle of its own. */
  function PassedOn(): Sys {
    var s := Linked(Orphaned().(threads := map[0 := AddFresh(Name(1), true, 0)]), 1, Name(1), 0, true);
    s.(k := s.k.(groups := s.k.groups[1 := Tracked(TrackedGroup(1).(id := 0))]), handles := s.handles[1 := Handle(0, Some(1))])
  }

  lemma OneOpens()
    ensures Leads(Lined(1), Open(0, 0), OneOpen())
  {
    var s := Lined(1);
    assert 0 in Active(s.k.groups) && s.k.groups[0] == TrackedGroup(0);
    if Safe(s) { OpenFound(s, 0, 0, 0); }
  }

  lemma RemovalBegins(s: Sys, name: string)
    requires s.threads == map[] && s.k.count != 0
    ensures Leads(s, RemEnter(0, name), s.(threads := map[0 := RemStart(name)]))
    ensures Leads(s.(threads := map[0 := RemStart(name)]), RemCheck(0), s.(threads := map[0 := RemGo(name)]))
  {
    hide Safe;
  }

  lemma FindByNameFinds(k: State, a: Addr)
    requires Wf(k) && a in Active(k.groups)
    ensures FindByName(k.list, k.groups, k.groups[a].name) == Some(a)
  {
  }

  /** The last step of the removal of a group without events. */
  lemma QuietRemoval(s: Sys, a: Addr)
    requires Safe(s) && a in Active(s.k.groups) && 0 in s.threads && s.threads[0] == RemGo(s.k.groups[a].name)
    requires s.k.groups[a].todo == [] && s.k.groups[a].working == [] && s.hist == map[]
    ensures Enabled(s, RemWork(0)) && HandleMatches(s, RemWork(0))
    ensures Next(s, RemWork(0)) == Retired(s, a).(threads := s.threads[0 := WriteOut])
  {
    assert Wf(s.k);
    FindByNameFinds(s.k, a);
    hide Safe, Wf, FindByName;
    assert NoteRemoved(s.hist, s.k.groups[a], a) == map[];
  }

  lemma RemovalEnds(s: Sys)
    requires s.threads == map[]
    ensures Leads(s.(threads := map[0 := WriteOut]), WriteUp(0), s)
  {
    hide Safe;
  }

  /** The state once the group at `a` has been removed. */
  function Retired(s: Sys, a: Addr): Sys
    requires a in s.k.groups
  {
    s.(k := s.k.(groups := s.k.groups[a := s.k.groups[a].(deprecated := true)], count := s.k.count - 1))
  }

  ghost predicate Removable(s: Sys, a: Addr) {
    && s.threads == map[] && a in Active(s.k.groups) && s.k.count != 0
    && s.k.groups[a].todo == [] && s.k.groups[a].working == [] && s.hist == map[]
  }

  lemma RemovalLeads(s: Sys, a: Addr)
    requires Removable(s, a)
    ensures a in s.k.groups
    ensures Leads(s.(threads := map[0 := RemGo(s.k.groups[a].name)]), RemWork(0), Retired(s, a).(threads := map[0 := WriteOut]))
  {
    var s0 := s.(threads := map[0 := RemGo(s.k.groups[a].name)]);
    if Safe(s0) { QuietRemoval(s0, a); }
    assert s0.threads[0 := WriteOut] == map[0 := WriteOut];
    hide Safe, Next, Enabled;
  }

  /** The removal of a group without events. */
  lemma RemovalRun(run: seq<Step>, s: Sys, a: Addr) returns (run1: seq<Step>)
    requires Reached(run, s) && Removable(s, a)
    ensures a in s.k.groups && Reached(run1, Retired(s, a))
  {
    assert s.threads == map[] && s.k.count != 0 && a in s.k.groups && Retired(s, a).threads == map[];
    var name := s.k.groups[a].name;
    RemovalBegins(s, name);
    RemovalLeads(s, a);
    RemovalEnds(Retired(s, a));
    hide *;
    run1 := Then(run, s, RemEnter(0, name), s.(threads := map[0 := RemStart(name)]));
    run1 := Then(run1, s.(threads := map[0 := RemStart(name)]), RemCheck(0), s.(threads := map[0 := RemGo(name)]));
    run1 := Then(run1, s.(threads := map[0 := RemGo(name)]), RemWork(0), Retired(s, a).(threads := map[0 := WriteOut]));
    run1 := Then(run1, Retired(s, a).(threads := map[0 := WriteOut]), WriteUp(0), Retired(s, a));
  }

  lemma ToOrphaned() returns (run: seq<Step>)
    ensures Reached(run, Orphaned())
  {
    var s := OneOpen();
    OneOpens();
    OneOpenIs();
    assert Retired(s, 0) == Orphaned();
    hide *;
    run := ToLined(1);
    run := Then(run, Lined(1), Open(0, 0), s);
    run := RemovalRun(run, s, 0);
  }

  lemma OneOpenIs()
    ensures Removable(OneOpen(), 0)
  {
  }

  lemma OrphanedHas()
    ensures var s := Orphaned();
      && s.threads == map[] && AllUsed(s.k.groups) && !NameInUse(s.k.groups, Name(1)) && LeastFree(s.k.groups, 0)
      && 1 !in s.born && s.k.count == 0
  {
    assert Active(Orphaned().k.groups) == {};
  }

  lemma SecondOpens()
    ensures Leads(Linked(Orphaned().(threads := map[0 := AddFresh(Name(1), true, 0)]), 1, Name(1), 0, true), Open(1, 0), PassedOn())
  {
    var s := Linked(Orphaned().(threads := map[0 := AddFresh(Name(1), true, 0)]), 1, Name(1), 0, true);
    assert 1 in Active(s.k.groups) && s.k.groups[1] == TrackedGroup(1).(id := 0);
    if Safe(s) { OpenFound(s, 1, 0, 1); }
  }

  lemma ToPassedOn() returns (run: seq<Step>)
    ensures Reached(run, PassedOn())
  {
    var s := Orphaned();
    var s1 := s.(threads := map[0 := AddFresh(Name(1), true, 0)]);
    OrphanedHas();
    SecondOpens();
    assert s1.born == s.born && s1.k == s.k;
    hide *;
    run := ToOrphaned();
    run := ScanRun(run, s, Name(1), true, 0);
    run := LinkRun(run, s1, 1, Name(1), true, 0);
    run := Then(run, Linked(s1, 1, Name(1), 0, true), Open(1, 0), PassedOn());
  }

  lemma FoundIsTheSecond(s: Sys)
    requires s == PassedOn() && Safe(s)
    ensures FindById(s.k.list, s.k.groups, 0) == Some(1)
    ensures 0 in s.handles && 1 in s.handles && s.handles[0] == Handle(0, Some(0)) && s.handles[1] == Handle(0, Some(1))
    ensures 1 in Active(s.k.groups) && s.k.groups[1].trackCount == 1 && s.k.groups[1].tracking
  {
    assert 1 in Active(s.k.groups);
    LookupIsUnique(s.k, 0, 1);
  }

  /** A close under an id that has passed on to a group with a single handle. */
  lemma PassedOnClose(s: Sys, h: nat, other: nat, a: Addr)
    requires Inv(s) && Safe(s) && h in s.handles && other in s.handles && h != other
    requires s.handles[h].group.Some? && s.handles[h].group != Some(a) && s.handles[other].group == Some(a)
    requires FindById(s.k.list, s.k.groups, s.handles[h].gid) == Some(a)
    requires a in Active(s.k.groups) && s.k.groups[a].tracking && s.k.groups[a].trackCount == 1
    ensures !HandleMatches(s, Close(h)) && !ClosesRight(s, h)
    ensures a !in Active(DoClose(s, h).k.groups)
    ensures other in DoClose(s, h).handles && DoClose(s, h).handles[other].group == Some(a)
  {
    hide Inv, Safe, DoClose, FindById, ClosesRight;
    CloseIsRightExactly(s, h);
    CloseEffect(s, h);
  }

  /** A handle of a group that was removed by name counts, when it is closed, for the next group under
      that id: in a state that a legal run leads to, the close takes out of use a group on which
      another handle is still open. */
  lemma SomeCloseIsWrong() returns (run: seq<Step>, h: nat, other: nat, a: Addr)
    ensures Legal(run) && Matched(run) && Inv(At(run)) && Safe(At(run)) && Enabled(At(run), Close(h))
    ensures !HandleMatches(At(run), Close(h)) && !ClosesRight(At(run), h)
    ensures a in Active(At(run).k.groups) && a !in Active(DoClose(At(run), h).k.groups)
    ensures other in DoClose(At(run), h).handles && DoClose(At(run), h).handles[other].group == Some(a)
  {
    var s := PassedOn();
    h, other, a := 0, 1, 1;
    if Safe(s) { FoundIsTheSecond(s); }
    hide *;
    run := ToPassedOn();
    ReachedIsSafe(run, s);
    CloseIsEnabled(s, h);
    PassedOnClose(s, h, other, a);
  }

  lemma CloseIsEnabled(s: Sys, h: nat)
    requires h in s.handles
    ensures Enabled(s, Close(h))
  {
  }

  // ---------------------------------------------------------------- a group freed under a call

  /** Two handles on one tracked group. */
  function TwoOpen(): Sys {
    var s := Lined(1);
    s.(k := s.k.(groups := s.k.groups[0 := Tracked(Tracked(TrackedGroup(0)))]),
       handles := map[0 := Handle(0, Some(0)), 1 := Handle(0, Some(0))])
  }

  lemma SecondHandle()
    ensures Leads(OneOpen(), Open(1, 0), TwoOpen())
  {
    var s := OneOpen();
    assert 0 in Active(s.k.groups) && s.k.groups[0] == Tracked(TrackedGroup(0));
    if Safe(s) { OpenFound(s, 1, 0, 0); }
  }

  /** The group has been removed, and another one has come under its id, which nobody has opened. */
  function Replaced(): Sys {
    Linked(Retired(TwoOpen(), 0).(threads := map[0 := AddFresh(Name(1), true, 0)]), 1, Name(1), 0, true)
  }

  lemma TwoOpenHas()
    ensures Removable(TwoOpen(), 0)
    ensures var s := Retired(TwoOpen(), 0);
      && s.threads == map[] && AllUsed(s.k.groups) && !NameInUse(s.k.groups, Name(1)) && LeastFree(s.k.groups, 0)
      && 1 !in s.born && s.k.count == 0
  {
    assert Active(Retired(TwoOpen(), 0).k.groups) == {};
  }

  lemma ToReplaced() returns (run: seq<Step>)
    ensures Reached(run, Replaced())
  {
    var s := Retired(TwoOpen(), 0);
    var s1 := s.(threads := map[0 := AddFresh(Name(1), true, 0)]);
    OneOpens();
    SecondHandle();
    TwoOpenHas();
    assert s1.born == s.born && s1.k == s.k;
    assert Linked(s1, 1, Name(1), 0, true) == Replaced();
    hide *;
    run := ToLined(1);
    run := Then(run, Lined(1), Open(0, 0), OneOpen());
    run := Then(run, OneOpen(), Open(1, 0), TwoOpen());
    run := RemovalRun(run, TwoOpen(), 0);
    run := ScanRun(run, s, Name(1), true, 0);
    run := LinkRun(run, s1, 1, Name(1), true, 0);
  }

  /** A process of the second group is reading, through a handle of the first. */
  function Reading(): Sys {
    var s := Replaced();
    s.(k := AddUse(s.k, 1, 1), threads := map[5 := GetWait(1)])
  }

  /** The other handle of the first group has been closed, and has lowered the counts of the second. */
  function Lowered(): Sys {
    var s := Reading();
    s.(k := s.k.(groups := s.k.groups[1 := s.k.groups[1].(useCount := 0, trackCount := -1)]), handles := s.handles - {0})
  }

  function Doing(s: Sys, th: Thread): Sys { s.(threads := map[5 := GetWait(1), 0 := th]) }

  /** The second group has been removed, and another addition begins. */
  function Doomed(): Sys { Doing(Retired(Lowered(), 1), AddStart(Name(2), false)) }

  lemma ReplacedHas()
    ensures var s := Replaced();
      && s.k.list == [0, 1] && s.threads == map[] && s.hist == map[] && s.k.count == 1
      && s.k.groups == map[0 := Tracked(Tracked(TrackedGroup(0))).(deprecated := true), 1 := TrackedGroup(1).(id := 0)]
      && s.handles == map[0 := Handle(0, Some(0)), 1 := Handle(0, Some(0))]
  {
  }

  lemma LoweredHas()
    ensures var s := Lowered();
      && s.k.list == [0, 1] && s.threads == map[5 := GetWait(1)] && s.hist == map[] && s.k.count == 1
      && s.k.groups == map[0 := Tracked(Tracked(TrackedGroup(0))).(deprecated := true),
                           1 := TrackedGroup(1).(id := 0, trackCount := -1)]
  {
    ReplacedHas();
    hide Replaced;
  }

  lemma ReadingLeads()
    requires Safe(Replaced())
    ensures Enabled(Replaced(), UseEnter(5, 0)) && Next(Replaced(), UseEnter(5, 0)) == Reading()
  {
    var s := Replaced();
    ReplacedHas();
    hide Replaced, QueuesOk, NamesDistinct;
    assert 1 in Active(s.k.groups);
    LookupIsUnique(s.k, 0, 1);
    hide Safe, Wf;
    assert s.threads[5 := GetWait(1)] == map[5 := GetWait(1)];
  }

  lemma LoweringLeads()
    requires Safe(Reading())
    ensures Enabled(Reading(), Close(0)) && Next(Reading(), Close(0)) == Lowered() && Undercuts(Reading(), Close(0))
  {
    var s := Reading();
    ReplacedHas();
    hide Replaced, QueuesOk, NamesDistinct;
    assert 1 in Active(s.k.groups);
    LookupIsUnique(s.k, 0, 1);
    assert ListOk(s.k.list, s.k.groups) && Uncounts(s, Close(0), 1) && s.k.groups[1].trackCount == 0;
    hide Safe, Wf;
  }

  lemma DoomBegins()
    requires Safe(Lowered())
    ensures var s, name := Lowered(), Name(1);
      && Enabled(s, RemEnter(0, name)) && Next(s, RemEnter(0, name)) == Doing(s, RemStart(name))
      && (Safe(Doing(s, RemStart(name))) ==>
            Enabled(Doing(s, RemStart(name)), RemCheck(0)) && Next(Doing(s, RemStart(name)), RemCheck(0)) == Doing(s, RemGo(name)))
  {
    LoweredHas();
    hide Safe, Lowered, Name;
    assert Lowered().threads[0 := RemStart(Name(1))] == Doing(Lowered(), RemStart(Name(1))).threads;
  }

  lemma DoomGoesOn()
    requires Safe(Doing(Lowered(), RemGo(Name(1))))
    ensures var s := Doing(Lowered(), RemGo(Name(1)));
      Enabled(s, RemWork(0)) && Next(s, RemWork(0)) == Doing(Retired(Lowered(), 1), WriteOut)
  {
    var s := Doing(Lowered(), RemGo(Name(1)));
    DoomedGroup();
    hide *;
    QuietRemoval(s, 1);
    DoingCommutes(Lowered(), 1, Name(1));
  }

  lemma DoomedGroup()
    ensures var s := Doing(Lowered(), RemGo(Name(1)));
      && 1 in Active(s.k.groups) && 0 in s.threads && s.threads[0] == RemGo(s.k.groups[1].name)
      && s.k.groups[1].todo == [] && s.k.groups[1].working == [] && s.hist == map[] && 1 in Lowered().k.groups
  {
    LoweredHas();
    hide Lowered, Name;
  }

  lemma DoingCommutes(s: Sys, a: Addr, name: string)
    requires a in s.k.groups
    ensures a in Doing(s, RemGo(name)).k.groups
    ensures Retired(Doing(s, RemGo(name)), a).(threads := Doing(s, RemGo(name)).threads[0 := WriteOut])
         == Doing(Retired(s, a), WriteOut)
  {
    assert Doing(s, RemGo(name)).threads[0 := WriteOut] == Doing(s, WriteOut).threads;
  }

  lemma DoomIsNear(s: Sys)
    requires s.threads == map[5 := GetWait(1)]
    ensures Safe(Doing(s, WriteOut)) ==> Enabled(Doing(s, WriteOut), WriteUp(0)) && Next(Doing(s, WriteOut), WriteUp(0)) == s
    ensures var add := AddEnter(0, Name(2), false);
      Safe(s) ==> Enabled(s, add) && Next(s, add) == Doing(s, AddStart(Name(2), false))
  {
    hide Safe, Name;
    assert s.threads[0 := AddStart(Name(2), false)] == Doing(s, AddStart(Name(2), false)).threads;
    assert Doing(s, WriteOut).threads - {0} == s.threads;
  }

  /** The walk frees the second group, whose use count is zero. */
  lemma WalkFrees(groups: map<Addr, Group>, name: string)
    requires groups.Keys == {0, 1} && groups[0].deprecated && groups[0].useCount == 2
    requires groups[1].deprecated && groups[1].useCount == 0 && ListOk([0, 1], groups)
    ensures ChooseId([0, 1], groups, name, false, 0).groups == groups - {1}
  {
    assert [0, 1][1..] == [1] && [1][1..] == [];
    assert CheckForGroup([1], groups, name, 0, false) == CheckForGroup([], groups - {1}, name, 0, false);
    assert CheckForGroup([0, 1], groups, name, 0, false).1 == groups - {1};
    assert CheckForGroup([0, 1], groups, name, 0, false).2 == Free;
  }

  lemma DoomComes()
    requires Safe(Doomed())
    ensures Enabled(Doomed(), AddScan(0))
    ensures var s1 := Next(Doomed(), AddScan(0));
      5 in s1.threads && s1.threads[5] == GetWait(1) && 1 in Doomed().k.groups && 1 !in s1.k.groups
  {
    var s := Doomed();
    DoomedHas();
    assert ListOk(s.k.list, s.k.groups);
    hide *;
    WalkFrees(s.k.groups, Name(2));
    ScanResult(s, 0, Name(2));
  }

  lemma DoomedHas()
    ensures var s := Doomed();
      && s.k.list == [0, 1] && 0 in s.threads && s.threads[0] == AddStart(Name(2), false)
      && 5 in s.threads && s.threads[5] == GetWait(1)
      && s.k.groups.Keys == {0, 1} && s.k.groups[0].deprecated && s.k.groups[0].useCount == 2
      && s.k.groups[1].deprecated && s.k.groups[1].useCount == 0
  {
    LoweredHas();
    hide Lowered, Name;
  }

  lemma ScanResult(s: Sys, t: Tid, name: string)
    requires Safe(s) && t in s.threads && s.threads[t] == AddStart(name, false)
    ensures ListOk(s.k.list, s.k.groups)
    ensures Enabled(s, AddScan(t)) && Next(s, AddScan(t)).k.groups == ChooseId(s.k.list, s.k.groups, name, false, 0).groups
    ensures forall u | u in s.threads && u != t ::
              u in Next(s, AddScan(t)).threads && Next(s, AddScan(t)).threads[u] == s.threads[u]
  {
    assert ListOk(s.k.list, s.k.groups);
    hide Safe, Wf, ListOk, ChooseId;
  }

  /** A run that ends in `s`, in which every group held is live. */
  ghost predicate Arrived(run: seq<Step>, s: Sys) { Legal(run) && At(run) == s && HeldLive(s.k.groups, s.threads) }

  lemma GoOn(run: seq<Step>, s: Sys, st: Step, s1: Sys) returns (run1: seq<Step>)
    requires Arrived(run, s) && (Safe(s) ==> Enabled(s, st) && Next(s, st) == s1)
    ensures run1 == run + [st] && Safe(s) && Legal(run1) && At(run1) == s1
    ensures HeldLive(s1.k.groups, s1.threads) ==> Arrived(run1, s1)
  {
    assert (run + [st])[..|run|] == run;
    RunsKeepCore(run);
    CoreIsSafeExactly(s);
    hide Core, Safe, Enabled, Next, HeldLive;
    run1 := run + [st];
  }

  /** All that is held in these states is the second group, which is there. */
  lemma SecondIsLive()
    ensures HeldLive(Replaced().k.groups, Replaced().threads)
    ensures HeldLive(Reading().k.groups, Reading().threads)
    ensures HeldLive(Lowered().k.groups, Lowered().threads)
    ensures forall th: Thread | th.Held() == None ::
              && HeldLive(Doing(Lowered(), th).k.groups, Doing(Lowered(), th).threads)
              && HeldLive(Doing(Retired(Lowered(), 1), th).k.groups, Doing(Retired(Lowered(), 1), th).threads)
    ensures HeldLive(Retired(Lowered(), 1).k.groups, Retired(Lowered(), 1).threads)
  {
    ReplacedHas();
    LoweredHas();
    hide Replaced, Lowered;
  }

  lemma ArrivedIsSafe(run: seq<Step>, s: Sys)
    requires Arrived(run, s)
    ensures Safe(s) && Legal(run) && At(run) == s
  {
    RunsKeepCore(run);
    CoreIsSafeExactly(s);
  }

  lemma ToLowered() returns (run: seq<Step>)
    ensures Arrived(run, Lowered())
  {
    SecondIsLive();
    hide *;
    run := ToReplaced();
    ReachedArrives(run, Replaced());
    ArrivedIsSafe(run, Replaced());
    ReadingLeads();
    run := GoOn(run, Replaced(), UseEnter(5, 0), Reading());
    ArrivedIsSafe(run, Reading());
    LoweringLeads();
    run := GoOn(run, Reading(), Close(0), Lowered());
  }

  lemma ToDoomed() returns (run: seq<Step>)
    ensures Arrived(run, Doomed())
  {
    SecondIsLive();
    DoomNames();
    hide *;
    var s, last, name := Lowered(), Retired(Lowered(), 1), Name(1);
    run := ToLowered();
    ArrivedIsSafe(run, s);
    DoomBegins();
    run := GoOn(run, s, RemEnter(0, name), Doing(s, RemStart(name)));
    run := GoOn(run, Doing(s, RemStart(name)), RemCheck(0), Doing(s, RemGo(name)));
    ArrivedIsSafe(run, Doing(s, RemGo(name)));
    DoomGoesOn();
    run := GoOn(run, Doing(s, RemGo(name)), RemWork(0), Doing(last, WriteOut));
    DoomIsNear(last);
    run := GoOn(run, Doing(last, WriteOut), WriteUp(0), last);
    run := GoOn(run, last, AddEnter(0, Name(2), false), Doomed());
  }

  lemma DoomNames()
    ensures 1 in Lowered().k.groups && Retired(Lowered(), 1).threads == map[5 := GetWait(1)]
    ensures Doomed() == Doing(Retired(Lowered(), 1), AddStart(Name(2), false))
    ensures RemStart(Name(1)).Held() == None && RemGo(Name(1)).Held() == None && WriteOut.Held() == None
    ensures AddStart(Name(2), false).Held() == None
  {
    LoweredHas();
    hide Lowered;
  }

  /** A legal run that ends with a group freed under a call that holds it. The old reader of a removed group
      reads on under the id, by then of a second group; the close of the other old handle lowers the
      counts of that group, and hides the reader; a removal and a scan free it. */
  lemma SomeHeldGroupIsFreed() returns (run: seq<Step>, t: Tid, a: Addr)
    ensures Legal(run) && run != [] && Legal(run[..|run| - 1])
    ensures t in At(run).threads && At(run).threads[t] == GetWait(a)
    ensures a in At(run[..|run| - 1]).k.groups && a !in At(run).k.groups
    ensures !Safe(At(run))
  {
    hide *;
    t, a := 5, 1;
    var before := ToDoomed();
    ArrivedIsSafe(before, Doomed());
    DoomComes();
    run := GoOn(before, Doomed(), AddScan(0), Next(Doomed(), AddScan(0)));
    assert run[..|run| - 1] == before;
    HeldButGone(At(run), t, a);
  }

  lemma ReachedArrives(run: seq<Step>, s: Sys)
    requires Reached(run, s) && HeldLive(s.k.groups, s.threads)
    ensures Arrived(run, s)
  {
  }

  lemma HeldButGone(s: Sys, t: Tid, a: Addr)
    requires t in s.threads && s.threads[t] == GetWait(a) && a !in s.k.groups
    ensures !Safe(s)
  {
  }
}
