/** The shared data of event.c as values, and what each critical section does to it.

    Every function here is the specification of one piece of code that runs under `work_mutex`
    or `assigned_mutex`. `EventLists` carries the same operations out in place and is proved
    against these functions; `Protocol` interleaves them. */
module Kernel {

  /** The most groups that can exist at once (dev.h). */
  const GROUP_COUNT: nat := 10

  /** The identity of one allocation. A key is never given to a second allocation. */
  type Addr = nat

  datatype Option<+T> = None | Some(value: T)

  datatype Response = ALLOW | DENY | REPOST

  datatype Event = Event(id: nat, assignedCount: int, deny: bool, deprecated: bool)

  /** A container on a list is represented by the event it points to. */
  datatype Group = Group(name: string, id: nat, tracking: bool, trackCount: int, useCount: int,
                         deprecated: bool, todo: seq<Addr>, working: seq<Addr>)
  {
    predicate Holds(e: Addr) { e in todo || e in working }
  }

  /** `list` is `group_list`; `groups` and `events` are the live objects of the two slab caches. */
  datatype State = State(list: seq<Addr>, groups: map<Addr, Group>, events: map<Addr, Event>,
                         count: int, lastId: int)

  ghost predicate NoDup<T>(s: seq<T>) {
    forall i, j | 0 <= i < j < |s| :: s[i] != s[j]
  }

  function Active(groups: map<Addr, Group>): set<Addr> {
    set a | a in groups && !groups[a].deprecated
  }

  /** The active groups in a part of the list. */
  function ActiveIn(l: seq<Addr>, groups: map<Addr, Group>): set<Addr> {
    set a | a in l && a in groups && !groups[a].deprecated
  }

  ghost predicate ListOk(list: seq<Addr>, groups: map<Addr, Group>) {
    NoDup(list) && forall a :: a in list <==> a in groups
  }

  /** Removed groups are empty; a group holds an event at most once, on one list. */
  ghost predicate QueuesOk(groups: map<Addr, Group>, events: map<Addr, Event>) {
    forall a | a in groups ::
      var g := groups[a];
      && (g.deprecated ==> g.todo == [] && g.working == [])
      && NoDup(g.todo) && NoDup(g.working)
      && (forall e | e in g.todo :: e in events && e !in g.working)
      && (forall e | e in g.working :: e in events)
  }

  ghost predicate NamesDistinct(groups: map<Addr, Group>) {
    forall a, b | a in Active(groups) && b in Active(groups) && groups[a].name == groups[b].name :: a == b
  }

  ghost predicate IdsDistinct(groups: map<Addr, Group>) {
    forall a, b | a in Active(groups) && b in Active(groups) && groups[a].id == groups[b].id :: a == b
  }

  ghost predicate Wf(k: State) {
    && ListOk(k.list, k.groups)
    && QueuesOk(k.groups, k.events)
    && NamesDistinct(k.groups)
    && IdsDistinct(k.groups)
  }

  // ---------------------------------------------------------------- sequences

  function IndexOf<T(==)>(s: seq<T>, x: T): (i: nat)
    requires x in s
    ensures i < |s| && s[i] == x && x !in s[..i]
  {
    if s[0] == x then 0
    else
      assert s[1..][..IndexOf(s[1..], x)] == s[1..1 + IndexOf(s[1..], x)];
      1 + IndexOf(s[1..], x)
  }

  /** `list_del` of the entry for `x`, if there is one. */
  function Without<T(==,!new)>(s: seq<T>, x: T): (r: seq<T>)
    ensures NoDup(s) ==> NoDup(r) && forall y :: y in r <==> y in s && y != x
  {
    if x in s then
      var i := IndexOf(s, x);
      assert s == s[..i] + [x] + s[i + 1..];
      s[..i] + s[i + 1..]
    else s
  }

  // ---------------------------------------------------------------- release_event

  predicate Frees(ev: Event, registered: bool) {
    if registered then ev.assignedCount == 1 && ev.deprecated else ev.assignedCount == 0
  }

  function Release(events: map<Addr, Event>, e: Addr, registered: bool, deny: bool): map<Addr, Event>
    requires e in events
  {
    var ev := events[e].(deny := events[e].deny || deny);
    if Frees(events[e], registered) then events - {e}
    else if registered then events[e := ev.(assignedCount := ev.assignedCount - 1)]
    else events[e := ev.(deprecated := true)]
  }

  /** `__clear_group_event_list`: release every listed event once, from the front. */
  function ReleaseAll(events: map<Addr, Event>, l: seq<Addr>): (r: map<Addr, Event>)
    requires NoDup(l) && forall e | e in l :: e in events
    ensures r.Keys <= events.Keys
    ensures forall e | e in events && e !in l :: e in r && r[e] == events[e]
  {
    if l == [] then events
    else ReleaseAll(Release(events, l[0], true, false), l[1..])
  }

  /** While no opener has given up its event, clearing a list only lowers the listed counts. */
  lemma {:induction false} ReleaseAllLowersEachCount(events: map<Addr, Event>, l: seq<Addr>)
    requires NoDup(l) && forall e | e in l :: e in events && !events[e].deprecated
    ensures ReleaseAll(events, l)
         == map e | e in events :: if e in l then events[e].(assignedCount := events[e].assignedCount - 1) else events[e]
  {
    if l != [] {
      ReleaseAllLowersEachCount(Release(events, l[0], true, false), l[1..]);
    }
  }

  // ---------------------------------------------------------------- __remove_group

  function RemoveGroup(k: State, a: Addr): State
    requires a in k.groups && QueuesOk(k.groups, k.events)
  {
    var g := k.groups[a];
    k.(groups := k.groups[a := g.(deprecated := true, todo := [], working := [])],
       count := k.count - 1,
       events := ReleaseAll(ReleaseAll(k.events, g.working), g.todo))
  }

  /** Removing a group answers each of its events exactly once. */
  lemma RemoveGroupEffect(k: State, a: Addr)
    requires a in k.groups && QueuesOk(k.groups, k.events)
    requires forall e | e in k.events && k.groups[a].Holds(e) :: !k.events[e].deprecated
    ensures RemoveGroup(k, a).events
         == map e | e in k.events ::
              if k.groups[a].Holds(e) then k.events[e].(assignedCount := k.events[e].assignedCount - 1) else k.events[e]
  {
    hide ReleaseAll;
    var g := k.groups[a];
    ReleaseAllLowersEachCount(k.events, g.working);
    ReleaseAllLowersEachCount(ReleaseAll(k.events, g.working), g.todo);
  }

  function FindByName(list: seq<Addr>, groups: map<Addr, Group>, name: string): (r: Option<Addr>)
    requires forall a | a in list :: a in groups
    ensures r.Some? ==> r.value in list && !groups[r.value].deprecated && groups[r.value].name == name
    ensures r.None? ==> forall a | a in list :: groups[a].deprecated || groups[a].name != name
  {
    if list == [] then None
    else if !groups[list[0]].deprecated && groups[list[0]].name == name then Some(list[0])
    else FindByName(list[1..], groups, name)
  }

  function FindById(list: seq<Addr>, groups: map<Addr, Group>, id: nat): (r: Option<Addr>)
    requires forall a | a in list :: a in groups
    ensures r.Some? ==> r.value in list && !groups[r.value].deprecated && groups[r.value].id == id
    ensures r.None? ==> forall a | a in list :: groups[a].deprecated || groups[a].id != id
  {
    if list == [] then None
    else if !groups[list[0]].deprecated && groups[list[0]].id == id then Some(list[0])
    else FindById(list[1..], groups, id)
  }

  // ---------------------------------------------------------------- __check_for_group

  datatype Check = Exists | Taken | Free

  /** One walk of the list. Removed groups nobody uses are freed on the way, up to the entry
      where the walk stops. */
  function CheckForGroup(list: seq<Addr>, groups: map<Addr, Group>, name: string, id: nat, track: bool)
    : (r: (seq<Addr>, map<Addr, Group>, Check))
    requires NoDup(list) && forall a | a in list :: a in groups
  {
    if list == [] then ([], groups, Free)
    else
      var a, g := list[0], groups[list[0]];
      if g.deprecated && g.useCount == 0 then CheckForGroup(list[1..], groups - {a}, name, id, track)
      else if g.deprecated then
        var (l, gs, c) := CheckForGroup(list[1..], groups, name, id, track);
        ([a] + l, gs, c)
      else if g.name == name then
        (list, if track then groups[a := g.(tracking := true)] else groups, Exists)
      else if g.id == id then (list, groups, Taken)
      else
        var (l, gs, c) := CheckForGroup(list[1..], groups, name, id, track);
        ([a] + l, gs, c)
  }

  /** Everything a walk may do to the groups: free removed, unused ones and switch tracking on for
      the group called `name`. */
  ghost predicate Tidied(list: seq<Addr>, groups: map<Addr, Group>, list': seq<Addr>, groups': map<Addr, Group>,
                   name: string, track: bool)
  {
    && NoDup(list')
    && (forall a :: a in list' <==> a in list && a in groups')
    && groups'.Keys <= groups.Keys
    && (forall a | a in groups && a !in groups' :: a in list && groups[a].deprecated && groups[a].useCount == 0)
    && (forall a | a in groups' ::
          || groups'[a] == groups[a]
          || (track && !groups[a].deprecated && groups[a].name == name && groups'[a] == groups[a].(tracking := true)))
  }

  lemma {:induction false} CheckForGroupTidies(list: seq<Addr>, groups: map<Addr, Group>, name: string, id: nat, track: bool)
    requires NoDup(list) && forall a | a in list :: a in groups
    ensures var (l, gs, c) := CheckForGroup(list, groups, name, id, track);
      && Tidied(list, groups, l, gs, name, track)
      && (c == Exists ==> exists a :: a in list && !groups[a].deprecated && groups[a].name == name
                                  && gs[a].tracking == (groups[a].tracking || track))
      && (c == Taken ==> exists a :: a in list && !groups[a].deprecated && groups[a].id == id
                                  && groups[a].name != name)
      && (c == Free ==> forall a | a in list :: groups[a].deprecated || (groups[a].name != name && groups[a].id != id))
      && (c != Exists ==> forall a | a in gs :: gs[a] == groups[a])
  {
    if list != [] {
      var a, g := list[0], groups[list[0]];
      assert list == [a] + list[1..];
      if g.deprecated && g.useCount == 0 {
        CheckForGroupTidies(list[1..], groups - {a}, name, id, track);
      } else if g.deprecated || (g.name != name && g.id != id) {
        CheckForGroupTidies(list[1..], groups, name, id, track);
      }
    }
  }

  // ---------------------------------------------------------------- the id loop of dazukofs_add_group

  /** `id` is None when the group already exists; `scans` counts the walks of the list. */
  datatype Choice = Choice(list: seq<Addr>, groups: map<Addr, Group>, id: Option<nat>, scans: nat)

  function Above(groups: map<Addr, Group>, id: nat): set<Addr> {
    set a | a in Active(groups) && groups[a].id >= id
  }

  lemma TakenIdShrinksAbove(groups: map<Addr, Group>, groups': map<Addr, Group>, id: nat, a: Addr)
    requires Active(groups') == Active(groups) && forall b | b in groups' :: b in groups && groups'[b] == groups[b]
    requires a in Active(groups) && groups[a].id == id
    ensures Above(groups', id + 1) < Above(groups, id)
    ensures |Above(groups', id + 1)| + 1 <= |Above(groups, id)|
  {
    assert a in Above(groups, id) && a !in Above(groups', id + 1);
    assert Above(groups', id + 1) <= Above(groups, id) - {a};
    SubsetSize(Above(groups', id + 1), Above(groups, id) - {a});
  }

  lemma {:induction false} SubsetSize<T>(a: set<T>, b: set<T>)
    requires a <= b
    ensures |a| <= |b|
  {
    if a != {} {
      var x :| x in a;
      SubsetSize(a - {x}, b - {x});
    }
  }

  function ChooseId(list: seq<Addr>, groups: map<Addr, Group>, name: string, track: bool, id: nat): Choice
    requires ListOk(list, groups)
    decreases |Above(groups, id)|
  {
    var (l, gs, c) := CheckForGroup(list, groups, name, id, track);
    CheckForGroupTidies(list, groups, name, id, track);
    match c
    case Exists => Choice(l, gs, None, 1)
    case Free => Choice(l, gs, Some(id), 1)
    case Taken =>
      assert |Above(gs, id + 1)| < |Above(groups, id)| by {
        var a :| a in list && !groups[a].deprecated && groups[a].id == id;
        assert Active(gs) == Active(groups);
        TakenIdShrinksAbove(groups, gs, id, a);
      }
      var r := ChooseId(l, gs, name, track, id + 1);
      r.(scans := r.scans + 1)
  }

  ghost predicate NameInUse(groups: map<Addr, Group>, name: string) {
    exists a :: a in Active(groups) && groups[a].name == name
  }

  ghost predicate IdInUse(groups: map<Addr, Group>, id: nat) {
    exists a :: a in Active(groups) && groups[a].id == id
  }

  lemma TidiedTwice(l0: seq<Addr>, g0: map<Addr, Group>, l1: seq<Addr>, g1: map<Addr, Group>,
                    l2: seq<Addr>, g2: map<Addr, Group>, name: string, track: bool)
    requires Tidied(l0, g0, l1, g1, name, track) && Tidied(l1, g1, l2, g2, name, track)
    requires forall a | a in g1 :: g1[a] == g0[a]
    ensures Tidied(l0, g0, l2, g2, name, track)
  {
  }

  lemma TidyingKeepsUse(l: seq<Addr>, groups: map<Addr, Group>, l': seq<Addr>, groups': map<Addr, Group>, name: string, track: bool)
    requires Tidied(l, groups, l', groups', name, track) && forall a | a in groups' :: groups'[a] == groups[a]
    ensures Active(groups') == Active(groups)
    ensures forall j :: IdInUse(groups', j) <==> IdInUse(groups, j)
    ensures forall n :: NameInUse(groups', n) <==> NameInUse(groups, n)
  {
  }

  /** What the loop of `dazukofs_add_group` promises about its outcome. */
  ghost predicate ChoiceOk(list: seq<Addr>, groups: map<Addr, Group>, name: string, track: bool, id: nat, r: Choice) {
    && Tidied(list, groups, r.list, r.groups, name, track)
    && (r.id.None? <==> NameInUse(groups, name))
    && (r.id.None? ==> exists a :: a in r.groups && a in Active(groups) && groups[a].name == name
                                && r.groups[a] == groups[a].(tracking := groups[a].tracking || track))
    && (r.id.Some? ==>
          && id <= r.id.value && !IdInUse(groups, r.id.value)
          && (forall j | id <= j < r.id.value :: IdInUse(groups, j))
          && (forall a | a in r.groups :: r.groups[a] == groups[a])
          && r.scans == r.id.value - id + 1)
    && r.scans <= |Above(groups, id)| + 1
  }

  /** The loop ends after at most one walk more than there are active groups, says "exists" exactly
      for names in use, and otherwise yields the least id that is not in use. */
  lemma {:induction false} ChooseIdIsLeastFree(list: seq<Addr>, groups: map<Addr, Group>, name: string, track: bool, id: nat)
    requires ListOk(list, groups)
    ensures ChoiceOk(list, groups, name, track, id, ChooseId(list, groups, name, track, id))
    decreases |Above(groups, id)|
  {
    var (l, gs, c) := CheckForGroup(list, groups, name, id, track);
    CheckForGroupTidies(list, groups, name, id, track);
    if c == Exists {
      var a :| a in list && !groups[a].deprecated && groups[a].name == name && gs[a].tracking == (groups[a].tracking || track);
      assert a in Active(groups);
    } else if c == Free {
      assert !NameInUse(groups, name) && !IdInUse(groups, id);
    } else {
      ChooseIdRetry(list, groups, name, track, id);
    }
  }

  /** A walk that finds the id taken changes nothing but the removed groups, and is followed by a
      walk for the next id. */
  lemma TakenMeansRetry(list: seq<Addr>, groups: map<Addr, Group>, name: string, track: bool, id: nat)
    requires ListOk(list, groups) && CheckForGroup(list, groups, name, id, track).2 == Taken
    ensures var (l, gs, c) := CheckForGroup(list, groups, name, id, track);
      && ListOk(l, gs) && Active(gs) == Active(groups) && Tidied(list, groups, l, gs, name, track)
      && (forall a | a in gs :: a in groups && gs[a] == groups[a])
      && ChooseId(list, groups, name, track, id)
      == ChooseId(l, gs, name, track, id + 1).(scans := ChooseId(l, gs, name, track, id + 1).scans + 1)
      && IdInUse(groups, id) && |Above(gs, id + 1)| + 1 <= |Above(groups, id)|
  {
    var (l, gs, c) := CheckForGroup(list, groups, name, id, track);
    CheckForGroupTidies(list, groups, name, id, track);
    assert Active(gs) == Active(groups);
    var a :| a in list && !groups[a].deprecated && groups[a].id == id;
    assert a in Active(groups);
    TakenIdShrinksAbove(groups, gs, id, a);
  }

  lemma {:induction false} ChooseIdRetry(list: seq<Addr>, groups: map<Addr, Group>, name: string, track: bool, id: nat)
    requires ListOk(list, groups) && CheckForGroup(list, groups, name, id, track).2 == Taken
    ensures ChoiceOk(list, groups, name, track, id, ChooseId(list, groups, name, track, id))
    decreases |Above(groups, id)|, 0
  {
    assert NoDup(list) && forall a | a in list :: a in groups;
    hide ChooseId, CheckForGroup, ListOk, NoDup, Active, Above, IdInUse, NameInUse;
    var (l, gs, c) := CheckForGroup(list, groups, name, id, track);
    TakenMeansRetry(list, groups, name, track, id);
    TidyingKeepsUse(list, groups, l, gs, name, track);
    ChooseIdIsLeastFree(l, gs, name, track, id + 1);
    var r := ChooseId(l, gs, name, track, id + 1);
    RetryKeepsChoice(groups, gs, name, track, id, l, r);
    TidiedTwice(list, groups, l, gs, r.list, r.groups, name, track);
    hide Tidied;
  }

  lemma RetryKeepsChoice(groups: map<Addr, Group>, gs: map<Addr, Group>, name: string, track: bool, id: nat,
                         l: seq<Addr>, r: Choice)
    requires ChoiceOk(l, gs, name, track, id + 1, r)
    requires forall a | a in gs :: a in groups && gs[a] == groups[a]
    requires Active(gs) == Active(groups) && IdInUse(groups, id)
    requires forall j :: IdInUse(gs, j) <==> IdInUse(groups, j)
    requires forall n :: NameInUse(gs, n) <==> NameInUse(groups, n)
    ensures r.id.None? <==> NameInUse(groups, name)
    ensures r.id.None? ==> exists a :: a in r.groups && a in Active(groups) && groups[a].name == name
                                && r.groups[a] == groups[a].(tracking := groups[a].tracking || track)
    ensures r.id.Some? ==>
          && id <= r.id.value && !IdInUse(groups, r.id.value)
          && (forall j | id <= j < r.id.value :: IdInUse(groups, j))
          && (forall a | a in r.groups :: r.groups[a] == groups[a])
  {
  }

  // ---------------------------------------------------------------- the other critical sections

  /** `list_add_tail` of a newly created group. */
  function LinkGroup(k: State, a: Addr, name: string, id: nat, track: bool): State {
    k.(list := k.list + [a], groups := k.groups[a := Group(name, id, track, 0, 0, false, [], [])])
  }

  /** `dazukofs_add_group` as one step. */
  function AddGroup(k: State, a: Addr, name: string, track: bool): (State, bool)
    requires ListOk(k.list, k.groups)
  {
    var c := ChooseId(k.list, k.groups, name, track, 0);
    var k1 := k.(list := c.list, groups := c.groups);
    if c.id == None then (k1, true)
    else if k1.count == GROUP_COUNT then (k1, false)
    else
      var k2 := LinkGroup(k1, a, name, c.id.value, track);
      (k2.(count := k2.count + 1), true)
  }

  function RemoveByName(k: State, name: string): State
    requires Wf(k)
  {
    match FindByName(k.list, k.groups, name)
    case Some(a) => RemoveGroup(k, a)
    case None => k
  }

  /** `last_event_id++` on a 32-bit int. */
  function NextId(n: int): int { if n == 0x7fff_ffff then -0x8000_0000 else n + 1 }

  /** An int stored into an unsigned long. */
  function AsUnsignedLong(n: int): nat
    requires -0x8000_0000 <= n < 0x8000_0000
  {
    if n < 0 then n + 0x1_0000_0000_0000_0000 else n
  }

  function Post(k: State, e: Addr): State
    requires e in k.events && -0x8000_0000 <= k.lastId < 0x8000_0000
  {
    var n := NextId(k.lastId);
    var ev := k.events[e];
    k.(lastId := n,
       events := k.events[e := ev.(id := AsUnsignedLong(n), assignedCount := ev.assignedCount + |Active(k.groups)|)],
       groups := map a | a in k.groups ::
                   if k.groups[a].deprecated then k.groups[a] else k.groups[a].(todo := k.groups[a].todo + [e]))
  }

  function Claim(k: State, a: Addr): (State, Option<Addr>)
    requires a in k.groups
  {
    var g := k.groups[a];
    if g.todo == [] then (k, None)
    else (k.(groups := k.groups[a := g.(todo := g.todo[1..], working := [g.todo[0]] + g.working)]), Some(g.todo[0]))
  }

  function Unclaim(k: State, a: Addr, e: Addr): State
    requires a in k.groups
  {
    var g := k.groups[a];
    k.(groups := k.groups[a := g.(todo := [e] + Without(g.todo, e), working := Without(g.working, e))])
  }

  /** Handing an event back after a failed open leaves both lists as they were. */
  lemma ClaimThenUnclaimIsIdentity(k: State, a: Addr)
    requires Wf(k) && a in k.groups && k.groups[a].todo != []
    ensures var (k1, e) := Claim(k, a);
      e == Some(k.groups[a].todo[0]) && Unclaim(k1, a, e.value) == k
  {
    var g := k.groups[a];
    var e := g.todo[0];
    var g1 := Claim(k, a).0.groups[a];
    assert e in g.todo && e !in g.todo[1..] && e !in g.working;
    assert IndexOf(g1.working, e) == 0;
    assert [e] + g.todo[1..] == g.todo;
    assert ([e] + g.working)[1..] == g.working;
    assert Unclaim(Claim(k, a).0, a, e).groups[a] == g;
    assert Unclaim(Claim(k, a).0, a, e).groups == k.groups;
  }

  function AddUse(k: State, a: Addr, n: int): State
    requires a in k.groups
  {
    k.(groups := k.groups[a := k.groups[a].(useCount := k.groups[a].useCount + n)])
  }

  /** How `dazukofs_get_event`, `dazukofs_poll` and `dazukofs_return_event` take hold of a group. */
  function Enter(k: State, id: nat): (State, Option<Addr>)
    requires ListOk(k.list, k.groups)
  {
    match FindById(k.list, k.groups, id)
    case Some(a) => (AddUse(k, a, 1), Some(a))
    case None => (k, None)
  }

  function FindEvent(working: seq<Addr>, events: map<Addr, Event>, id: nat): (r: Option<Addr>)
    requires forall e | e in working :: e in events
    ensures r.Some? ==> r.value in working && events[r.value].id == id
    ensures r.None? ==> forall e | e in working :: events[e].id != id
  {
    if working == [] then None
    else if events[working[0]].id == id then Some(working[0])
    else FindEvent(working[1..], events, id)
  }

  datatype Returned = NoGroup | NoEvent(a: Addr) | Reposting(a: Addr, e: Addr) | Answering(a: Addr, e: Addr, deny: bool)

  /** The group found, its use count taken and the answered event unlinked. */
  function Answer(g: Group, e: Addr): Group {
    g.(useCount := g.useCount + 1, working := Without(g.working, e))
  }

  /** The critical section of `dazukofs_return_event`. */
  function ReturnEvent(k: State, gid: nat, id: nat, response: Response): (State, Returned)
    requires Wf(k)
  {
    match FindById(k.list, k.groups, gid)
    case None => (k, NoGroup)
    case Some(a) =>
      match FindEvent(k.groups[a].working, k.events, id)
      case None => (AddUse(k, a, 1), NoEvent(a))
      case Some(e) =>
        if response == REPOST then (AddUse(k, a, 1), Reposting(a, e))
        else (k.(groups := k.groups[a := Answer(k.groups[a], e)]), Answering(a, e, response == DENY))
  }

  function OpenTracking(k: State, gid: nat): (State, Option<Addr>)
    requires ListOk(k.list, k.groups)
  {
    match FindById(k.list, k.groups, gid)
    case None => (k, None)
    case Some(a) =>
      var g := k.groups[a];
      if !g.tracking then (k, None)
      else (k.(groups := k.groups[a := g.(useCount := g.useCount + 1, trackCount := g.trackCount + 1)]), Some(a))
  }

  function CloseTracking(k: State, gid: nat): State
    requires Wf(k)
  {
    match FindById(k.list, k.groups, gid)
    case None => k
    case Some(a) =>
      var g := k.groups[a];
      if !g.tracking then k
      else
        var k1 := k.(groups := k.groups[a := g.(useCount := g.useCount - 1, trackCount := g.trackCount - 1)]);
        if g.trackCount == 1 then RemoveGroup(k1, a) else k1
  }
}
