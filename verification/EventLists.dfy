/** The operations of event.c carried out in place: lists, counters and flags updated statement by
    statement, with loops where the source walks a list. The two slab caches map an address to the
    object there, so a write through one pointer is seen through every other. Every method is
    proved to do to the whole state exactly what the function of the same name in `Kernel` says. */
module EventLists {
  import opened Kernel

  ghost predicate Releasable(entries: seq<Addr>, events: map<Addr, Event>) {
    NoDup(entries) && forall e | e in entries :: e in events
  }

  lemma QueuesOfOne(k: State, a: Addr)
    requires a in k.groups && QueuesOk(k.groups, k.events)
    ensures var g := k.groups[a];
      Releasable(g.working, k.events) && Releasable(g.todo, ReleaseAll(k.events, g.working))
  {
  }

  lemma RemovedParts(k: State, a: Addr, k1: State)
    requires a in k.groups && QueuesOk(k.groups, k.events)
    requires var g := k.groups[a];
      && Releasable(g.working, k.events) && Releasable(g.todo, ReleaseAll(k.events, g.working))
      && k1.events == ReleaseAll(ReleaseAll(k.events, g.working), g.todo)
      && k1.groups == k.groups[a := g.(deprecated := true)][a := g.(deprecated := true, working := [])]
                              [a := g.(deprecated := true, working := [], todo := [])]
      && k1.list == k.list && k1.count == k.count - 1 && k1.lastId == k.lastId
    ensures k1 == RemoveGroup(k, a)
  {
  }

  /** `r` is what remains to be said of a walk that has reached entry `i`. */
  ghost predicate Walked(r: (seq<Addr>, map<Addr, Group>, Check), list: seq<Addr>, i: nat, groups: map<Addr, Group>,
                         name: string, id: nat, track: bool)
  {
    && i <= |list| && NoDup(list) && (forall a | a in list :: a in groups)
    && var t := CheckForGroup(list[i..], groups, name, id, track);
      r == (list[..i] + t.0, t.1, t.2)
  }

  lemma WalkBegins(list: seq<Addr>, groups: map<Addr, Group>, name: string, id: nat, track: bool)
    requires ListOk(list, groups)
    ensures Walked(CheckForGroup(list, groups, name, id, track), list, 0, groups, name, id, track)
  {
    assert list[0..] == list && list[..0] == [];
    var l := CheckForGroup(list, groups, name, id, track).0;
    assert [] + l == l;
  }

  lemma WalkOn(r: (seq<Addr>, map<Addr, Group>, Check), list: seq<Addr>, i: nat, groups: map<Addr, Group>,
               name: string, id: nat, track: bool)
    requires i < |list| && Walked(r, list, i, groups, name, id, track)
    ensures var a := list[i];
      var g := groups[a];
      && (g.deprecated && g.useCount == 0 ==> Walked(r, list[..i] + list[i + 1..], i, groups - {a}, name, id, track))
      && (g.deprecated && g.useCount != 0 ==> Walked(r, list, i + 1, groups, name, id, track))
      && (!g.deprecated && g.name == name ==>
            r == (list, if track then groups[a := g.(tracking := true)] else groups, Exists))
      && (!g.deprecated && g.name != name && g.id == id ==> r == (list, groups, Taken))
      && (!g.deprecated && g.name != name && g.id != id ==> Walked(r, list, i + 1, groups, name, id, track))
  {
    var rest := list[i..];
    assert rest[0] == list[i] && rest[1..] == list[i + 1..] && list == list[..i] + rest;
    var l := CheckForGroup(rest[1..], groups, name, id, track).0;
    assert list[..i] + ([list[i]] + l) == list[..i + 1] + l;
    var without := list[..i] + list[i + 1..];
    assert without[i..] == rest[1..] && without[..i] == list[..i];
  }

  lemma WalkEnds(r: (seq<Addr>, map<Addr, Group>, Check), list: seq<Addr>, groups: map<Addr, Group>,
                 name: string, id: nat, track: bool)
    requires Walked(r, list, |list|, groups, name, id, track)
    ensures r == (list, groups, Free)
  {
    assert list[|list|..] == [] && list[..|list|] + [] == list;
  }

  ghost predicate SameChoice(r: Choice, s: Choice) {
    r.list == s.list && r.groups == s.groups && r.id == s.id
  }

  /** One turn of the retry loop. */
  lemma ChooseIdStep(list: seq<Addr>, groups: map<Addr, Group>, name: string, track: bool, id: nat)
    requires ListOk(list, groups)
    ensures var (l, gs, c) := CheckForGroup(list, groups, name, id, track);
      var r := ChooseId(list, groups, name, track, id);
      && ListOk(l, gs)
      && (c == Taken ==> SameChoice(r, ChooseId(l, gs, name, track, id + 1)) && |Above(gs, id + 1)| < |Above(groups, id)|)
      && (c != Taken ==> r.list == l && r.groups == gs && r.id == if c == Exists then None else Some(id))
  {
    var (l, gs, c) := CheckForGroup(list, groups, name, id, track);
    CheckForGroupTidies(list, groups, name, id, track);
    if c == Taken {
      var a :| a in list && !groups[a].deprecated && groups[a].id == id;
      assert Active(gs) == Active(groups);
      TakenIdShrinksAbove(groups, gs, id, a);
    }
  }

  /** The groups once the event is on the lists of those in `l`. */
  function Posted(groups: map<Addr, Group>, l: seq<Addr>, e: Addr): map<Addr, Group> {
    map a | a in groups :: if a in l && !groups[a].deprecated then groups[a].(todo := groups[a].todo + [e]) else groups[a]
  }

  lemma PostedBegins(list: seq<Addr>, groups: map<Addr, Group>, e: Addr)
    ensures ActiveIn(list[..0], groups) == {} && Posted(groups, list[..0], e) == groups
  {
  }

  lemma OneMoreActive(list: seq<Addr>, n: nat, groups: map<Addr, Group>)
    requires ListOk(list, groups) && n < |list|
    ensures list[n] !in ActiveIn(list[..n], groups)
    ensures ActiveIn(list[..n + 1], groups)
         == if groups[list[n]].deprecated then ActiveIn(list[..n], groups) else ActiveIn(list[..n], groups) + {list[n]}
    ensures ActiveIn(list[..n + 1], groups) <= Active(groups)
  {
  }

  lemma ActiveInGrows(list: seq<Addr>, n: nat, groups: map<Addr, Group>)
    requires ListOk(list, groups) && n < |list|
    ensures |ActiveIn(list[..n + 1], groups)| == |ActiveIn(list[..n], groups)| + (if groups[list[n]].deprecated then 0 else 1)
    ensures |ActiveIn(list[..n + 1], groups)| <= |Active(groups)|
  {
    OneMoreActive(list, n, groups);
    hide ActiveIn, Active;
    SubsetSize(ActiveIn(list[..n + 1], groups), Active(groups));
  }

  lemma PostedGrows(list: seq<Addr>, n: nat, groups: map<Addr, Group>, e: Addr)
    requires ListOk(list, groups) && n < |list|
    ensures var a := list[n];
      var g := groups[a];
      && a in Posted(groups, list[..n], e) && Posted(groups, list[..n], e)[a] == g
      && Posted(groups, list[..n + 1], e)
      == Posted(groups, list[..n], e)[a := if g.deprecated then g else g.(todo := g.todo + [e])]
  {
  }

  function CountedUp(events: map<Addr, Event>, e: Addr, n: nat): map<Addr, Event>
    requires e in events
  {
    events[e := events[e].(assignedCount := events[e].assignedCount + n)]
  }

  lemma CountedOnce(events: map<Addr, Event>, e: Addr, n: nat)
    requires e in events
    ensures CountedUp(events, e, 0) == events && e in CountedUp(events, e, n)
    ensures CountedUp(CountedUp(events, e, n), e, 1) == CountedUp(events, e, n + 1)
  {
  }

  ghost predicate Assigned(list: seq<Addr>, n: nat, groups: map<Addr, Group>, e: Addr, groups': map<Addr, Group>, i: nat) {
    n <= |list| && i == |ActiveIn(list[..n], groups)| && groups' == Posted(groups, list[..n], e)
  }

  lemma AssignedOn(list: seq<Addr>, n: nat, groups: map<Addr, Group>, e: Addr, groups': map<Addr, Group>, i: nat)
    requires ListOk(list, groups) && n < |list| && Assigned(list, n, groups, e, groups', i)
    ensures var a := list[n];
      && a in groups'
      && (groups'[a].deprecated ==> Assigned(list, n + 1, groups, e, groups', i))
      && (!groups'[a].deprecated ==>
            i < |Active(groups)|
            && Assigned(list, n + 1, groups, e, groups'[a := groups'[a].(todo := groups'[a].todo + [e])], i + 1))
  {
    ActiveInGrows(list, n, groups);
    PostedGrows(list, n, groups, e);
    hide ActiveIn, Active, Posted;
    assert groups'[list[n] := groups'[list[n]]] == groups';
  }

  lemma PostedEnds(k: State, e: Addr)
    requires ListOk(k.list, k.groups) && e in k.events && -0x8000_0000 <= k.lastId < 0x8000_0000
    ensures ActiveIn(k.list[..|k.list|], k.groups) == Active(k.groups)
    ensures Posted(k.groups, k.list[..|k.list|], e) == Post(k, e).groups
  {
  }

  /** Deleting the entry that a walk has stopped at is deleting that element. */
  lemma EntryIsWithout(s: seq<Addr>, i: nat)
    requires NoDup(s) && i < |s|
    ensures s[..i] + s[i + 1..] == Without(s, s[i])
  {
  }

  class EventModule {
    var groupList: seq<Addr>
    var groupCount: int
    var lastEventId: int
    var groups: map<Addr, Group>
    var events: map<Addr, Event>

    function Abs(): State
      reads this
    {
      State(groupList, groups, events, groupCount, lastEventId)
    }

    constructor ()
      ensures Abs() == State([], map[], map[], 0, 0)
    {
      groupList, groupCount, lastEventId, groups, events := [], 0, 0, map[], map[];
    }

    method ReleaseEvent(e: Addr, registered: bool, deny: bool)
      requires e in events
      modifies this`events
      ensures events == Release(old(events), e, registered, deny)
    {
      var free := false;
      if deny { events := events[e := events[e].(deny := true)]; }
      if registered {
        events := events[e := events[e].(assignedCount := events[e].assignedCount - 1)];
        if events[e].assignedCount == 0 && events[e].deprecated { free := true; }
      } else {
        if events[e].assignedCount == 0 { free := true; } else { events := events[e := events[e].(deprecated := true)]; }
      }
      if free { events := events - {e}; }
    }

    /** `__clear_group_event_list`: entries leave the front of the list one by one. */
    method ClearEventList(entries: seq<Addr>)
      requires Releasable(entries, events)
      modifies this`events
      ensures events == ReleaseAll(old(events), entries)
    {
      var left := entries;
      while left != []
        invariant Releasable(left, events)
        invariant ReleaseAll(events, left) == ReleaseAll(old(events), entries)
        decreases |left|
      {
        var e := left[0];
        left := left[1..];
        ReleaseEvent(e, true, false);
      }
    }

    method RemoveGroup(a: Addr)
      requires a in groups && QueuesOk(groups, events)
      modifies this`groupCount, this`groups, this`events
      ensures Abs() == Kernel.RemoveGroup(old(Abs()), a)
    {
      ghost var k := Abs();
      QueuesOfOne(k, a);
      hide QueuesOk, ReleaseAll, Releasable;
      groups := groups[a := groups[a].(deprecated := true)];
      groupCount := groupCount - 1;
      ClearEventList(groups[a].working);
      groups := groups[a := groups[a].(working := [])];
      ClearEventList(groups[a].todo);
      groups := groups[a := groups[a].(todo := [])];
      RemovedParts(k, a, Abs());
    }

    /** `dazukofs_remove_group`. */
    method RemoveByName(name: string)
      requires Wf(Abs())
      modifies this`groupCount, this`groups, this`events
      ensures Abs() == if old(groupCount) == 0 then old(Abs()) else Kernel.RemoveByName(old(Abs()), name)
    {
      if groupCount == 0 { return; }
      var i := 0;
      while i < |groupList|
        invariant i <= |groupList| && Abs() == old(Abs())
        invariant FindByName(groupList, groups, name) == FindByName(groupList[i..], groups, name)
      {
        var grp := groups[groupList[i]];
        if !grp.deprecated && grp.name == name {
          RemoveGroup(groupList[i]);
          return;
        }
        i := i + 1;
      }
    }

    /** The walk over `group_list` that every by-id operation begins with. */
    method FindGroup(id: nat) returns (r: Option<Addr>)
      requires forall a | a in groupList :: a in groups
      ensures r == FindById(groupList, groups, id)
    {
      var i := 0;
      while i < |groupList|
        invariant i <= |groupList|
        invariant FindById(groupList, groups, id) == FindById(groupList[i..], groups, id)
      {
        var grp := groups[groupList[i]];
        if !grp.deprecated && grp.id == id { return Some(groupList[i]); }
        i := i + 1;
      }
      r := None;
    }

    /** The opening of `dazukofs_get_event` and of `dazukofs_poll`: the group whose id the device has is
        held from here on, if there is one. */
    method Enter(gid: nat) returns (a: Option<Addr>)
      requires ListOk(groupList, groups)
      modifies this`groups
      ensures (Abs(), a) == Kernel.Enter(old(Abs()), gid)
    {
      a := FindGroup(gid);
      if a.Some? {
        groups := groups[a.value := groups[a.value].(useCount := groups[a.value].useCount + 1)];
        assert groups == Kernel.Enter(old(Abs()), gid).0.groups;
      }
    }

    /** `__check_for_group`: entries are unlinked and freed while the list is walked. */
    method CheckForGroup(name: string, id: nat, track: bool) returns (c: Check)
      requires ListOk(groupList, groups)
      modifies this`groupList, this`groups
      ensures (groupList, groups, c) == Kernel.CheckForGroup(old(groupList), old(groups), name, id, track)
    {
      hide Kernel.CheckForGroup;
      var i := 0;
      ghost var r := Kernel.CheckForGroup(groupList, groups, name, id, track);
      WalkBegins(groupList, groups, name, id, track);
      while i < |groupList|
        invariant Walked(r, groupList, i, groups, name, id, track)
        decreases |groupList| - i
      {
        var a := groupList[i];
        var grp := groups[a];
        WalkOn(r, groupList, i, groups, name, id, track);
        if grp.deprecated {
          if grp.useCount == 0 {
            groupList := groupList[..i] + groupList[i + 1..];
            groups := groups - {a};
          } else {
            i := i + 1;
          }
        } else if grp.name == name {
          if track { groups := groups[a := grp.(tracking := true)]; }
          return Exists;
        } else if grp.id == id {
          return Taken;
        } else {
          i := i + 1;
        }
      }
      WalkEnds(r, groupList, groups, name, id, track);
      c := Free;
    }

    /** The retry loop of `dazukofs_add_group`; no id means that the group exists. */
    method ChooseId(name: string, track: bool) returns (id: Option<nat>)
      requires ListOk(groupList, groups)
      modifies this`groupList, this`groups
      ensures ListOk(groupList, groups)
      ensures SameChoice(Choice(groupList, groups, id, 0), Kernel.ChooseId(old(groupList), old(groups), name, track, 0))
    {
      ghost var r := Kernel.ChooseId(groupList, groups, name, track, 0);
      var availableId := 0;
      ChooseIdStep(groupList, groups, name, track, availableId);
      var c := CheckForGroup(name, availableId, track);
      while c == Taken
        invariant ListOk(groupList, groups)
        invariant if c == Taken then
                    SameChoice(r, Kernel.ChooseId(groupList, groups, name, track, availableId + 1))
                  else
                    r.list == groupList && r.groups == groups && r.id == if c == Exists then None else Some(availableId)
        decreases if c == Taken then 1 + |Above(groups, availableId + 1)| else 0
      {
        availableId := availableId + 1;
        ChooseIdStep(groupList, groups, name, track, availableId);
        c := CheckForGroup(name, availableId, track);
      }
      id := if c == Exists then None else Some(availableId);
    }

    /** `dazukofs_add_group` when nothing comes between its critical sections; `a` is the address
        the allocator hands out. */
    method AddGroup(a: Addr, name: string, track: bool) returns (ok: bool)
      requires ListOk(groupList, groups)
      modifies this`groupList, this`groups, this`groupCount
      ensures (Abs(), ok) == Kernel.AddGroup(old(Abs()), a, name, track)
    {
      var id := ChooseId(name, track);
      if id == None { return true; }
      if groupCount == GROUP_COUNT { return false; }
      groups := groups[a := Group(name, id.value, track, 0, 0, false, [], [])];
      groupList := groupList + [a];
      groupCount := groupCount + 1;
      ok := true;
    }

    method AssignTo(a: Addr, e: Addr)
      requires a in groups && e in events
      modifies this`groups, this`events
      ensures groups == old(groups)[a := old(groups[a]).(todo := old(groups[a]).todo + [e])]
      ensures events == CountedUp(old(events), e, 1)
    {
      events := events[e := events[e].(assignedCount := events[e].assignedCount + 1)];
      groups := groups[a := groups[a].(todo := groups[a].todo + [e])];
    }

    /** The loop of `assign_event_to_groups`. The containers made earlier suffice for the active
        groups, and no element beyond those is touched. */
    method AssignToGroups(e: Addr, containers: array<Addr>) returns (i: nat)
      requires ListOk(groupList, groups) && e in events && |Active(groups)| <= containers.Length
      modifies this`groups, this`events, containers
      ensures Assigned(groupList, |groupList|, old(groups), e, groups, i)
      ensures events == CountedUp(old(events), e, i)
      ensures forall j | 0 <= j < containers.Length :: containers[j] == if j < i then e else old(containers[j])
    {
      i := 0;
      var n := 0;
      CountedOnce(events, e, 0);
      PostedBegins(groupList, groups, e);
      assert Assigned(groupList, 0, groups, e, groups, 0);
      hide Assigned, Active, ListOk, CountedUp;
      while n < |groupList|
        invariant n <= |groupList| && i <= containers.Length && Assigned(groupList, n, old(groups), e, groups, i)
        invariant e in events && events == CountedUp(old(events), e, i)
        invariant forall j | 0 <= j < containers.Length :: containers[j] == if j < i then e else old(containers[j])
      {
        i := AssignTurn(e, containers, n, old(groups), old(events), i);
        n := n + 1;
      }
    }

    /** One turn of that loop. */
    method AssignTurn(e: Addr, containers: array<Addr>, n: nat, ghost groups0: map<Addr, Group>, ghost events0: map<Addr, Event>,
                      i: nat) returns (i': nat)
      requires ListOk(groupList, groups0) && n < |groupList| && |Active(groups0)| <= containers.Length
      requires e in events0 && e in events && events == CountedUp(events0, e, i)
      requires Assigned(groupList, n, groups0, e, groups, i) && i <= containers.Length
      modifies this`groups, this`events, containers
      ensures Assigned(groupList, n + 1, groups0, e, groups, i')
      ensures e in events && events == CountedUp(events0, e, i')
      ensures i <= i' <= i + 1 && i' <= containers.Length
      ensures forall j | 0 <= j < containers.Length :: containers[j] == if i <= j < i' then e else old(containers[j])
    {
      AssignedOn(groupList, n, groups0, e, groups, i);
      CountedOnce(events0, e, i);
      hide Assigned, Active, ListOk, CountedUp;
      var a := groupList[n];
      i' := i;
      if !groups[a].deprecated {
        containers[i] := e;
        AssignTo(a, containers[i]);
        i' := i + 1;
      }
    }

    /** `assign_event_to_groups`. */
    method Post(e: Addr, containers: array<Addr>)
      requires ListOk(groupList, groups) && e in events && -0x8000_0000 <= lastEventId < 0x8000_0000
      requires |Active(groups)| <= containers.Length
      modifies this`lastEventId, this`groups, this`events, containers
      ensures Abs() == Kernel.Post(old(Abs()), e)
      ensures forall i | 0 <= i < containers.Length ::
                containers[i] == if i < |Active(old(groups))| then e else old(containers[i])
    {
      PostedEnds(Abs(), e);
      lastEventId := NextId(lastEventId);
      events := events[e := events[e].(id := AsUnsignedLong(lastEventId))];
      var n := AssignToGroups(e, containers);
      hide ListOk, Posted, ActiveIn, Active;
      assert events == Kernel.Post(old(Abs()), e).events;
    }

    /** `claim_event`. */
    method ClaimEvent(a: Addr) returns (e: Option<Addr>)
      requires a in groups
      modifies this`groups
      ensures (Abs(), e) == Claim(old(Abs()), a)
    {
      e := None;
      if groups[a].todo != [] {
        e := Some(groups[a].todo[0]);
        groups := groups[a := groups[a].(todo := groups[a].todo[1..])];
        groups := groups[a := groups[a].(working := [e.value] + groups[a].working)];
        assert groups == Claim(old(Abs()), a).0.groups;
      }
    }

    /** `unclaim_event`: the container leaves whichever list it is on. */
    method UnclaimEvent(a: Addr, e: Addr)
      requires a in groups
      modifies this`groups
      ensures Abs() == Unclaim(old(Abs()), a, e)
    {
      hide Without;
      groups := groups[a := groups[a].(todo := Without(groups[a].todo, e), working := Without(groups[a].working, e))];
      groups := groups[a := groups[a].(todo := [e] + groups[a].todo)];
      assert groups == Unclaim(old(Abs()), a, e).groups;
    }

    /** The walk over the working list; `i` is the length of the list when there is no such event. */
    method SearchWorking(working: seq<Addr>, id: nat) returns (i: nat)
      requires forall e | e in working :: e in events
      ensures i <= |working| && FindEvent(working, events, id) == if i < |working| then Some(working[i]) else None
    {
      i := 0;
      while i < |working|
        invariant i <= |working| && FindEvent(working, events, id) == FindEvent(working[i..], events, id)
      {
        if events[working[i]].id == id { return; }
        i := i + 1;
      }
    }

    /** Unlinking entry `i` of the working list. */
    method Unlink(a: Addr, i: nat)
      requires a in groups && NoDup(groups[a].working) && i < |groups[a].working|
      modifies this`groups
      ensures groups == old(groups)[a := old(groups[a]).(working := Without(old(groups[a]).working, old(groups[a]).working[i]))]
    {
      var working := groups[a].working;
      EntryIsWithout(working, i);
      groups := groups[a := groups[a].(working := working[..i] + working[i + 1..])];
    }

    /** `dazukofs_return_event` up to the point where `work_mutex` is dropped. */
    method ReturnEvent(gid: nat, id: nat, response: Response) returns (r: Returned)
      requires Wf(Abs())
      modifies this`groups
      ensures (Abs(), r) == Kernel.ReturnEvent(old(Abs()), gid, id, response)
    {
      hide FindById, FindEvent, Without;
      var found := FindGroup(gid);
      if found == None { return NoGroup; }
      var a := found.value;
      groups := groups[a := groups[a].(useCount := groups[a].useCount + 1)];
      assert groups == AddUse(old(Abs()), a, 1).groups;
      var working := groups[a].working;
      var i := SearchWorking(working, id);
      if i == |working| { return NoEvent(a); }
      if response == REPOST { return Reposting(a, working[i]); }
      Unlink(a, i);
      assert groups == old(groups)[a := Answer(old(groups)[a], working[i])];
      r := Answering(a, working[i], response == DENY);
    }

    /** `dazukofs_group_open_tracking`. */
    method OpenTracking(gid: nat) returns (a: Option<Addr>)
      requires ListOk(groupList, groups)
      modifies this`groups
      ensures (Abs(), a) == Kernel.OpenTracking(old(Abs()), gid)
    {
      a := FindGroup(gid);
      if a.Some? {
        if !groups[a.value].tracking { return None; }
        groups := groups[a.value := groups[a.value].(useCount := groups[a.value].useCount + 1)];
        groups := groups[a.value := groups[a.value].(trackCount := groups[a.value].trackCount + 1)];
        assert groups == Kernel.OpenTracking(old(Abs()), gid).0.groups;
      }
    }

    /** `dazukofs_group_release_tracking`. */
    method CloseTracking(gid: nat)
      requires Wf(Abs())
      modifies this`groups, this`groupCount, this`events
      ensures Abs() == Kernel.CloseTracking(old(Abs()), gid)
    {
      var found := FindGroup(gid);
      if found.Some? && groups[found.value].tracking {
        ghost var k := Abs();
        var a := found.value;
        hide Kernel.RemoveGroup;
        groups := groups[a := groups[a].(useCount := groups[a].useCount - 1)];
        groups := groups[a := groups[a].(trackCount := groups[a].trackCount - 1)];
        assert groups == k.groups[a := k.groups[a].(useCount := k.groups[a].useCount - 1, trackCount := k.groups[a].trackCount - 1)];
        if groups[a].trackCount == 0 { RemoveGroup(a); }
      }
    }
  }
}
