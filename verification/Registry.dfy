/** The group list, with its removed entries and their piecemeal reclaiming, is a map from names.
    `Registry` forgets everything else; each operation is shown to do to the map what its name says. */
module Registry {
  import opened Kernel
  import opened KeepsLists
  import opened KeepsCounts

  datatype Info = Info(id: nat, tracking: bool, trackers: int, todo: seq<Addr>, working: seq<Addr>)

  function InfoOf(g: Group): Info { Info(g.id, g.tracking, g.trackCount, g.todo, g.working) }

  ghost function NameMap(groups: map<Addr, Group>): map<string, Info>
    requires NamesDistinct(groups)
  {
    map a | a in Active(groups) :: groups[a].name := InfoOf(groups[a])
  }

  lemma Lookup(groups: map<Addr, Group>, a: Addr)
    requires NamesDistinct(groups) && a in Active(groups)
    ensures groups[a].name in NameMap(groups) && NameMap(groups)[groups[a].name] == InfoOf(groups[a])
  {}

  lemma Named(groups: map<Addr, Group>, n: string) returns (a: Addr)
    requires NamesDistinct(groups) && n in NameMap(groups)
    ensures a in Active(groups) && groups[a].name == n && NameMap(groups)[n] == InfoOf(groups[a])
  {
    a :| a in Active(groups) && groups[a].name == n;
  }

  /** `r` is the registry when it has the entry of every active group and no other. */
  lemma IsRegistry(groups: map<Addr, Group>, r: map<string, Info>)
    requires NamesDistinct(groups)
    requires forall a | a in Active(groups) :: groups[a].name in r && r[groups[a].name] == InfoOf(groups[a])
    requires forall n | n in r :: exists a :: a in Active(groups) && groups[a].name == n
    ensures NameMap(groups) == r
  {
  }

  /** Registries agree when their active groups do, entry by entry. */
  lemma SameRegistry(groups: map<Addr, Group>, groups': map<Addr, Group>)
    requires NamesDistinct(groups) && NamesDistinct(groups') && Active(groups') == Active(groups)
    requires forall a | a in Active(groups) :: groups'[a].name == groups[a].name && InfoOf(groups'[a]) == InfoOf(groups[a])
    ensures NameMap(groups') == NameMap(groups)
  {
  }

  /** An update of one active group is an update of one entry. */
  lemma OneEntry(groups: map<Addr, Group>, a: Addr, g: Group)
    requires NamesDistinct(groups) && a in Active(groups) && g.name == groups[a].name && !g.deprecated
    ensures NamesDistinct(groups[a := g])
    ensures NameMap(groups[a := g]) == NameMap(groups)[g.name := InfoOf(g)]
  {
    var groups' := groups[a := g];
    assert Active(groups') == Active(groups);
    assert NamesDistinct(groups');
    var r := NameMap(groups)[g.name := InfoOf(g)];
    forall b | b in Active(groups') && b != a ensures groups[b].name != g.name && groups'[b] == groups[b] {}
    hide NameMap, NamesDistinct, InfoOf, Active;
    forall b | b in Active(groups') ensures groups'[b].name in r && r[groups'[b].name] == InfoOf(groups'[b]) {
      Lookup(groups, b);
    }
    forall n | n in r ensures exists b :: b in Active(groups') && groups'[b].name == n {
      if n == g.name { assert a in Active(groups') && groups'[a].name == n; } else {
        var b := Named(groups, n);
        assert b in Active(groups') && groups'[b].name == n;
      }
    }
    IsRegistry(groups', r);
  }

  /** Scanning for an id frees removed groups unseen; at most it switches tracking on for the name. */
  lemma ScanIsTrack(k: State, name: string, track: bool)
    requires Wf(k)
    ensures var c := ChooseId(k.list, k.groups, name, track, 0); var r := NameMap(k.groups);
      && NamesDistinct(c.groups)
      && (c.id.None? <==> name in r)
      && NameMap(c.groups) == (if name in r && track then r[name := r[name].(tracking := true)] else r)
      && (c.id.Some? ==> forall n | n in r :: r[n].id != c.id.value)
  {
    ScanKeeps(k, name, track);
    ChooseIdIsLeastFree(k.list, k.groups, name, track, 0);
    NameKnown(k.groups, name);
    hide Wf, NameMap, ChooseId;
    var c := ChooseId(k.list, k.groups, name, track, 0);
    if c.id.None? {
      ScanHit(k, name, track, c);
    } else {
      SameRegistry(k.groups, c.groups);
      forall n | n in NameMap(k.groups) ensures NameMap(k.groups)[n].id != c.id.value {
        var a := Named(k.groups, n);
        assert !IdInUse(k.groups, c.id.value);
      }
    }
  }

  lemma NameKnown(groups: map<Addr, Group>, name: string)
    requires NamesDistinct(groups)
    ensures name in NameMap(groups) <==> NameInUse(groups, name)
  {
  }

  lemma ScanHit(k: State, name: string, track: bool, c: Choice)
    requires Wf(k) && ChoiceOk(k.list, k.groups, name, track, 0, c) && c.id.None? && NamesDistinct(c.groups)
    ensures name in NameMap(k.groups)
    ensures NameMap(c.groups) == if track then NameMap(k.groups)[name := NameMap(k.groups)[name].(tracking := true)] else NameMap(k.groups)
  {
    hide NameMap, Wf, NamesDistinct;
    var a :| a in c.groups && a in Active(k.groups) && k.groups[a].name == name
             && c.groups[a] == k.groups[a].(tracking := k.groups[a].tracking || track);
    TrackedOnly(k, name, track, a, c);
    hide ChoiceOk, Tidied;
    WfNames(k);
    HitEntry(k.groups, a, c.groups, track);
  }

  lemma WfNames(k: State)
    requires Wf(k)
    ensures NamesDistinct(k.groups)
  {}

  lemma HitEntry(groups: map<Addr, Group>, a: Addr, groups': map<Addr, Group>, track: bool)
    requires NamesDistinct(groups) && NamesDistinct(groups') && a in Active(groups) && a in groups'
    requires groups'[a] == groups[a].(tracking := groups[a].tracking || track)
    requires Active(groups') == Active(groups[a := groups'[a]]) == Active(groups)
    requires forall b | b in Active(groups) :: groups'[b] == groups[a := groups'[a]][b]
    ensures var r := NameMap(groups); var n := groups[a].name;
      n in r && NameMap(groups') == if track then r[n := r[n].(tracking := true)] else r
  {
    hide NameMap, NamesDistinct;
    Lookup(groups, a);
    OneEntry(groups, a, groups'[a]);
    SameRegistry(groups[a := groups'[a]], groups');
    assert !track ==> groups[a := groups'[a]] == groups;
  }

  lemma TrackedOnly(k: State, name: string, track: bool, a: Addr, c: Choice)
    requires Wf(k) && Tidied(k.list, k.groups, c.list, c.groups, name, track)
    requires a in c.groups && a in Active(k.groups) && k.groups[a].name == name
    ensures Active(c.groups) == Active(k.groups[a := c.groups[a]]) == Active(k.groups)
    ensures forall b | b in Active(k.groups) :: c.groups[b] == k.groups[a := c.groups[a]][b]
  {
  }

  /** Linking the new group adds one entry. */
  lemma LinkIsInsert(k: State, a: Addr, name: string, id: nat, track: bool)
    requires Wf(k) && a !in k.groups && name !in NameMap(k.groups)
    requires forall n | n in NameMap(k.groups) :: NameMap(k.groups)[n].id != id
    ensures var k1 := LinkGroup(k, a, name, id, track);
      && Wf(k1) && NameMap(k1.groups) == NameMap(k.groups)[name := Info(id, track, 0, [], [])]
  {
    hide NameMap, NamesDistinct, InfoOf, QueuesOk, ListOk, IdsDistinct, LinkGroup;
    forall b | b in Active(k.groups) ensures k.groups[b].name != name && k.groups[b].id != id { LookupId(k.groups, b); }
    LinkKeeps(k, a, name, id, track);
    var k1 := LinkGroup(k, a, name, id, track);
    LinkedEntry(k, a, name, id, track);
    WithGroup(k.groups, a, k1.groups, Info(id, track, 0, [], []));
  }

  ghost predicate LeastFree(groups: map<Addr, Group>, id: nat) {
    !IdInUse(groups, id) && forall j | 0 <= j < id :: IdInUse(groups, j)
  }

  lemma ChosenIsLeast(k: State, name: string, track: bool)
    requires Wf(k)
    ensures var c := ChooseId(k.list, k.groups, name, track, 0);
      c.id.Some? ==> LeastFree(k.groups, c.id.value)
  {
    ChooseIdIsLeastFree(k.list, k.groups, name, track, 0);
  }

  function Scanned(k: State, c: Choice): State { k.(list := c.list, groups := c.groups) }

  lemma ScanOutcome(k: State, a: Addr, name: string, track: bool)
    requires Wf(k) && a !in k.groups
    ensures ListOk(k.list, k.groups)
    ensures var c := ChooseId(k.list, k.groups, name, track, 0);
      var r := NameMap(k.groups);
      && Wf(Scanned(k, c)) && Active(c.groups) == Active(k.groups) && a !in c.groups
      && (c.id == None <==> name in r)
      && NameMap(c.groups) == (if name in r && track then r[name := r[name].(tracking := true)] else r)
  {
    ScanIsTrack(k, name, track);
    ScanKeeps(k, name, track);
  }

  /** `add=` fails exactly when the name is new and the registry full, and then changes nothing.
      An existing name keeps its entry, switched to tracking if that is asked. */
  lemma AddIsTrack(k: State, a: Addr, name: string, track: bool)
    requires Wf(k) && a !in k.groups && k.count == |Active(k.groups)|
    ensures var (k1, ok) := AddGroup(k, a, name, track);
      var r := NameMap(k.groups);
      && (ok <==> name in r || k.count != GROUP_COUNT)
      && (name in r || !ok ==>
            && Wf(k1) && k1.count == |Active(k1.groups)|
            && NameMap(k1.groups) == if name in r && track then r[name := r[name].(tracking := true)] else r)
  {
    ScanOutcome(k, a, name, track);
    AddOutcome(k, a, name, track);
    hide *;
  }

  /** An addition is its scan, followed by the link if there is an id and room. */
  lemma AddOutcome(k: State, a: Addr, name: string, track: bool)
    requires ListOk(k.list, k.groups)
    ensures var c := ChooseId(k.list, k.groups, name, track, 0);
      var (k1, ok) := AddGroup(k, a, name, track);
      && (ok <==> c.id == None || k.count != GROUP_COUNT)
      && (c.id == None || !ok ==> k1 == Scanned(k, c) && k1.count == k.count && k1.groups == c.groups)
  {
    hide ListOk, ChooseId, LinkGroup;
  }

  /** A new name gets an empty entry under the least id not in use. */
  lemma AddIsInsert(k: State, a: Addr, name: string, track: bool)
    requires Wf(k) && a !in k.groups && k.count == |Active(k.groups)|
    requires name !in NameMap(k.groups) && k.count != GROUP_COUNT
    ensures var k1 := AddGroup(k, a, name, track).0;
      && Wf(k1) && k1.count == |Active(k1.groups)|
      && exists id: nat :: LeastFree(k.groups, id) && NameMap(k1.groups) == NameMap(k.groups)[name := Info(id, track, 0, [], [])]
  {
    hide ListOk, NameMap, Wf, ChooseId, LeastFree, Active, NamesDistinct, LinkGroup;
    ScanOutcome(k, a, name, track);
    ChosenIsLeast(k, name, track);
    ScanNew(k, name, track);
    var c := ChooseId(k.list, k.groups, name, track, 0);
    var k1 := Scanned(k, c);
    LinkIsInsert(k1, a, name, c.id.value, track);
    LinkedActive(k1, a, name, c.id.value, track);
    assert LeastFree(k.groups, c.id.value);
  }

  lemma ScanNew(k: State, name: string, track: bool)
    requires Wf(k) && name !in NameMap(k.groups)
    ensures var c := ChooseId(k.list, k.groups, name, track, 0);
      && NamesDistinct(c.groups) && c.id.Some? && NameMap(c.groups) == NameMap(k.groups)
      && forall n | n in NameMap(c.groups) :: NameMap(c.groups)[n].id != c.id.value
  {
    ScanIsTrack(k, name, track);
    hide NameMap, Wf, ChooseId;
  }

  lemma LinkedActive(k: State, a: Addr, name: string, id: nat, track: bool)
    requires a !in k.groups
    ensures |Active(LinkGroup(k, a, name, id, track).groups)| == |Active(k.groups)| + 1
    ensures LinkGroup(k, a, name, id, track).count == k.count
    ensures Wf(LinkGroup(k, a, name, id, track)) ==>
      Wf(LinkGroup(k, a, name, id, track).(count := LinkGroup(k, a, name, id, track).count + 1))
  {
    assert Active(LinkGroup(k, a, name, id, track).groups) == Active(k.groups) + {a};
  }

  lemma LookupId(groups: map<Addr, Group>, a: Addr)
    requires NamesDistinct(groups) && a in Active(groups)
    ensures groups[a].name in NameMap(groups) && NameMap(groups)[groups[a].name].id == groups[a].id
  {}

  lemma LinkedEntry(k: State, a: Addr, name: string, id: nat, track: bool)
    requires a !in k.groups
    ensures var gs := LinkGroup(k, a, name, id, track).groups;
      && a in gs && gs[a].name == name && InfoOf(gs[a]) == Info(id, track, 0, [], [])
      && forall b | b in k.groups :: b in gs && gs[b] == k.groups[b]
  {}

  lemma WithGroup(groups: map<Addr, Group>, a: Addr, groups': map<Addr, Group>, info: Info)
    requires NamesDistinct(groups) && NamesDistinct(groups') && a !in Active(groups)
    requires Active(groups') == Active(groups) + {a} && InfoOf(groups'[a]) == info
    requires forall b | b in Active(groups) :: groups'[b] == groups[b] && groups[b].name != groups'[a].name
    ensures NameMap(groups') == NameMap(groups)[groups'[a].name := info]
  {
    hide NameMap, NamesDistinct, InfoOf;
    var r := NameMap(groups)[groups'[a].name := info];
    forall b | b in Active(groups') ensures groups'[b].name in r && r[groups'[b].name] == InfoOf(groups'[b]) {
      if b != a { Lookup(groups, b); }
    }
    forall n | n in r ensures exists b :: b in Active(groups') && groups'[b].name == n {
      if n == groups'[a].name { assert a in Active(groups') && groups'[a].name == n; } else {
        var b := Named(groups, n);
        assert b in Active(groups') && groups'[b].name == n;
      }
    }
    IsRegistry(groups', r);
  }

  lemma WithoutGroup(groups: map<Addr, Group>, a: Addr, groups': map<Addr, Group>)
    requires NamesDistinct(groups) && NamesDistinct(groups') && a in Active(groups)
    requires Active(groups') == Active(groups) - {a} && forall b | b in Active(groups') :: groups'[b] == groups[b]
    ensures NameMap(groups') == NameMap(groups) - {groups[a].name}
  {
    var r := NameMap(groups) - {groups[a].name};
    forall b | b in Active(groups') ensures groups[b].name != groups[a].name {}
    hide NameMap, Active, NamesDistinct, InfoOf;
    forall b | b in Active(groups') ensures groups'[b].name in r && r[groups'[b].name] == InfoOf(groups'[b]) {
      Lookup(groups, b);
    }
    forall n | n in r ensures exists b :: b in Active(groups') && groups'[b].name == n {
      var b := Named(groups, n);
      assert b in Active(groups') && groups'[b].name == n;
    }
    IsRegistry(groups', r);
  }

  /** `del=` removes the entry of that name, if there is one, and nothing else. */
  lemma RemoveIsDelete(k: State, name: string)
    requires Wf(k) && forall e | e in k.events :: !k.events[e].deprecated
    ensures var k1 := RemoveByName(k, name);
      && Wf(k1) && NameMap(k1.groups) == NameMap(k.groups) - {name}
  {
    hide NameMap, NamesDistinct, QueuesOk, IdsDistinct;
    NameKnown(k.groups, name);
    var found := FindByName(k.list, k.groups, name);
    if found.Some? {
      RemoveKeeps(k, found.value);
      RemovedEntries(k, found.value);
      hide RemoveGroup;
      WithoutGroup(k.groups, found.value, RemoveGroup(k, found.value).groups);
    } else {
      forall a | a in Active(k.groups) ensures k.groups[a].name != name { assert a in k.list; }
    }
  }

  lemma RemovedEntries(k: State, a: Addr)
    requires a in k.groups && QueuesOk(k.groups, k.events)
    ensures forall b | b in k.groups && b != a :: b in RemoveGroup(k, a).groups && RemoveGroup(k, a).groups[b] == k.groups[b]
  {}

  /** A lookup by id finds the one active group with that id, whatever removed groups share it. */
  lemma LookupIsUnique(k: State, id: nat, a: Addr)
    requires Wf(k)
    ensures FindById(k.list, k.groups, id) == Some(a) <==> a in Active(k.groups) && k.groups[a].id == id
  {
  }

  /** Posting appends the event to every todo list in the map. */
  lemma PostIsBroadcast(k: State, e: Addr)
    requires Wf(k) && e in k.events && -0x8000_0000 <= k.lastId < 0x8000_0000
    ensures NamesDistinct(Post(k, e).groups)
    ensures var r := NameMap(k.groups);
      NameMap(Post(k, e).groups) == map n | n in r :: r[n].(todo := r[n].todo + [e])
  {
    var k1 := Post(k, e);
    var r := NameMap(k.groups);
    var r' := map n | n in r :: r[n].(todo := r[n].todo + [e]);
    assert Active(k1.groups) == Active(k.groups);
    assert NamesDistinct(k1.groups);
    hide Wf, NameMap, NamesDistinct, ListOk, QueuesOk, IdsDistinct;
    forall a | a in Active(k1.groups) ensures k1.groups[a].name in r' && r'[k1.groups[a].name] == InfoOf(k1.groups[a]) {
      Lookup(k.groups, a);
    }
    forall n | n in r' ensures exists a :: a in Active(k1.groups) && k1.groups[a].name == n {
      var a := Named(k.groups, n);
      assert a in Active(k1.groups) && k1.groups[a].name == n;
    }
    IsRegistry(k1.groups, r');
  }
}
