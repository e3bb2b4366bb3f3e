/** The lists, names and ids stay well formed under every critical section. */
module KeepsLists {
  import opened Kernel
  import opened Invariant

  /** Any update of one group that keeps its name, its id and its place keeps the rest. */
  lemma ReplaceGroup(k: State, a: Addr, g: Group)
    requires Wf(k) && a in k.groups
    requires g.name == k.groups[a].name && g.id == k.groups[a].id && g.deprecated == k.groups[a].deprecated
    requires g.deprecated ==> g.todo == [] && g.working == []
    requires NoDup(g.todo) && NoDup(g.working)
    requires forall e | e in g.todo :: e in k.events && e !in g.working
    requires forall e | e in g.working :: e in k.events
    ensures Wf(k.(groups := k.groups[a := g]))
    ensures Active(k.groups[a := g]) == Active(k.groups)
  {
  }

  lemma ClaimKeeps(k: State, a: Addr)
    requires Wf(k) && a in k.groups && k.groups[a].todo != []
    ensures Wf(Claim(k, a).0) && Active(Claim(k, a).0.groups) == Active(k.groups)
    ensures forall e :: Claim(k, a).0.groups[a].Holds(e) <==> k.groups[a].Holds(e)
  {
    var g := k.groups[a];
    assert g.todo[0] in g.todo && g.todo[0] !in g.todo[1..] && g.todo[0] !in g.working;
    assert g.todo == [g.todo[0]] + g.todo[1..];
    ReplaceGroup(k, a, Claim(k, a).0.groups[a]);
  }

  lemma UnclaimKeeps(k: State, a: Addr, e: Addr)
    requires Wf(k) && a in k.groups && k.groups[a].Holds(e)
    ensures Wf(Unclaim(k, a, e)) && Active(Unclaim(k, a, e).groups) == Active(k.groups)
    ensures forall f :: Unclaim(k, a, e).groups[a].Holds(f) <==> k.groups[a].Holds(f)
  {
    ReplaceGroup(k, a, Unclaim(k, a, e).groups[a]);
  }

  /** Unlinking an answered event. */
  lemma UnlinkKeeps(k: State, a: Addr, e: Addr, g: Group)
    requires Wf(k) && a in k.groups && e in k.groups[a].working
    requires g == k.groups[a].(useCount := g.useCount, working := Without(k.groups[a].working, e))
    ensures Wf(k.(groups := k.groups[a := g])) && Active(k.groups[a := g]) == Active(k.groups)
    ensures forall f :: g.Holds(f) <==> k.groups[a].Holds(f) && f != e
  {
  }

  lemma CountsKeep(k: State, a: Addr, g: Group)
    requires Wf(k) && a in k.groups
    requires g == k.groups[a].(useCount := g.useCount, trackCount := g.trackCount)
    ensures Wf(k.(groups := k.groups[a := g])) && Active(k.groups[a := g]) == Active(k.groups)
  {
  }

  lemma PostKeeps(k: State, e: Addr)
    requires Wf(k) && e in k.events && -0x8000_0000 <= k.lastId < 0x8000_0000
    requires forall a :: !Listed(k.groups, a, e)
    ensures Wf(Post(k, e)) && Active(Post(k, e).groups) == Active(k.groups)
    ensures forall a, f :: Listed(Post(k, e).groups, a, f) <==> Listed(k.groups, a, f) || (f == e && a in Active(k.groups))
  {
    var k1 := Post(k, e);
    assert Active(k1.groups) == Active(k.groups);
    forall a | a in k1.groups
      ensures NoDup(k1.groups[a].todo)
      ensures forall f | f in k1.groups[a].todo :: f in k1.events && f !in k1.groups[a].working
    {
      assert !Listed(k.groups, a, e);
    }
  }

  lemma LinkKeeps(k: State, a: Addr, name: string, id: nat, track: bool)
    requires Wf(k) && a !in k.groups
    requires forall b | b in Active(k.groups) :: k.groups[b].name != name && k.groups[b].id != id
    ensures Wf(LinkGroup(k, a, name, id, track))
    ensures Active(LinkGroup(k, a, name, id, track).groups) == Active(k.groups) + {a}
  {
    var k1 := LinkGroup(k, a, name, id, track);
    assert Active(k1.groups) == Active(k.groups) + {a};
    assert forall b :: b in k1.list <==> b in k.list || b == a;
  }

  lemma RemoveKeeps(k: State, a: Addr)
    requires Wf(k) && a in k.groups && !k.groups[a].deprecated
    requires forall e | e in k.events && k.groups[a].Holds(e) :: !k.events[e].deprecated
    ensures Wf(RemoveGroup(k, a)) && Active(RemoveGroup(k, a).groups) == Active(k.groups) - {a}
    ensures RemoveGroup(k, a).events.Keys == k.events.Keys
  {
    RemoveGroupEffect(k, a);
    assert Active(RemoveGroup(k, a).groups) == Active(k.groups) - {a};
  }

  lemma ScanKeeps(k: State, name: string, track: bool)
    requires Wf(k)
    ensures var c := ChooseId(k.list, k.groups, name, track, 0);
      && Wf(k.(list := c.list, groups := c.groups))
      && Active(c.groups) == Active(k.groups)
      && c.groups.Keys <= k.groups.Keys
      && forall a | a in c.groups :: c.groups[a] == k.groups[a].(tracking := c.groups[a].tracking)
  {
    ChooseIdIsLeastFree(k.list, k.groups, name, track, 0);
    var c := ChooseId(k.list, k.groups, name, track, 0);
    assert forall a | a in c.groups :: c.groups[a] == k.groups[a].(tracking := c.groups[a].tracking);
    assert Active(c.groups) == Active(k.groups);
  }

  lemma EventsKeep(k: State, events: map<Addr, Event>)
    requires Wf(k)
    requires forall a, e | e in k.events && Listed(k.groups, a, e) :: e in events
    ensures Wf(k.(events := events))
  {
    forall a | a in k.groups
      ensures forall e | e in k.groups[a].todo :: e in events
      ensures forall e | e in k.groups[a].working :: e in events
    {
      forall e | e in k.groups[a].todo || e in k.groups[a].working ensures e in events {
        assert e in k.events && Listed(k.groups, a, e);
      }
    }
  }
}
