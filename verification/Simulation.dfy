/** The map of `Registry` as a machine of its own, and every step of the protocol as one of its steps. */
module Simulation {
  import opened Kernel
  import opened Protocol
  import opened Invariant
  import opened KeepsLists
  import opened KeepsCounts
  import opened Preservation
  import opened Holding
  import opened Tracking
  import opened Registry
  import opened Groups

  /** What can happen to the map. */
  datatype Label =
    | Nothing
    | Broadcast(e: Addr)                                         // an event is posted
    | Track(name: string) | Insert(name: string, id: nat, track: bool) | Delete(name: string)
    | OpenId(id: nat) | CloseId(id: nat)                         // a device is opened, a tracked one closed
    | Take(name: string) | GiveBack(name: string, e: Addr)       // an event is claimed, or handed back
    | AnswerId(id: nat, event: nat, events: map<Addr, Event>)    // an event is answered by its id

  predicate HasId(r: map<string, Info>, n: string, id: nat) { n in r && r[n].id == id }

  /** The name under which an id is registered. */
  ghost function NameOf(r: map<string, Info>, id: nat): Option<string> {
    if exists n :: HasId(r, n, id) then
      var n :| HasId(r, n, id);
      Some(n)
    else None
  }

  function EventOf(working: seq<Addr>, events: map<Addr, Event>, id: nat): Option<Addr> {
    if forall e | e in working :: e in events then FindEvent(working, events, id) else None
  }

  function Taken(i: Info): Info {
    if i.todo == [] then i else i.(todo := i.todo[1..], working := [i.todo[0]] + i.working)
  }

  function GivenBack(i: Info, e: Addr): Info { i.(todo := [e] + Without(i.todo, e), working := Without(i.working, e)) }

  function Opened(i: Info): Info { if i.tracking then i.(trackers := i.trackers + 1) else i }

  function OpenedEntry(i: Info): Option<Info> { Some(Opened(i)) }

  /** None when the last tracked device is closed. */
  function Closed(i: Info): Option<Info> {
    if !i.tracking then Some(i) else if i.trackers == 1 then None else Some(i.(trackers := i.trackers - 1))
  }

  function Answered(i: Info, event: nat, events: map<Addr, Event>): Info {
    match EventOf(i.working, events, event)
    case None => i
    case Some(e) => i.(working := Without(i.working, e))
  }

  function AnswersId(event: nat, events: map<Addr, Event>): Info -> Option<Info> {
    i => Some(Answered(i, event, events))
  }

  function AtName(r: map<string, Info>, n: string, i: Option<Info>): map<string, Info> {
    if i.None? then r - {n} else r[n := i.value]
  }

  ghost function MapStep(r: map<string, Info>, l: Label): map<string, Info> {
    match l
    case Nothing => r
    case Broadcast(e) => map n | n in r :: r[n].(todo := r[n].todo + [e])
    case Track(name) => if name in r then r[name := r[name].(tracking := true)] else r
    case Insert(name, id, track) => r[name := Info(id, track, 0, [], [])]
    case Delete(name) => r - {name}
    case OpenId(id) => AtId(r, id, OpenedEntry)
    case CloseId(id) => AtId(r, id, Closed)
    case Take(name) => if name in r then AtName(r, name, Some(Taken(r[name]))) else r
    case GiveBack(name, e) => if name in r then AtName(r, name, Some(GivenBack(r[name], e))) else r
    case AnswerId(id, event, events) => AtId(r, id, AnswersId(event, events))
  }

  /** The entry with that id, if there is one, changed by `f`. */
  ghost function AtId(r: map<string, Info>, id: nat, f: Info -> Option<Info>): map<string, Info> {
    match NameOf(r, id)
    case None => r
    case Some(n) => if n in r then AtName(r, n, f(r[n])) else r
  }

  /** What a step of the protocol is for the map. */
  ghost function LabelOf(s: Sys, st: Step): Label
    requires Safe(s) && Enabled(s, st)
  {
    match st
    case AccessPost(t) => Broadcast(s.threads[t].e)
    case AddScan(t) => if s.threads[t].track then Track(s.threads[t].name) else Nothing
    case AddLink(t, a) => Insert(s.threads[t].name, s.threads[t].id, s.threads[t].track)
    case RemWork(t) => Delete(s.threads[t].name)
    case Open(h, gid) => OpenId(gid)
    case Close(h) => if s.handles[h].group.Some? then CloseId(s.handles[h].gid) else Nothing
    case ClaimEvent(t) => Take(s.k.groups[s.threads[t].a].name)
    case OpenFailed(t) => GiveBack(s.k.groups[s.threads[t].a].name, s.threads[t].e)
    case RetUnclaim(t) => GiveBack(s.k.groups[s.threads[t].a].name, s.threads[t].e)
    case Return(t, gid, id, response) => if response == REPOST then Nothing else AnswerId(gid, id, s.k.events)
    case _ => Nothing
  }

  /** An id is registered under the name of the active group that has it. */
  lemma NameOfGroup(k: State, id: nat)
    requires Wf(k)
    ensures var found := FindById(k.list, k.groups, id);
      && (found.None? ==> NameOf(NameMap(k.groups), id) == None)
      && (found.Some? ==> found.value in Active(k.groups)
                          && NameOf(NameMap(k.groups), id) == Some(k.groups[found.value].name)
                          && k.groups[found.value].name in NameMap(k.groups)
                          && NameMap(k.groups)[k.groups[found.value].name] == InfoOf(k.groups[found.value]))
  {
    FoundIsKnown(k, id);
    var r := NameMap(k.groups);
    var found := FindById(k.list, k.groups, id);
    if found.Some? { Lookup(k.groups, found.value); }
    forall n | HasId(r, n, id) ensures found.Some? && n == k.groups[found.value].name {
      var a := Named(k.groups, n);
      LookupIsUnique(k, id, a);
    }
    if found.Some? { assert HasId(r, k.groups[found.value].name, id); }
  }

  // ---------------------------------------------------------------- steps on one entry

  /** An update of one active group that keeps its name is the update of its entry. */
  lemma Entry(k: State, a: Addr, g: Group)
    requires Wf(k) && a in Active(k.groups) && g.name == k.groups[a].name && !g.deprecated
    ensures NamesDistinct(k.groups) && NamesDistinct(k.groups[a := g])
    ensures k.groups[a].name in NameMap(k.groups) && NameMap(k.groups)[k.groups[a].name] == InfoOf(k.groups[a])
    ensures NameMap(k.groups[a := g]) == NameMap(k.groups)[k.groups[a].name := InfoOf(g)]
  {
    Lookup(k.groups, a);
    OneEntry(k.groups, a, g);
  }

  lemma ClaimIsTake(k: State, a: Addr)
    requires Wf(k) && a in Active(k.groups) && k.groups[a].todo != []
    ensures var r, n := NameMap(k.groups), k.groups[a].name;
      n in r && NamesDistinct(Claim(k, a).0.groups) && NameMap(Claim(k, a).0.groups) == AtName(r, n, Some(Taken(r[n])))
  {
    ClaimedGroup(k, a);
    hide Wf, NameMap, NamesDistinct, Taken, Claim, InfoOf;
    Entry(k, a, Claim(k, a).0.groups[a]);
  }

  lemma ClaimedGroup(k: State, a: Addr)
    requires a in k.groups && !k.groups[a].deprecated && k.groups[a].todo != []
    ensures var k1 := Claim(k, a).0;
      && a in k1.groups && k1.groups == k.groups[a := k1.groups[a]]
      && k1.groups[a].name == k.groups[a].name && !k1.groups[a].deprecated
      && InfoOf(k1.groups[a]) == Taken(InfoOf(k.groups[a]))
  {
  }

  lemma UnclaimIsGiveBack(k: State, a: Addr, e: Addr)
    requires Wf(k) && a in Active(k.groups) && k.groups[a].Holds(e)
    ensures var r, n := NameMap(k.groups), k.groups[a].name;
      n in r && NamesDistinct(Unclaim(k, a, e).groups) && NameMap(Unclaim(k, a, e).groups) == AtName(r, n, Some(GivenBack(r[n], e)))
  {
    UnclaimedGroup(k, a, e);
    hide Wf, NameMap, NamesDistinct, GivenBack, Unclaim, InfoOf;
    Entry(k, a, Unclaim(k, a, e).groups[a]);
  }

  lemma UnclaimedGroup(k: State, a: Addr, e: Addr)
    requires a in k.groups && !k.groups[a].deprecated
    ensures var k1 := Unclaim(k, a, e);
      && a in k1.groups && k1.groups == k.groups[a := k1.groups[a]]
      && k1.groups[a].name == k.groups[a].name && !k1.groups[a].deprecated
      && InfoOf(k1.groups[a]) == GivenBack(InfoOf(k.groups[a]), e)
  {
    hide Without;
  }

  /** A change of the active group with that id is a change of the entry with that id. */
  lemma EntryAtId(k: State, id: nat, g1: Group, f: Info -> Option<Info>)
    requires Wf(k) && FindById(k.list, k.groups, id).Some?
    requires var a := FindById(k.list, k.groups, id).value;
      && a in k.groups && g1.name == k.groups[a].name
      && f(InfoOf(k.groups[a])) == if g1.deprecated then None else Some(InfoOf(g1))
    ensures var gs := k.groups[FindById(k.list, k.groups, id).value := g1];
      NamesDistinct(gs) && NameMap(gs) == AtId(NameMap(k.groups), id, f)
  {
    NameOfGroup(k, id);
    WfNames(k);
    hide NameMap, NamesDistinct, Wf, InfoOf, NameOf, FindById;
    var a := FindById(k.list, k.groups, id).value;
    if g1.deprecated { EntryGone(k.groups, a, g1); } else { OneEntry(k.groups, a, g1); }
  }

  lemma NoEntryAtId(k: State, id: nat, f: Info -> Option<Info>)
    requires Wf(k) && FindById(k.list, k.groups, id).None?
    ensures NamesDistinct(k.groups) && AtId(NameMap(k.groups), id, f) == NameMap(k.groups)
  {
    NameOfGroup(k, id);
    hide NameMap, NameOf;
  }

  /** Replying ALLOW or DENY answers the event of that id in the entry of the group's id. */
  lemma AnswerIsAnswer(k: State, gid: nat, id: nat, response: Response)
    requires Wf(k) && response != REPOST
    ensures var k1 := ReturnEvent(k, gid, id, response).0;
      NamesDistinct(k1.groups) && NameMap(k1.groups) == MapStep(NameMap(k.groups), AnswerId(gid, id, k.events))
  {
    var found := FindById(k.list, k.groups, gid);
    if found.Some? {
      AnswerHits(k, gid, id, response, found.value);
    } else {
      AnswerMisses(k, gid, id, response);
    }
    hide *;
  }

  lemma AnswerHits(k: State, gid: nat, id: nat, response: Response, a: Addr)
    requires Wf(k) && response != REPOST && FindById(k.list, k.groups, gid) == Some(a)
    ensures var k1 := ReturnEvent(k, gid, id, response).0;
      NamesDistinct(k1.groups) && NameMap(k1.groups) == MapStep(NameMap(k.groups), AnswerId(gid, id, k.events))
  {
    FoundIsKnown(k, gid);
    WorkingIsKnown(k, a);
    FoundIsActive(k, a);
    hide *;
    ReturnedGroup(k, gid, id, response, a);
    var f, g1 := AnswersId(id, k.events), ReturnEvent(k, gid, id, response).0.groups[a];
    AnswerStep(NameMap(k.groups), gid, id, k.events);
    AnswersIs(InfoOf(k.groups[a]), id, k.events);
    EntryAtId(k, gid, g1, f);
  }

  lemma FoundIsActive(k: State, a: Addr)
    ensures a in Active(k.groups) <==> a in k.groups && !k.groups[a].deprecated
  {
  }

  lemma AnswerStep(r: map<string, Info>, gid: nat, id: nat, events: map<Addr, Event>)
    ensures MapStep(r, AnswerId(gid, id, events)) == AtId(r, gid, AnswersId(id, events))
  {
    hide AtId, AnswersId;
  }

  lemma AnswersIs(i: Info, id: nat, events: map<Addr, Event>)
    ensures AnswersId(id, events)(i) == Some(Answered(i, id, events))
  {
    hide Answered;
  }

  lemma AnswerMisses(k: State, gid: nat, id: nat, response: Response)
    requires Wf(k) && FindById(k.list, k.groups, gid) == None
    ensures var k1 := ReturnEvent(k, gid, id, response).0;
      NamesDistinct(k1.groups) && NameMap(k1.groups) == MapStep(NameMap(k.groups), AnswerId(gid, id, k.events))
  {
    NothingReturned(k, gid, id, response);
    hide *;
    NoEntryAtId(k, gid, AnswersId(id, k.events));
    AnswerStep(NameMap(k.groups), gid, id, k.events);
  }

  lemma NothingReturned(k: State, gid: nat, id: nat, response: Response)
    requires Wf(k) && FindById(k.list, k.groups, gid) == None
    ensures ReturnEvent(k, gid, id, response).0 == k
  {
  }

  lemma ReturnedGroup(k: State, gid: nat, id: nat, response: Response, a: Addr)
    requires Wf(k) && response != REPOST && FindById(k.list, k.groups, gid) == Some(a)
    requires a in k.groups && !k.groups[a].deprecated && forall e | e in k.groups[a].working :: e in k.events
    ensures var k1 := ReturnEvent(k, gid, id, response).0;
      && a in k1.groups && k1.groups == k.groups[a := k1.groups[a]]
      && k1.groups[a].name == k.groups[a].name && !k1.groups[a].deprecated
      && InfoOf(k1.groups[a]) == Answered(InfoOf(k.groups[a]), id, k.events)
  {
    hide Wf, FindById, FindEvent, Without;
  }

  lemma WorkingIsKnown(k: State, a: Addr)
    requires Wf(k) && a in k.groups
    ensures forall e | e in k.groups[a].working :: e in k.events
  {
  }

  lemma RepostIsNothing(k: State, gid: nat, id: nat)
    requires Wf(k)
    ensures var k1 := ReturnEvent(k, gid, id, REPOST).0;
      NamesDistinct(k1.groups) && NameMap(k1.groups) == NameMap(k.groups)
  {
    FoundIsKnown(k, gid);
    var found := FindById(k.list, k.groups, gid);
    if found.Some? { UseIsNothing(k, found.value, 1); }
    WfNames(k);
    hide NameMap, NamesDistinct, Wf, FindById, FindEvent;
  }

  /** Use counts are not in the map. */
  lemma UseIsNothing(k: State, a: Addr, n: int)
    requires Wf(k) && a in k.groups
    ensures NamesDistinct(AddUse(k, a, n).groups) && NameMap(AddUse(k, a, n).groups) == NameMap(k.groups)
  {
    CountsKeep(k, a, AddUse(k, a, n).groups[a]);
    WfNames(AddUse(k, a, n));
    WfNames(k);
    hide Wf, NamesDistinct, NameMap;
    SameRegistry(k.groups, AddUse(k, a, n).groups);
  }

  lemma OpenIsOpenId(k: State, gid: nat)
    requires Wf(k)
    ensures var k1 := OpenTracking(k, gid).0;
      NamesDistinct(k.groups) && NamesDistinct(k1.groups) && NameMap(k1.groups) == AtId(NameMap(k.groups), gid, OpenedEntry)
  {
    var f := OpenedEntry;
    WfNames(k);
    OpenedGroup(k, gid);
    hide NameMap, NamesDistinct, Wf, FindById, OpenTracking, InfoOf, AtId;
    var found := FindById(k.list, k.groups, gid);
    if found.Some? { EntryAtId(k, gid, OpenTracking(k, gid).0.groups[found.value], f); } else { NoEntryAtId(k, gid, f); }
  }

  lemma OpenedGroup(k: State, gid: nat)
    requires Wf(k)
    ensures var k1 := OpenTracking(k, gid).0;
      var found := FindById(k.list, k.groups, gid);
      if found.None? then k1.groups == k.groups
      else var a := found.value;
        && a in k.groups && a in k1.groups && k1.groups == k.groups[a := k1.groups[a]]
        && k1.groups[a].name == k.groups[a].name && !k1.groups[a].deprecated
        && InfoOf(k1.groups[a]) == Opened(InfoOf(k.groups[a]))
  {
    FoundIsKnown(k, gid);
    hide Wf, FindById;
  }

  lemma CloseIsCloseId(k: State, gid: nat)
    requires Wf(k)
    ensures var k1 := CloseTracking(k, gid);
      NamesDistinct(k.groups) && NamesDistinct(k1.groups) && NameMap(k1.groups) == AtId(NameMap(k.groups), gid, Closed)
  {
    WfNames(k);
    ClosedGroupIs(k, gid);
    hide NameMap, NamesDistinct, Wf, FindById, CloseTracking, InfoOf, AtId, Closed;
    var found := FindById(k.list, k.groups, gid);
    if found.Some? { EntryAtId(k, gid, CloseTracking(k, gid).groups[found.value], Closed); } else { NoEntryAtId(k, gid, Closed); }
  }

  lemma ClosedGroupIs(k: State, gid: nat)
    requires Wf(k)
    ensures var k1 := CloseTracking(k, gid);
      var found := FindById(k.list, k.groups, gid);
      if found.None? then k1.groups == k.groups
      else var a := found.value;
        && a in k.groups && a in k1.groups && k1.groups == k.groups[a := k1.groups[a]]
        && k1.groups[a].name == k.groups[a].name
        && Closed(InfoOf(k.groups[a])) == if k1.groups[a].deprecated then None else Some(InfoOf(k1.groups[a]))
  {
    FoundIsKnown(k, gid);
    CloseTrackingGroups(k, gid);
    hide Wf, FindById, CloseTracking;
  }

  /** A group taken out of use loses its entry. */
  lemma EntryGone(groups: map<Addr, Group>, a: Addr, g: Group)
    requires NamesDistinct(groups) && a in Active(groups) && g.deprecated && g.name == groups[a].name
    ensures NamesDistinct(groups[a := g])
    ensures NameMap(groups[a := g]) == NameMap(groups) - {g.name}
  {
    assert Active(groups[a := g]) == Active(groups) - {a};
    assert NamesDistinct(groups[a := g]);
    hide NameMap, NamesDistinct, Active;
    WithoutGroup(groups, a, groups[a := g]);
  }

  // ---------------------------------------------------------------- every step

  /** The map after a step, as the label says. */
  ghost predicate Simulates(s: Sys, s1: Sys, l: Label) {
    Wf(s.k) && NamesDistinct(s1.k.groups) && NameMap(s1.k.groups) == MapStep(NameMap(s.k.groups), l)
  }

  predicate KeepsGroups(st: Step) { LeavesCounts(st) && !MovesEvents(st) }

  lemma KeptGroups(s: Sys, st: Step)
    requires Safe(s) && Enabled(s, st) && KeepsGroups(st)
    ensures Simulates(s, Next(s, st), LabelOf(s, st))
  {
    assert Wf(s.k);
    WfNames(s.k);
    assert Next(s, st).k.groups == s.k.groups by { hide Safe, Wf; }
    hide Safe, Wf, Next, Enabled, NameMap, NamesDistinct;
  }

  lemma PostSimulates(s: Sys, t: Tid)
    requires Safe(s) && t in s.threads && s.threads[t].OpAlloc?
    ensures Simulates(s, DoPost(s, t), Broadcast(s.threads[t].e))
  {
    PostIsBroadcast(s.k, s.threads[t].e);
    hide NameMap, NamesDistinct, Post;
  }

  lemma ScanSimulates(s: Sys, t: Tid)
    requires Safe(s) && t in s.threads && s.threads[t].AddStart?
    ensures Simulates(s, DoScan(s, t), if s.threads[t].track then Track(s.threads[t].name) else Nothing)
  {
    var name, track := s.threads[t].name, s.threads[t].track;
    assert Wf(s.k) && ListOk(s.k.list, s.k.groups);
    assert DoScan(s, t).k.groups == ChooseId(s.k.list, s.k.groups, name, track, 0).groups;
    hide *;
    WfNames(s.k);
    ScanIsTrack(s.k, name, track);
    TrackStep(NameMap(s.k.groups), name);
    BySteps(s, DoScan(s, t), if track then Track(name) else Nothing, ChooseId(s.k.list, s.k.groups, name, track, 0).groups);
  }

  lemma TrackStep(r: map<string, Info>, name: string)
    ensures MapStep(r, Track(name)) == if name in r then r[name := r[name].(tracking := true)] else r
    ensures MapStep(r, Nothing) == r
  {
  }

  /** `Simulates` from its parts, so that nothing needs unfolding. */
  lemma BySteps(s: Sys, s1: Sys, l: Label, groups: map<Addr, Group>)
    requires Wf(s.k) && NamesDistinct(s.k.groups) && s1.k.groups == groups && NamesDistinct(groups)
    requires NameMap(groups) == MapStep(NameMap(s.k.groups), l)
    ensures Simulates(s, s1, l)
  {
  }

  lemma LinkSimulates(s: Sys, t: Tid, a: Addr)
    requires Core(s) && t in s.threads && s.threads[t].AddReady? && a !in s.born
    ensures Simulates(s, DoLink(s, t, a), Insert(s.threads[t].name, s.threads[t].id, s.threads[t].track))
  {
    var th := s.threads[t];
    assert Wf(s.k);
    var groups := DoLink(s, t, a).k.groups;
    assert groups == LinkGroup(s.k, a, th.name, th.id, th.track).groups;
    hide *;
    WfNames(s.k);
    LinkKeepsWf(s, t, a);
    NewToTheMap(s, t);
    LinkIsInsert(s.k, a, th.name, th.id, th.track);
    WfNames(LinkGroup(s.k, a, th.name, th.id, th.track));
    InsertStep(NameMap(s.k.groups), th.name, th.id, th.track);
    BySteps(s, DoLink(s, t, a), Insert(th.name, th.id, th.track), groups);
  }

  lemma InsertStep(r: map<string, Info>, name: string, id: nat, track: bool)
    ensures MapStep(r, Insert(name, id, track)) == r[name := Info(id, track, 0, [], [])]
  {
  }

  lemma NewToTheMap(s: Sys, t: Tid)
    requires Core(s) && t in s.threads && s.threads[t].AddReady?
    ensures NamesDistinct(s.k.groups)
    ensures forall n | n in NameMap(s.k.groups) :: n != s.threads[t].name && NameMap(s.k.groups)[n].id != s.threads[t].id
  {
    WfNames(s.k);
    NameAndIdFree(s, t);
    hide Core, NameMap, NamesDistinct;
    forall n | n in NameMap(s.k.groups) ensures n != s.threads[t].name && NameMap(s.k.groups)[n].id != s.threads[t].id {
      var b := Named(s.k.groups, n);
    }
  }

  lemma RemoveSimulates(s: Sys, t: Tid)
    requires Core(s) && Safe(s) && t in s.threads && s.threads[t].RemGo?
    ensures Simulates(s, DoRemove(s, t), Delete(s.threads[t].name))
  {
    var name := s.threads[t].name;
    assert Wf(s.k);
    RemoveState(s, t);
    hide *;
    NoneDeprecated(s);
    WfNames(s.k);
    RemoveIsDelete(s.k, name);
    WfNames(RemoveByName(s.k, name));
    DeleteStep(NameMap(s.k.groups), name);
    BySteps(s, DoRemove(s, t), Delete(name), RemoveByName(s.k, name).groups);
  }

  lemma RemoveState(s: Sys, t: Tid)
    requires Safe(s) && t in s.threads && s.threads[t].RemGo?
    ensures Wf(s.k) && DoRemove(s, t).k == RemoveByName(s.k, s.threads[t].name)
  {
    hide RemoveByName, NoteRemoved;
  }

  lemma DeleteStep(r: map<string, Info>, name: string)
    ensures MapStep(r, Delete(name)) == r - {name}
  {
  }

  lemma OpenSimulates(s: Sys, h: nat, gid: nat)
    requires Safe(s)
    ensures Simulates(s, DoOpen(s, h, gid), OpenId(gid))
  {
    assert Wf(s.k) && ListOk(s.k.list, s.k.groups);
    assert DoOpen(s, h, gid).k == OpenTracking(s.k, gid).0;
    hide *;
    WfNames(s.k);
    OpenIsOpenId(s.k, gid);
    OpenStep(NameMap(s.k.groups), gid);
    BySteps(s, DoOpen(s, h, gid), OpenId(gid), OpenTracking(s.k, gid).0.groups);
  }

  lemma OpenStep(r: map<string, Info>, id: nat)
    ensures MapStep(r, OpenId(id)) == AtId(r, id, OpenedEntry)
  {
  }

  lemma CloseSimulates(s: Sys, h: nat)
    requires Safe(s) && h in s.handles
    ensures Simulates(s, DoClose(s, h), if s.handles[h].group.Some? then CloseId(s.handles[h].gid) else Nothing)
  {
    assert Wf(s.k);
    CloseState(s, h);
    hide *;
    var gid := s.handles[h].gid;
    WfNames(s.k);
    CloseIsCloseId(s.k, gid);
    CloseStep(NameMap(s.k.groups), gid);
    if s.handles[h].group.Some? {
      BySteps(s, DoClose(s, h), CloseId(gid), CloseTracking(s.k, gid).groups);
    } else {
      BySteps(s, DoClose(s, h), Nothing, s.k.groups);
    }
  }

  lemma CloseState(s: Sys, h: nat)
    requires Safe(s) && h in s.handles
    ensures Wf(s.k) && DoClose(s, h).k == if s.handles[h].group.Some? then CloseTracking(s.k, s.handles[h].gid) else s.k
  {
    hide CloseTracking, NoteRemoved;
  }

  lemma CloseStep(r: map<string, Info>, id: nat)
    ensures MapStep(r, CloseId(id)) == AtId(r, id, Closed) && MapStep(r, Nothing) == r
  {
  }

  lemma UseSimulates(s: Sys, st: Step)
    requires Safe(s) && Enabled(s, st) && (st.UseEnter? || st.UseDrop?)
    ensures Simulates(s, Next(s, st), Nothing)
  {
    WfNames(s.k);
    if st.UseEnter? {
      FoundIsKnown(s.k, st.gid);
      var found := FindById(s.k.list, s.k.groups, st.gid);
      if found.Some? { UseIsNothing(s.k, found.value, 1); }
    } else {
      UseIsNothing(s.k, s.threads[st.t].a, -1);
    }
    hide NameMap, NamesDistinct, FindById, Wf;
  }

  lemma ReturnSimulates(s: Sys, t: Tid, gid: nat, id: nat, response: Response)
    requires Safe(s) && t !in s.threads
    ensures Simulates(s, DoReturn(s, t, gid, id, response), if response == REPOST then Nothing else AnswerId(gid, id, s.k.events))
  {
    assert Wf(s.k);
    if response == REPOST { RepostIsNothing(s.k, gid, id); } else { AnswerIsAnswer(s.k, gid, id, response); }
    hide NameMap, NamesDistinct, Kernel.ReturnEvent, Wf, Safe, SetStatus, MapStep;
    ReturnsTo(s, t, gid, id, response);
  }

  lemma ClaimSimulates(s: Sys, t: Tid)
    requires Safe(s) && Enabled(s, ClaimEvent(t))
    ensures Simulates(s, DoClaim(s, t), Take(s.k.groups[s.threads[t].a].name))
  {
    var a := s.threads[t].a;
    assert Wf(s.k) && a in s.k.groups && s.k.groups[a].todo != [];
    assert DoClaim(s, t).k == Claim(s.k, a).0;
    hide *;
    ListedIsActive(s.k, a);
    WfNames(s.k);
    ClaimIsTake(s.k, a);
    TakeStep(NameMap(s.k.groups), s.k.groups[a].name);
    BySteps(s, DoClaim(s, t), Take(s.k.groups[a].name), Claim(s.k, a).0.groups);
  }

  lemma TakeStep(r: map<string, Info>, n: string)
    requires n in r
    ensures MapStep(r, Take(n)) == AtName(r, n, Some(Taken(r[n])))
  {
  }

  lemma UnclaimSimulates(s: Sys, t: Tid)
    requires Safe(s) && t in s.threads && (s.threads[t].GetClaimed? || s.threads[t].RetRepost?)
    requires s.threads[t].a in s.k.groups && s.k.groups[s.threads[t].a].Holds(s.threads[t].e)
    ensures Simulates(s, DoUnclaim(s, t), GiveBack(s.k.groups[s.threads[t].a].name, s.threads[t].e))
  {
    var a, e := s.threads[t].a, s.threads[t].e;
    assert Wf(s.k) && (s.k.groups[a].todo != [] || s.k.groups[a].working != []);
    assert DoUnclaim(s, t).k == Unclaim(s.k, a, e);
    hide *;
    ListedIsActive(s.k, a);
    WfNames(s.k);
    UnclaimIsGiveBack(s.k, a, e);
    GiveBackStep(NameMap(s.k.groups), s.k.groups[a].name, e);
    BySteps(s, DoUnclaim(s, t), GiveBack(s.k.groups[a].name, e), Unclaim(s.k, a, e).groups);
  }

  lemma GiveBackStep(r: map<string, Info>, n: string, e: Addr)
    requires n in r
    ensures MapStep(r, GiveBack(n, e)) == AtName(r, n, Some(GivenBack(r[n], e)))
  {
  }

  lemma ListedIsActive(k: State, a: Addr)
    requires Wf(k) && a in k.groups && (k.groups[a].todo != [] || k.groups[a].working != [])
    ensures a in Active(k.groups)
  {
  }

  /** Every step of the protocol, from any state that can be reached, is the step of the map that its
      label names: names, ids, tracking counts and both lists of every active group. */
  lemma StepIsMapStep(s: Sys, st: Step)
    requires Core(s) && Safe(s) && Enabled(s, st)
    ensures NamesDistinct(s.k.groups) && NamesDistinct(Next(s, st).k.groups)
    ensures NameMap(Next(s, st).k.groups) == MapStep(NameMap(s.k.groups), LabelOf(s, st))
  {
    hide *;
    if st.AccessPost? || st.AddScan? || st.AddLink? || st.RemWork? || st.Open? || st.Close? {
      GroupStepSimulates(s, st);
    } else if st.UseEnter? || st.UseDrop? || st.ClaimEvent? || st.OpenFailed? || st.RetUnclaim? || st.Return? {
      ListStepSimulates(s, st);
    } else {
      Others(st);
      KeptGroups(s, st);
    }
    SimulatesParts(s, Next(s, st), LabelOf(s, st));
  }

  lemma Others(st: Step)
    ensures KeepsGroups(st) || st.AccessPost? || st.AddScan? || st.AddLink? || st.RemWork? || st.Open? || st.Close?
         || st.UseEnter? || st.UseDrop? || st.ClaimEvent? || st.OpenFailed? || st.RetUnclaim? || st.Return?
  {
  }

  lemma GroupStepSimulates(s: Sys, st: Step)
    requires Core(s) && Safe(s) && Enabled(s, st)
    requires st.AccessPost? || st.AddScan? || st.AddLink? || st.RemWork? || st.Open? || st.Close?
    ensures Simulates(s, Next(s, st), LabelOf(s, st))
  {
    hide Core, Safe, Simulates, Wf, DoPost, DoScan, DoLink, DoRemove, DoOpen, DoClose;
    match st
    case AccessPost(t) => PostSimulates(s, t);
    case AddScan(t) => ScanSimulates(s, t);
    case AddLink(t, a) => LinkSimulates(s, t, a);
    case RemWork(t) => RemoveSimulates(s, t);
    case Open(h, gid) => OpenSimulates(s, h, gid);
    case Close(h) => CloseSimulates(s, h);
  }

  lemma ListStepSimulates(s: Sys, st: Step)
    requires Core(s) && Safe(s) && Enabled(s, st)
    requires st.UseEnter? || st.UseDrop? || st.ClaimEvent? || st.OpenFailed? || st.RetUnclaim? || st.Return?
    ensures Simulates(s, Next(s, st), LabelOf(s, st))
  {
    hide Core, Safe, Simulates, Wf, DoUseEnter, DoUseDrop, DoClaim, DoUnclaim, DoReturn;
    match st
    case UseEnter(t, gid) => UseSimulates(s, st);
    case UseDrop(t) => UseSimulates(s, st);
    case ClaimEvent(t) => ClaimSimulates(s, t);
    case OpenFailed(t) => UnclaimSimulates(s, t);
    case RetUnclaim(t) => UnclaimSimulates(s, t);
    case Return(t, gid, id, response) => ReturnSimulates(s, t, gid, id, response);
  }

  lemma SimulatesParts(s: Sys, s1: Sys, l: Label)
    requires Simulates(s, s1, l)
    ensures NamesDistinct(s.k.groups) && NamesDistinct(s1.k.groups) && NameMap(s1.k.groups) == MapStep(NameMap(s.k.groups), l)
  {
  }
}
