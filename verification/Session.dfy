/** The text interface and the protocol together: from the library's decision to the event it was
    about, and from the name of a group to its device. */
module Session {
  import opened Kernel
  import opened CText
  import opened Messages
  import opened Protocol
  import opened Invariant
  import opened Guarantees
  import opened Registry
  import opened Verdicts
  import opened Groups
  import opened Ids
  import opened Listing
  import opened Library

  /** The reply to a posted event is understood exactly when the event's place in the order of
      posting falls into a non-negative turn of the counter. */
  lemma AnswerableExactly(s: Sys, e: Addr, deny: bool)
    requires Core(s) && e in s.k.events && e in s.hist && s.hist[e].seqno > 0
    ensures var id := s.k.events[e].id;
      ParseReply(ReplyText(id, deny)) == Some(Answered(id, deny)) <==> s.hist[e].seqno % 0x1_0000_0000 < 0x8000_0000
  {
    hide Wf, AccountInv, CountInv, QueueInv;
    hide ParseReply, ReplyText;
    OnlyEarlyIdsCanBeAnswered(Counter(s.hist[e].seqno), deny);
  }

  /** During the first 2^31 posts, what the library decides about an event its group is working on
      reaches exactly that event, as that decision. */
  lemma DecisionReachesItsEvent(s: Sys, gid: nat, a: Addr, e: Addr, deny: bool)
    requires Core(s) && s.posts < 0x8000_0000
    requires a in Active(s.k.groups) && s.k.groups[a].id == gid && e in s.k.groups[a].working
    ensures e in s.k.events
    ensures var call := ParseReply(ReplyText(s.k.events[e].id, deny));
      && call.Some?
      && ReturnEvent(s.k, gid, call.value.0, call.value.1).1 == Answering(a, e, deny)
  {
    hide AccountInv, CountInv, QueueInv, IdInv, BornInv, ListOk, QueuesOk, NamesDistinct, IdsDistinct;
    hide ParseReply, ReplyText, FindEvent, FindById;
    WorkingIsPosted(s, a);
    AnswerableExactly(s, e, deny);
    LookupIsUnique(s.k, gid, a);
    ReplyReachesItsEvent(s, a, s.k.events[e].id, e);
  }

  // ---------------------------------------------------------------- from a name to its device

  /** All groups are added by the library, which checks their names. */
  ghost predicate LibraryRequests(run: seq<Step>) {
    forall i | 0 <= i < |run| && run[i].AddEnter? :: GoodName(run[i].name)
  }

  function Adds(th: Thread): Option<string> {
    if th.AddStart? || th.AddFresh? || th.AddReady? then Some(th.name) else None
  }

  ghost predicate NamesGood(s: Sys) {
    && (forall a | a in Active(s.k.groups) :: GoodName(s.k.groups[a].name))
    && (forall t | t in s.threads && Adds(s.threads[t]).Some? :: GoodName(Adds(s.threads[t]).value))
  }

  lemma StepKeepsNames(s: Sys, st: Step)
    requires Core(s) && Safe(s) && Enabled(s, st) && NamesGood(s) && (st.AddEnter? ==> GoodName(st.name))
    ensures NamesGood(Next(s, st))
  {
    hide Core, Safe, Wf, GoodName;
    var s1 := Next(s, st);
    forall a | a in Active(s1.k.groups) ensures GoodName(s1.k.groups[a].name) {
      ActiveExactly(s, st, a);
      NamesAndIdsStay(s, st, a);
    }
    forall t | t in s1.threads && Adds(s1.threads[t]).Some? ensures GoodName(Adds(s1.threads[t]).value) {
      if StepOf(st, t) { AddsOwn(s, st, t); } else { CallerCame(s, st, t); }
    }
  }

  lemma AddsOwn(s: Sys, st: Step, t: Tid)
    requires Safe(s) && Enabled(s, st) && StepOf(st, t) && t in Next(s, st).threads && Adds(Next(s, st).threads[t]).Some?
    ensures if st.AddEnter? then Adds(Next(s, st).threads[t]) == Some(st.name)
            else t in s.threads && Adds(s.threads[t]) == Adds(Next(s, st).threads[t])
  {
    hide Safe, Wf;
  }

  lemma {:induction false} NamesStayGood(run: seq<Step>)
    requires Legal(run) && LibraryRequests(run)
    ensures NamesGood(At(run))
  {
    if run != [] {
      var n := |run| - 1;
      Unroll(run);
      hide Core, Safe, Next, Enabled, NamesGood, GoodName;
      RunsKeepCore(run[..n]);
      NamesStayGood(run[..n]);
      StepKeepsNames(At(run[..n]), run[n]);
    }
  }

  lemma GroupsAreTheLibrarys(run: seq<Step>)
    requires Legal(run) && LibraryRequests(run)
    ensures Wf(At(run).k) && LibraryGroups(At(run).k.groups) && |Active(At(run).k.groups)| <= GROUP_COUNT
  {
    NamesStayGood(run);
    IdsStayBounded(run);
    RunsKeepCore(run);
    hide Legal, At, GoodName;
  }

  /** The entries of the listing after the run. */
  ghost function EntriesAfter(run: seq<Step>): seq<Entry>
    requires Legal(run)
  {
    RunsKeepCore(run);
    Entries(At(run).k.list, At(run).k.groups)
  }

  /** At any moment of any run in which groups are added by the library, its search for a group's name
      leads to that group's device exactly if the group's id has a device. */
  lemma OpeningLeadsToTheGroup(run: seq<Step>, size: nat, a: Addr)
    requires Legal(run) && LibraryRequests(run) && a in Active(At(run).k.groups)
    requires Needed(EntriesAfter(run)) + 2 <= size
    ensures var g := At(run).k.groups[a];
      OpenLookup(Shown(EntriesAfter(run), size), g.name) == Some(g.id) <==> g.id < GROUP_COUNT
  {
    GroupsAreTheLibrarys(run);
    var k := At(run).k;
    assert EntriesAfter(run) == Entries(k.list, k.groups);
    hide *;
    OpeningFindsTheGroup(k, size, a);
  }

  /** It always does while no addition is overtaken by a tracked close. */
  lemma OpeningAlwaysLeadsToTheGroup(run: seq<Step>, size: nat, a: Addr)
    requires Legal(run) && LibraryRequests(run) && a in Active(At(run).k.groups)
    requires forall i: nat, j: nat, t: Tid :: !Overtaken(run, i, j, t)
    requires Needed(EntriesAfter(run)) + 2 <= size
    ensures var g := At(run).k.groups[a];
      OpenLookup(Shown(EntriesAfter(run), size), g.name) == Some(g.id)
  {
    OpeningLeadsToTheGroup(run, size, a);
    forall j ensures !LetsLargeThrough(run, j) {
      if 0 <= j { LargeIdsExactly(run, j); }
    }
    IdsStaySmall(run);
    hide Legal, At, OpenLookup, Shown, EntriesAfter, Needed, LetsLargeThrough;
  }
}
