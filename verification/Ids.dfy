/** The id of a new group: there is a device for it unless a tracked close falls between the scan for
    an id and the capacity check, exactly when all ids were taken. */
module Ids {
  import opened Kernel
  import opened Protocol
  import opened Invariant
  import opened KeepsCounts
  import opened Preservation
  import opened Verdicts
  import opened Groups
  import opened Guarantees

  ghost predicate SomeIdFree(groups: map<Addr, Group>) { exists j :: 0 <= j < GROUP_COUNT && !IdInUse(groups, j) }

  ghost predicate IdAmong(groups: map<Addr, Group>, among: set<Addr>, id: nat) {
    exists a :: a in among && a in groups && groups[a].id == id
  }

  /** A scan yields an id with a device of its own exactly when one is free, and needs no more walks of
      the list than there are active groups, and one. */
  lemma ScannedId(s: Sys, t: Tid)
    requires Core(s) && ListOk(s.k.list, s.k.groups) && t in s.threads && s.threads[t].AddStart?
    ensures var th := s.threads[t];
      var c := ChooseId(s.k.list, s.k.groups, th.name, th.track, 0);
      && c.scans <= |Active(s.k.groups)| + 1
      && (c.id.None? <==> NameInUse(s.k.groups, th.name))
      && (c.id.Some? ==> c.id.value <= GROUP_COUNT && (c.id.value < GROUP_COUNT <==> SomeIdFree(s.k.groups)))
  {
    hide Core, ListOk;
    CountBound(s);
    LeastFreeId(s.k.list, s.k.groups, s.threads[t].name, s.threads[t].track);
  }

  lemma LeastFreeId(list: seq<Addr>, groups: map<Addr, Group>, name: string, track: bool)
    requires ListOk(list, groups) && |Active(groups)| <= GROUP_COUNT
    ensures var c := ChooseId(list, groups, name, track, 0);
      && c.scans <= |Active(groups)| + 1
      && (c.id.None? <==> NameInUse(groups, name))
      && (c.id.Some? ==> c.id.value <= GROUP_COUNT && (c.id.value < GROUP_COUNT <==> SomeIdFree(groups)))
  {
    hide ListOk, Tidied, ChooseId;
    ChooseIdIsLeastFree(list, groups, name, track, 0);
    assert Above(groups, 0) == Active(groups);
  }

  /** All ids taken means as many groups. */
  lemma AllTakenMeansFull(groups: map<Addr, Group>)
    requires !SomeIdFree(groups)
    ensures |Active(groups)| >= GROUP_COUNT
  {
    forall j | 0 <= j < GROUP_COUNT ensures IdAmong(groups, Active(groups), j) {
      assert IdInUse(groups, j);
    }
    IdsNeedGroups(groups, GROUP_COUNT, Active(groups));
  }

  lemma {:induction false} IdsNeedGroups(groups: map<Addr, Group>, n: nat, among: set<Addr>)
    requires forall j | 0 <= j < n :: IdAmong(groups, among, j)
    ensures |among| >= n
  {
    if n > 0 {
      assert IdAmong(groups, among, n - 1);
      var a :| a in among && a in groups && groups[a].id == n - 1;
      forall j | 0 <= j < n - 1 ensures IdAmong(groups, among - {a}, j) {
        assert IdAmong(groups, among, j);
        var b :| b in among && b in groups && groups[b].id == j;
        assert b in among - {a};
      }
      IdsNeedGroups(groups, n - 1, among - {a});
    }
  }

  // ---------------------------------------------------------------- between the scan and the check

  predicate StepOf(st: Step, t: Tid) { !st.Open? && !st.Close? && st.t == t }

  /** Step `i` is the scan and step `j` the capacity check of one addition by caller `t`. */
  ghost predicate Addition(run: seq<Step>, i: nat, j: nat, t: Tid) {
    && i < j < |run| && run[i] == AddScan(t) && run[j] == AddRoom(t, false)
    && forall m | i < m < j :: !StepOf(run[m], t)
  }

  /** A tracked close took a group out of use in one of the steps from `i` on and before `m`. */
  ghost predicate ClosedBetween(run: seq<Step>, i: nat, m: nat)
    requires Legal(run) && m <= |run|
  {
    exists c :: i < c < m && Closes(run, c)
  }

  ghost predicate Closes(run: seq<Step>, c: int)
    requires Legal(run)
  {
    && 0 <= c < |run| && run[c].Close?
    && (SafeBefore(run, c); exists a :: a in Active(At(run[..c]).k.groups) && a !in Active(At(run[..c + 1]).k.groups))
  }

  /** While an addition holds the semaphore, only a close can change which groups are active. */
  lemma OnlyClosesIntervene(s: Sys, st: Step, t: Tid)
    requires Core(s) && Safe(s) && Enabled(s, st) && t in s.threads && s.threads[t].AddFresh? && !StepOf(st, t)
    ensures t in Next(s, st).threads && Next(s, st).threads[t] == s.threads[t]
    ensures Active(Next(s, st).k.groups) <= Active(s.k.groups)
    ensures !st.Close? ==> Active(Next(s, st).k.groups) == Active(s.k.groups)
  {
    OthersStay(s, st, t);
    NoOtherWriter(s, t);
    NoLink(s, st, t);
    hide Core, Safe, Next, Enabled, Active;
    forall a ensures a in Active(Next(s, st).k.groups) ==> a in Active(s.k.groups) { ActiveExactly(s, st, a); }
    if !st.Close? {
      forall a ensures a in Active(s.k.groups) ==> a in Active(Next(s, st).k.groups) { ActiveExactly(s, st, a); }
    }
  }

  lemma NoLink(s: Sys, st: Step, t: Tid)
    requires Safe(s) && Enabled(s, st) && t in s.threads && s.threads[t].AddFresh? && !StepOf(st, t)
    requires forall u | u in s.threads && u != t :: !s.threads[u].Writes()
    ensures !st.AddLink? && !st.RemWork?
  {
    hide Safe, Wf;
  }

  lemma NoOtherWriter(s: Sys, t: Tid)
    requires Core(s) && t in s.threads && s.threads[t].AddFresh?
    ensures forall u | u in s.threads && u != t :: !s.threads[u].Writes()
  {
  }

  lemma {:induction false} InBetween(run: seq<Step>, i: nat, j: nat, t: Tid, m: nat)
    requires Legal(run) && Addition(run, i, j, t) && i < m <= j
    requires Legal(run[..i + 1]) && t in At(run[..i + 1]).threads && At(run[..i + 1]).threads[t].AddFresh?
    ensures Legal(run[..m]) && t in At(run[..m]).threads && At(run[..m]).threads[t] == At(run[..i + 1]).threads[t]
    ensures Active(At(run[..m]).k.groups) <= Active(At(run[..i + 1]).k.groups)
    ensures Active(At(run[..m]).k.groups) == Active(At(run[..i + 1]).k.groups) <==> !ClosedBetween(run, i, m)
    decreases m
  {
    hide Legal, At, Core, Safe, Enabled, Next, Active;
    LegalPrefix(run, m);
    if m > i + 1 {
      InBetween(run, i, j, t, m - 1);
      SafeBefore(run, m - 1);
      assert run[..m - 1 + 1] == run[..m];
      OnlyClosesIntervene(At(run[..m - 1]), run[m - 1], t);
      if c :| i < c < m && Closes(run, c) { assert c == m - 1 || ClosedBetween(run, i, m - 1); }
      if Closes(run, m - 1) { assert ClosedBetween(run, i, m); }
      if c :| i < c < m - 1 && Closes(run, c) { assert ClosedBetween(run, i, m); }
      if run[m - 1].Close? { NotClosed(run, m - 1); }
    }
  }

  lemma NotClosed(run: seq<Step>, c: nat)
    requires Legal(run) && c < |run| && run[c].Close? && Legal(run[..c]) && Legal(run[..c + 1])
    requires Active(At(run[..c + 1]).k.groups) <= Active(At(run[..c]).k.groups)
    ensures Closes(run, c) <==> Active(At(run[..c + 1]).k.groups) != Active(At(run[..c]).k.groups)
  {
  }

  lemma {:induction false} CallerStays(run: seq<Step>, i: nat, t: Tid, m: nat)
    requires Legal(run) && i < m <= |run| && forall n | i < n < m :: !StepOf(run[n], t)
    requires Legal(run[..i + 1]) && t in At(run[..i + 1]).threads
    ensures Legal(run[..m]) && t in At(run[..m]).threads && At(run[..m]).threads[t] == At(run[..i + 1]).threads[t]
    decreases m
  {
    hide Legal, At, Core, Safe, Enabled, Next;
    LegalPrefix(run, m);
    if m > i + 1 {
      CallerStays(run, i, t, m - 1);
      SafeBefore(run, m - 1);
      assert run[..m - 1 + 1] == run[..m];
      OthersStay(At(run[..m - 1]), run[m - 1], t);
    }
  }

  lemma ScanChooses(s: Sys, t: Tid)
    requires Core(s) && Safe(s) && t in s.threads && s.threads[t].AddStart?
    ensures var s1 := DoScan(s, t);
      && t in s1.threads && Active(s1.k.groups) == Active(s.k.groups)
      && (s1.threads[t].AddFresh? ==> (s1.threads[t].id < GROUP_COUNT <==> SomeIdFree(s.k.groups)))
  {
    assert ListOk(s.k.list, s.k.groups);
    ScannedId(s, t);
    ScanFacts(s, t);
    ScanGoesTo(s, t);
    hide *;
    SameActive(s.k.groups, DoScan(s, t).k.groups);
  }

  lemma ScanGoesTo(s: Sys, t: Tid)
    requires Safe(s) && t in s.threads && s.threads[t].AddStart?
    ensures var th := s.threads[t];
      var c := ChooseId(s.k.list, s.k.groups, th.name, th.track, 0);
      t in DoScan(s, t).threads
      && DoScan(s, t).threads[t] == if c.id.None? then WriteOut else AddFresh(th.name, th.track, c.id.value)
  {
    hide Wf, ChooseId;
  }

  lemma SameActive(g: map<Addr, Group>, g1: map<Addr, Group>)
    requires g1.Keys <= g.Keys && forall a | a in g1 :: g1[a] == g[a].(tracking := g1[a].tracking)
    requires forall a | a in g && a !in g1 :: g[a].deprecated
    ensures Active(g1) == Active(g)
  {
    forall a | a in Active(g) ensures a in Active(g1) { assert a in g1; }
  }

  /** Where an addition stands at its capacity check, and what has happened since its scan. */
  lemma AtTheCheck(run: seq<Step>, i: nat, j: nat, t: Tid)
    requires Legal(run) && Addition(run, i, j, t)
    ensures Legal(run[..i]) && Legal(run[..j]) && Core(At(run[..i])) && Core(At(run[..j]))
    ensures t in At(run[..j]).threads && At(run[..j]).threads[t].AddFresh?
    ensures At(run[..j]).threads[t].id < GROUP_COUNT <==> SomeIdFree(At(run[..i]).k.groups)
    ensures Active(At(run[..j]).k.groups) <= Active(At(run[..i]).k.groups)
    ensures Active(At(run[..j]).k.groups) == Active(At(run[..i]).k.groups) <==> !ClosedBetween(run, i, j)
  {
    hide Legal, At, Core, Safe, Active, SomeIdFree, ClosedBetween, DoScan;
    SafeBefore(run, i);
    SafeBefore(run, j);
    ScanChooses(At(run[..i]), t);
    hide Next, Enabled;
    CallerStays(run, i, t, j);
    InBetween(run, i, j, t, j);
  }

  /** An addition is let through with an id that has no device exactly when all ids were taken at its
      scan and a tracked close took a group out of use before its capacity check. */
  lemma LargeIdExactly(run: seq<Step>, i: nat, j: nat, t: Tid)
    requires Legal(run) && Addition(run, i, j, t)
    ensures Legal(run[..i]) && Legal(run[..j]) && t in At(run[..j]).threads && At(run[..j]).threads[t].AddFresh?
    ensures At(run[..j]).k.count != GROUP_COUNT && At(run[..j]).threads[t].id >= GROUP_COUNT
       <==> !SomeIdFree(At(run[..i]).k.groups) && ClosedBetween(run, i, j)
  {
    hide Legal, At, Core, Safe, Active, SomeIdFree, ClosedBetween;
    AtTheCheck(run, i, j, t);
    var g, g1 := At(run[..i]).k.groups, At(run[..j]).k.groups;
    CountBound(At(run[..i]));
    RoomToAdd(At(run[..j]), t);
    if !SomeIdFree(g) {
      AllTakenMeansFull(g);
      if Active(g1) != Active(g) { ProperSubset(Active(g1), Active(g)); }
    }
  }

  lemma ProperSubset<T>(a: set<T>, b: set<T>)
    requires a < b
    ensures |a| < |b|
  {
    var x :| x in b && x !in a;
    SubsetSize(a, b - {x});
  }

  // ---------------------------------------------------------------- over whole runs

  /** Step `j` lets an addition through whose id has no device. */
  ghost predicate LetsLargeThrough(run: seq<Step>, j: nat)
    requires Legal(run)
  {
    && j < |run| && run[j].AddRoom? && !run[j].noMemory
    && (SafeBefore(run, j); At(run[..j]).k.count != GROUP_COUNT && At(run[..j]).threads[run[j].t].id >= GROUP_COUNT)
  }

  /** Steps `i` and `j` are the scan and the check of an addition for which all ids were taken and
      between which a tracked close took a group out of use. */
  ghost predicate Overtaken(run: seq<Step>, i: nat, j: nat, t: Tid)
    requires Legal(run)
  {
    Addition(run, i, j, t) && (LegalPrefix(run, i); !SomeIdFree(At(run[..i]).k.groups)) && ClosedBetween(run, i, j)
  }

  /** Before its check an addition has been scanned for, and its caller has done nothing since. */
  lemma {:induction false} ScannedBefore(run: seq<Step>, n: nat, t: Tid) returns (i: nat)
    requires Legal(run) && n <= |run| && Legal(run[..n]) && t in At(run[..n]).threads && At(run[..n]).threads[t].AddFresh?
    ensures i < n && run[i] == AddScan(t) && forall m | i < m < n :: !StepOf(run[m], t)
    decreases n
  {
    hide Legal, At, Core, Safe, Enabled, Next;
    assert n > 0 by { NoCallersYet(run[..n]); }
    SafeBefore(run, n - 1);
    assert run[..n - 1 + 1] == run[..n];
    var s := At(run[..n - 1]);
    if StepOf(run[n - 1], t) {
      FreshFromScan(s, run[n - 1], t);
      i := n - 1;
    } else {
      CallerCame(s, run[n - 1], t);
      i := ScannedBefore(run, n - 1, t);
    }
  }

  lemma NoCallersYet(run: seq<Step>)
    ensures run == [] ==> Legal(run) && At(run) == INIT
  {
  }

  lemma FreshFromScan(s: Sys, st: Step, t: Tid)
    requires Core(s) && Safe(s) && Enabled(s, st) && StepOf(st, t)
    requires t in Next(s, st).threads && Next(s, st).threads[t].AddFresh?
    ensures st == AddScan(t)
  {
    hide Core, Safe, Wf;
  }

  lemma CallerCame(s: Sys, st: Step, t: Tid)
    requires Core(s) && Safe(s) && Enabled(s, st) && !StepOf(st, t) && t in Next(s, st).threads
    ensures t in s.threads && Next(s, st).threads[t] == s.threads[t]
  {
    hide Core, Safe, Wf, Post, Claim, Unclaim, Kernel.ReturnEvent, RemoveByName, Kernel.CloseTracking, Kernel.OpenTracking, Release,
         NoteRemoved, SetStatus, LinkGroup, AddUse;
  }

  /** Over a whole run, ids without a device are let through exactly by such additions. */
  lemma LargeIdsExactly(run: seq<Step>, j: nat)
    requires Legal(run)
    ensures LetsLargeThrough(run, j) <==> exists i: nat, t: Tid :: Overtaken(run, i, j, t)
  {
    hide Legal, At, Core, Safe, Enabled, Next, SomeIdFree, ClosedBetween;
    if LetsLargeThrough(run, j) {
      SafeBefore(run, j);
      var t := run[j].t;
      CheckedIsFresh(At(run[..j]), run[j]);
      var i := ScannedBefore(run, j, t);
      LargeIdExactly(run, i, j, t);
      assert Overtaken(run, i, j, t);
    }
    if i: nat, t: Tid :| Overtaken(run, i, j, t) {
      LargeIdExactly(run, i, j, t);
    }
  }

  lemma CheckedIsFresh(s: Sys, st: Step)
    requires Safe(s) && Enabled(s, st) && st.AddRoom?
    ensures st.t in s.threads && s.threads[st.t].AddFresh?
  {
  }

  /** Every active group, and every group about to be linked, has an id below `n`. */
  ghost predicate IdsBelow(s: Sys, n: nat) {
    && (forall a | a in Active(s.k.groups) :: s.k.groups[a].id < n)
    && (forall t | t in s.threads && s.threads[t].AddReady? :: s.threads[t].id < n)
  }

  /** As long as no addition is overtaken in that way, every active group has a device. */
  lemma {:induction false} IdsStaySmall(run: seq<Step>)
    requires Legal(run) && forall j :: !LetsLargeThrough(run, j)
    ensures IdsBelow(At(run), GROUP_COUNT)
  {
    if run != [] {
      var n := |run| - 1;
      Unroll(run);
      var before := run[..n];
      RunsKeepCore(before);
      forall j ensures !LetsLargeThrough(before, j) { LargeLater(run, j); }
      IdsStaySmall(before);
      NotLarge(run);
      StepKeepsIdsBelow(At(before), run[n], GROUP_COUNT);
    }
  }

  lemma LargeLater(run: seq<Step>, j: nat)
    requires Legal(run) && run != [] && Legal(run[..|run| - 1])
    ensures LetsLargeThrough(run[..|run| - 1], j) ==> LetsLargeThrough(run, j)
  {
    if j < |run| - 1 { assert run[..|run| - 1][..j] == run[..j]; }
  }

  lemma NotLarge(run: seq<Step>)
    requires Legal(run) && run != [] && !LetsLargeThrough(run, |run| - 1)
    requires Legal(run[..|run| - 1]) && Safe(At(run[..|run| - 1])) && Enabled(At(run[..|run| - 1]), run[|run| - 1])
    ensures !PassesAbove(At(run[..|run| - 1]), run[|run| - 1], GROUP_COUNT)
  {
  }

  /** The step lets an addition through with an id of `n` or more. */
  ghost predicate PassesAbove(s: Sys, st: Step, n: nat)
    requires Safe(s) && Enabled(s, st)
  {
    st.AddRoom? && !st.noMemory && s.k.count != GROUP_COUNT && s.threads[st.t].id >= n
  }

  lemma StepKeepsIdsBelow(s: Sys, st: Step, n: nat)
    requires Core(s) && Safe(s) && Enabled(s, st) && IdsBelow(s, n) && !PassesAbove(s, st, n)
    ensures IdsBelow(Next(s, st), n)
  {
    hide Core, Safe, Wf;
    var s1 := Next(s, st);
    forall a | a in Active(s1.k.groups) ensures s1.k.groups[a].id < n {
      ActiveExactly(s, st, a);
      NamesAndIdsStay(s, st, a);
    }
    forall t | t in s1.threads && s1.threads[t].AddReady? ensures s1.threads[t].id < n {
      if StepOf(st, t) { ReadyFromCheck(s, st, t, n); } else { CallerCame(s, st, t); }
    }
  }

  lemma ReadyFromCheck(s: Sys, st: Step, t: Tid, n: nat)
    requires Core(s) && Safe(s) && Enabled(s, st) && StepOf(st, t) && !PassesAbove(s, st, n)
    requires t in Next(s, st).threads && Next(s, st).threads[t].AddReady?
    ensures Next(s, st).threads[t].id < n
  {
    hide Core, Safe, Wf;
  }

  // ---------------------------------------------------------------- the largest id there can be

  ghost predicate FreshBelow(s: Sys, n: nat) {
    forall t | t in s.threads && s.threads[t].AddFresh? :: s.threads[t].id < n
  }

  lemma StepKeepsFresh(s: Sys, st: Step)
    requires Core(s) && Safe(s) && Enabled(s, st) && FreshBelow(s, GROUP_COUNT + 1)
    ensures FreshBelow(Next(s, st), GROUP_COUNT + 1)
  {
    hide Core, Safe, Wf, Next, Enabled;
    var s1 := Next(s, st);
    forall t | t in s1.threads && s1.threads[t].AddFresh? ensures s1.threads[t].id < GROUP_COUNT + 1 {
      if StepOf(st, t) {
        FreshFromScan(s, st, t);
        FreshId(s, t);
      } else {
        CallerCame(s, st, t);
      }
    }
  }

  lemma FreshId(s: Sys, t: Tid)
    requires Core(s) && Safe(s) && Enabled(s, AddScan(t)) && t in Next(s, AddScan(t)).threads
    requires Next(s, AddScan(t)).threads[t].AddFresh?
    ensures Next(s, AddScan(t)).threads[t].id <= GROUP_COUNT
  {
    assert ListOk(s.k.list, s.k.groups);
    ScannedId(s, t);
    hide Core, Safe, Wf, ListOk, ChooseId, SomeIdFree, NameInUse;
  }

  /** In every reachable state, ids go up to GROUP_COUNT at most, one more than there are devices. */
  lemma {:induction false} IdsStayBounded(run: seq<Step>)
    requires Legal(run)
    ensures IdsBelow(At(run), GROUP_COUNT + 1) && FreshBelow(At(run), GROUP_COUNT + 1)
  {
    if run != [] {
      var n := |run| - 1;
      Unroll(run);
      hide Core, Safe, Next, Enabled, IdsBelow, FreshBelow;
      RunsKeepCore(run[..n]);
      IdsStayBounded(run[..n]);
      FreshPasses(At(run[..n]), run[n]);
      StepKeepsIdsBelow(At(run[..n]), run[n], GROUP_COUNT + 1);
      StepKeepsFresh(At(run[..n]), run[n]);
    }
  }

  lemma FreshPasses(s: Sys, st: Step)
    requires Safe(s) && Enabled(s, st) && FreshBelow(s, GROUP_COUNT + 1)
    ensures !PassesAbove(s, st, GROUP_COUNT + 1)
  {
    hide Safe;
  }
}
