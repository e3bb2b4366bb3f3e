/** One complete run, from loading the module to an access refused: a group is added, a process opens
    a file, a registered process claims the event and answers DENY. It shows that the premises of the
    theorems about runs are met. A second run leaves it when the event has been claimed, and removes
    the group. */
module Example {
  import opened Kernel
  import opened Protocol
  import opened Invariant
  import opened Verdicts
  import opened Guarantees

  // ---------------------------------------------------------------- runs step by step

  /** A run, closing handles rightly, that ends in `s`. */
  ghost predicate Reached(run: seq<Step>, s: Sys) { Legal(run) && Matched(run) && At(run) == s }

  /** The step can be taken in `s`, which reaches no freed memory, and leads to `s1`. */
  ghost predicate Leads(s: Sys, st: Step, s1: Sys) {
    Safe(s) ==> Enabled(s, st) && Next(s, st) == s1 && HandleMatches(s, st)
  }

  lemma ReachedIsSafe(run: seq<Step>, s: Sys)
    requires Reached(run, s)
    ensures Safe(s) && Inv(s) && Legal(run) && Matched(run) && At(run) == s
  {
    hide Inv, Safe;
    RunsKeepInv(run);
  }

  lemma MatchedGoesOn(run: seq<Step>, st: Step)
    requires Legal(run) && Matched(run) && Safe(At(run)) && Enabled(At(run), st) && HandleMatches(At(run), st)
    ensures Legal(run + [st]) && At(run + [st]) == Next(At(run), st) && Matched(run + [st])
  {
    OneStepOn(run, st);
  }

  lemma Then(run: seq<Step>, s: Sys, st: Step, s1: Sys) returns (run1: seq<Step>)
    requires Reached(run, s) && Leads(s, st, s1)
    ensures run1 == run + [st] && Reached(run1, s1)
  {
    ReachedIsSafe(run, s);
    hide Next, Enabled, Safe, HandleMatches, At, Legal, Matched, Inv;
    MatchedGoesOn(run, st);
    run1 := run + [st];
  }

  // ---------------------------------------------------------------- the states

  /** The group at 7, the event at 8; callers 0 (adds the group), 1 (opens the file), 2 (registered). */
  function G(useCount: int, todo: seq<Addr>, working: seq<Addr>): map<Addr, Group> {
    map[7 := Group("a", 0, false, 0, useCount, false, todo, working)]
  }

  function K(groups: map<Addr, Group>, count: int): State { State([7], groups, map[], count, 0) }

  function Ev(groups: map<Addr, Group>, assignedCount: int, deny: bool): State {
    State([7], groups, map[8 := Event(1, assignedCount, deny, false)], 1, 1)
  }

  function H(x: Status, claimed: set<Addr>): map<Addr, Hist> { map[8 := Hist(1, 1, map[7 := x], claimed)] }

  const NOTHING := State([], map[], map[], 0, 0)

  /** The states of the run, one by one. */
  function S0(): Sys { INIT }
  function S1(): Sys { Sys(NOTHING, map[0 := AddStart("a", false)], map[], map[], {}, 0) }
  function S2(): Sys { Sys(NOTHING, map[0 := AddFresh("a", false, 0)], map[], map[], {}, 0) }
  function S3(): Sys { Sys(NOTHING, map[0 := AddReady("a", false, 0)], map[], map[], {}, 0) }
  function S4(): Sys { Sys(K(G(0, [], []), 0), map[0 := AddLinked], map[], map[], {7}, 0) }
  function S5(): Sys { Sys(K(G(0, [], []), 1), map[0 := WriteOut], map[], map[], {7}, 0) }
  function S6(): Sys { Sys(K(G(0, [], []), 1), map[], map[], map[], {7}, 0) }
  function S7(): Sys { Sys(K(G(0, [], []), 1), map[1 := OpStart], map[], map[], {7}, 0) }
  function S8(): Sys {
    Sys(State([7], G(0, [], []), map[8 := Event(0, 0, false, false)], 1, 0), map[1 := OpAlloc(8, 1)], map[],
        map[8 := Hist(1, 0, map[], {})], {7, 8}, 0)
  }

  function S9(): Sys { Sys(Ev(G(0, [8], []), 1, false), map[1 := OpPosted(8)], map[], H(Queued, {}), {7, 8}, 1) }
  function S10(): Sys { Sys(Ev(G(0, [8], []), 1, false), map[1 := OpWait(8)], map[], H(Queued, {}), {7, 8}, 1) }
  function S11(): Sys {
    Sys(Ev(G(1, [8], []), 1, false), map[1 := OpWait(8), 2 := GetWait(7)], map[], H(Queued, {}), {7, 8}, 1)
  }

  function S12(): Sys {
    Sys(Ev(G(1, [], [8]), 1, false), map[1 := OpWait(8), 2 := GetClaimed(7, 8)], map[], H(Queued, {7}), {7, 8}, 1)
  }

  function S13(): Sys {
    Sys(Ev(G(1, [], [8]), 1, false), map[1 := OpWait(8), 2 := UseOut(7)], map[], H(Queued, {7}), {7, 8}, 1)
  }

  function S14(): Sys { Sys(Ev(G(0, [], [8]), 1, false), map[1 := OpWait(8)], map[], H(Queued, {7}), {7, 8}, 1) }
  function S15(): Sys {
    Sys(Ev(G(1, [], []), 1, false), map[1 := OpWait(8), 2 := RetRelease(7, 8, true)], map[],
        H(InFlight(2, true), {7}), {7, 8}, 1)
  }

  function S16(): Sys {
    Sys(Ev(G(1, [], []), 0, true), map[1 := OpWait(8), 2 := UseOut(7)], map[], H(Denied, {7}), {7, 8}, 1)
  }

  function S17(): Sys {
    Sys(Ev(G(1, [], []), 0, true), map[1 := OpWoken(8), 2 := UseOut(7)], map[], H(Denied, {7}), {7, 8}, 1)
  }

  function S18(): Sys {
    Sys(Ev(G(1, [], []), 0, true), map[1 := OpJudged(8, true), 2 := UseOut(7)], map[], H(Denied, {7}), {7, 8}, 1)
  }

  function S19(): Sys {
    Sys(State([7], G(1, [], []), map[], 1, 1), map[1 := OpDone(8, true), 2 := UseOut(7)], map[], H(Denied, {7}), {7, 8}, 1)
  }

  lemma EnteringFollows()
    ensures Leads(S0(), AddEnter(0, "a", false), S1()) && Leads(S1(), AddScan(0), S2()) && Leads(S2(), AddRoom(0, false), S3())
  {
    hide Safe;
    assert Leads(S0(), AddEnter(0, "a", false), S1());
    assert Leads(S1(), AddScan(0), S2());
    assert Leads(S2(), AddRoom(0, false), S3());
  }

  lemma AddingFollows()
    ensures Leads(S3(), AddLink(0, 7), S4()) && Leads(S4(), AddCount(0), S5()) && Leads(S5(), WriteUp(0), S6())
  {
    hide Safe;
    assert Leads(S3(), AddLink(0, 7), S4());
    assert Leads(S4(), AddCount(0), S5());
    assert Leads(S5(), WriteUp(0), S6());
  }

  lemma OpeningFollows()
    ensures Leads(S6(), AccessEnter(1), S7()) && Leads(S7(), AccessAlloc(1, 8), S8()) && Leads(S9(), AccessUp(1), S10())
  {
    hide Safe;
    assert Leads(S6(), AccessEnter(1), S7());
    assert Leads(S7(), AccessAlloc(1, 8), S8());
    assert Leads(S9(), AccessUp(1), S10());
  }

  lemma PostFollows()
    ensures Leads(S8(), AccessPost(1), S9())
  {
    hide Safe;
    var s, s1 := S8(), S9();
    PostedState(s, s1);
    hide Post;
    if Safe(s) {
      assert Next(s, AccessPost(1)).hist[8].status == map[7 := Queued];
      assert Next(s, AccessPost(1)).threads == s1.threads && Next(s, AccessPost(1)).hist == s1.hist;
    }
  }

  lemma PostedState(s: Sys, s1: Sys)
    requires s == S8() && s1 == S9()
    ensures Post(s.k, 8) == s1.k
    ensures Active(s.k.groups) == {7}
  {
    assert Active(s.k.groups) == {7} && [] + [8] == [8];
    assert Post(s.k, 8).groups[7] == s1.k.groups[7];
    assert Post(s.k, 8).groups == s1.k.groups && Post(s.k, 8).events == s1.k.events;
  }

  lemma EnterFollows()
    ensures Leads(S10(), UseEnter(2, 0), S11())
  {
    hide Safe;
    var s, s1 := S10(), S11();
    assert FindById(s.k.list, s.k.groups, 0) == Some(7);
    if Safe(s) {
      assert Next(s, UseEnter(2, 0)).threads == s1.threads && Next(s, UseEnter(2, 0)).hist == s1.hist;
      assert Next(s, UseEnter(2, 0)).k.groups == s1.k.groups && Next(s, UseEnter(2, 0)).k.events == s1.k.events;
    }
  }

  lemma ClaimFollows()
    ensures Leads(S11(), ClaimEvent(2), S12())
  {
    hide Safe;
    var s, s1 := S11(), S12();
    assert [8][1..] == [] && [8] + [] == [8];
    var claimed: set<Addr> := {};
    assert claimed + {7} == {7};
    if Safe(s) {
      assert Next(s, ClaimEvent(2)).threads == s1.threads && Next(s, ClaimEvent(2)).hist == s1.hist;
      assert Next(s, ClaimEvent(2)).k.groups == s1.k.groups && Next(s, ClaimEvent(2)).k.events == s1.k.events;
    }
  }

  lemma OpenFollows()
    ensures Leads(S12(), OpenOk(2), S13())
  {
    hide Safe;
    var s, s1 := S12(), S13();
    if Safe(s) {
      assert Next(s, OpenOk(2)).threads == s1.threads && Next(s, OpenOk(2)).hist == s1.hist;
      assert Next(s, OpenOk(2)).k.groups == s1.k.groups && Next(s, OpenOk(2)).k.events == s1.k.events;
    }
  }

  lemma DropFollows()
    ensures Leads(S13(), UseDrop(2), S14())
  {
    hide Safe;
    var s, s1 := S13(), S14();
    if Safe(s) {
      assert Next(s, UseDrop(2)).threads == s1.threads && Next(s, UseDrop(2)).hist == s1.hist;
      assert Next(s, UseDrop(2)).k.groups == s1.k.groups && Next(s, UseDrop(2)).k.events == s1.k.events;
    }
  }

  lemma ReturnFollows()
    ensures Leads(S14(), Return(2, 0, 1, DENY), S15())
  {
    hide Safe, DoReturn, S14, S15;
    Absent2();
    if Safe(S14()) { Returned14(S14(), S15()); }
  }

  lemma Absent2()
    ensures 2 !in S14().threads
  {
  }

  lemma Returned14(s: Sys, s1: Sys)
    requires s == S14() && s1 == S15() && Safe(s)
    ensures DoReturn(s, 2, 0, 1, DENY) == s1
  {
    assert Wf(s.k);
    hide Safe, Wf;
    FoundAndUnlinked(s, s1);
    hide Kernel.ReturnEvent;
    assert s.hist[8].status[7 := InFlight(2, true)] == s1.hist[8].status;
    assert SetStatus(s.hist, 8, 7, InFlight(2, true)) == s1.hist;
    assert s.threads[2 := RetRelease(7, 8, true)] == s1.threads;
  }

  lemma FoundAndUnlinked(s: Sys, s1: Sys)
    requires s == S14() && s1 == S15() && Wf(s.k)
    ensures Kernel.ReturnEvent(s.k, 0, 1, DENY) == (s1.k, Answering(7, 8, true))
  {
    hide Wf;
    assert FindById(s.k.list, s.k.groups, 0) == Some(7) && FindEvent([8], s.k.events, 1) == Some(8);
    assert Without([8], 8) == [];
    assert s.k.groups[7 := Answer(s.k.groups[7], 8)] == s1.k.groups;
  }

  lemma ReleaseFollows()
    ensures Leads(S15(), RetFinish(2), S16())
  {
    hide Safe;
    var s, s1 := S15(), S16();
    assert s.hist[8].status[7 := Denied] == s1.hist[8].status;
    if Safe(s) {
      assert Next(s, RetFinish(2)).threads == s1.threads && Next(s, RetFinish(2)).hist == s1.hist;
      assert Next(s, RetFinish(2)).k.groups == s1.k.groups && Next(s, RetFinish(2)).k.events == s1.k.events;
    }
  }

  lemma WakeFollows()
    ensures Leads(S16(), AccessWake(1), S17())
  {
    hide Safe;
    var s, s1 := S16(), S17();
    if Safe(s) {
      assert Next(s, AccessWake(1)).threads == s1.threads && Next(s, AccessWake(1)).hist == s1.hist;
      assert Next(s, AccessWake(1)).k.groups == s1.k.groups && Next(s, AccessWake(1)).k.events == s1.k.events;
    }
  }

  lemma JudgeFollows()
    ensures Leads(S17(), AccessJudge(1), S18())
  {
    hide Safe;
    var s, s1 := S17(), S18();
    if Safe(s) {
      assert Next(s, AccessJudge(1)).threads == s1.threads && Next(s, AccessJudge(1)).hist == s1.hist;
      assert Next(s, AccessJudge(1)).k.groups == s1.k.groups && Next(s, AccessJudge(1)).k.events == s1.k.events;
    }
  }

  lemma FreeFollows()
    ensures Leads(S18(), AccessFree(1), S19())
  {
    hide Safe;
    var s, s1 := S18(), S19();
    if Safe(s) {
      assert Next(s, AccessFree(1)).threads == s1.threads && Next(s, AccessFree(1)).hist == s1.hist;
      assert Next(s, AccessFree(1)).k.groups == s1.k.groups && Next(s, AccessFree(1)).k.events == s1.k.events;
    }
  }

  lemma ToTheClaim() returns (run: seq<Step>)
    ensures Reached(run, S12())
  {
    EnteringFollows();
    AddingFollows();
    OpeningFollows();
    PostFollows();
    EnterFollows();
    ClaimFollows();
    hide *;
    run := [];
    StartsAtInit(run);
    run := Then(run, S0(), AddEnter(0, "a", false), S1());
    run := Then(run, S1(), AddScan(0), S2());
    run := Then(run, S2(), AddRoom(0, false), S3());
    run := Then(run, S3(), AddLink(0, 7), S4());
    run := Then(run, S4(), AddCount(0), S5());
    run := Then(run, S5(), WriteUp(0), S6());
    run := Then(run, S6(), AccessEnter(1), S7());
    run := Then(run, S7(), AccessAlloc(1, 8), S8());
    run := Then(run, S8(), AccessPost(1), S9());
    run := Then(run, S9(), AccessUp(1), S10());
    run := Then(run, S10(), UseEnter(2, 0), S11());
    run := Then(run, S11(), ClaimEvent(2), S12());
  }

  lemma ToTheRefusal() returns (run: seq<Step>)
    ensures Reached(run, S19())
  {
    OpenFollows();
    DropFollows();
    ReturnFollows();
    ReleaseFollows();
    WakeFollows();
    JudgeFollows();
    FreeFollows();
    hide *;
    run := ToTheClaim();
    run := Then(run, S12(), OpenOk(2), S13());
    run := Then(run, S13(), UseDrop(2), S14());
    run := Then(run, S14(), Return(2, 0, 1, DENY), S15());
    run := Then(run, S15(), RetFinish(2), S16());
    run := Then(run, S16(), AccessWake(1), S17());
    run := Then(run, S17(), AccessJudge(1), S18());
    run := Then(run, S18(), AccessFree(1), S19());
  }

  lemma StartsAtInit(run: seq<Step>)
    requires run == []
    ensures Reached(run, S0())
  {
  }

  /** Some access is refused in some legal run. */
  lemma SomeAccessIsRefused() returns (run: seq<Step>)
    ensures Legal(run) && Matched(run) && 1 in At(run).threads && At(run).threads[1] == OpDone(8, true) && DeniedDuring(run, 8)
  {
    run := ToTheRefusal();
    DenialsDecide(run, 1);
  }

  // ---------------------------------------------------------------- a claimed container that is gone

  function Removing(): Sys { S12().(threads := S12().threads[3 := RemStart("a")]) }
  function Removal(): Sys { S12().(threads := S12().threads[3 := RemGo("a")]) }

  lemma RemovalFollows()
    ensures Leads(S12(), RemEnter(3, "a"), Removing()) && Leads(Removing(), RemCheck(3), Removal())
  {
    hide Safe;
    assert Leads(S12(), RemEnter(3, "a"), Removing());
    assert Leads(Removing(), RemCheck(3), Removal());
  }

  lemma RemovalUnlinks()
    requires Safe(Removal())
    ensures Enabled(Removal(), RemWork(3)) && HandleMatches(Removal(), RemWork(3))
    ensures var s1 := Next(Removal(), RemWork(3));
      2 in s1.threads && s1.threads[2] == GetClaimed(7, 8) && !Listed(s1.k.groups, 7, 8)
  {
    var s := Removal();
    hide Safe, ReleaseAll;
    assert s.k.list == [7];
    assert FindByName(s.k.list, s.k.groups, "a") == Some(7);
  }

  /** A removal while an event is claimed frees the container under the claimer: some legal run leads
      to a caller that can neither open the file nor hand the event back without following a dangling
      pointer. */
  lemma SomeClaimIsCutOff() returns (run: seq<Step>)
    ensures Legal(run) && Matched(run) && 2 in At(run).threads && At(run).threads[2] == GetClaimed(7, 8)
    ensures !StillAsked(At(run), 2) && !Listed(At(run).k.groups, 7, 8)
    ensures !Enabled(At(run), OpenOk(2)) && !Enabled(At(run), OpenFailed(2))
  {
    RemovalFollows();
    hide *;
    run := ToTheClaim();
    run := Then(run, S12(), RemEnter(3, "a"), Removing());
    run := Then(run, Removing(), RemCheck(3), Removal());
    ReachedIsSafe(run, Removal());
    RemovalUnlinks();
    MatchedGoesOn(run, RemWork(3));
    run := run + [RemWork(3)];
    CutOff(run);
  }

  lemma CutOff(run: seq<Step>)
    requires Legal(run) && 2 in At(run).threads && At(run).threads[2] == GetClaimed(7, 8) && !Listed(At(run).k.groups, 7, 8)
    ensures !StillAsked(At(run), 2)
    ensures !Enabled(At(run), OpenOk(2)) && !Enabled(At(run), OpenFailed(2))
  {
    RunsKeepCore(run);
    hide Core, Legal, At, StillAsked;
    ContainerIsLinkedExactly(At(run), 2);
    ContainerUseIsEnabledExactly(At(run), 2);
  }
}
