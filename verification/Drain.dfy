/** No access is stranded. What is still assigned, in total, only falls while nothing new is posted: by
    one with every release and by the length of its lists with every group that is removed
    (`Outstanding`). From every state in which no tracking count is negative the calls under way can
    finish and the groups be removed, and then it is zero. */
module Drain {
  import opened Kernel
  import opened Protocol
  import opened Invariant
  import opened KeepsLists
  import opened KeepsCounts
  import opened Preservation
  import opened Holding
  import opened Tracking
  import opened Verdicts
  import opened Guarantees
  import opened Outstanding

  /** The steps `run`, all enabled and all of them of calls that finish or remove, take `s` to `s1`. */
  ghost predicate Leads(s: Sys, run: seq<Step>, s1: Sys)
    decreases |run|
  {
    if run == [] then s1 == s
    else Safe(s) && Enabled(s, run[0]) && Finishes(run[0]) && Leads(Next(s, run[0]), run[1..], s1)
  }

  lemma {:induction false} LeadsOn(s: Sys, run: seq<Step>, s1: Sys, run': seq<Step>, s2: Sys)
    requires Leads(s, run, s1) && Leads(s1, run', s2)
    ensures Leads(s, run + run', s2)
    decreases |run|
  {
    hide Safe, Enabled, Finishes, Next;
    if run == [] { assert run + run' == run'; } else {
      LeadsOn(Next(s, run[0]), run[1..], s1, run', s2);
      assert (run + run')[1..] == run[1..] + run';
    }
  }

  lemma OneStep(s: Sys, st: Step) returns (s1: Sys)
    requires SafeInv(s) && Enabled(s, st) && Finishes(st)
    ensures Safe(s) && s1 == Next(s, st) && SafeInv(s1) && Leads(s, [st], s1)
  {
    hide Core, CountsInv, Safe, Enabled, Next;
    SafeInvIsSafe(s);
    s1 := Next(s, st);
    NotClosing(s, st);
    StepKeepsSafeInv(s, st);
    assert Leads(s1, [], s1);
    assert [st][1..] == [];
  }

  lemma NotClosing(s: Sys, st: Step)
    requires Finishes(st)
    ensures !Undercuts(s, st)
  {
  }

  // ---------------------------------------------------------------- callers inside the semaphore finish

  function Inside(threads: map<Tid, Thread>): set<Tid> {
    set t | t in threads && (threads[t].Reads() || threads[t].Writes())
  }

  function StepsLeft(th: Thread): nat {
    match th
    case OpStart => 3
    case OpAlloc(_, _) => 2
    case AddStart(_, _) => 5
    case AddFresh(_, _, _) => 4
    case AddReady(_, _, _) => 3
    case RemStart(_) => 3
    case AddLinked => 2
    case RemGo(_) => 2
    case _ => 1
  }

  /** The next step of a caller inside the semaphore. */
  function WayOut(t: Tid, th: Thread, unborn: Addr): Step {
    match th
    case OpStart => AccessAlloc(t, unborn)
    case OpAlloc(_, _) => AccessPost(t)
    case OpPosted(_) => AccessUp(t)
    case AddStart(_, _) => AddScan(t)
    case AddFresh(_, _, _) => AddRoom(t, false)
    case AddReady(_, _, _) => AddLink(t, unborn)
    case AddLinked => AddCount(t)
    case RemStart(_) => RemCheck(t)
    case RemGo(_) => RemWork(t)
    case _ => WriteUp(t)
  }

  /** Calls that are under way finish, removals begin, and nothing else happens: no allocation fails,
      nobody opens a file or a device, fetches an event or replies. */
  predicate Finishes(st: Step) {
    || st.AccessAlloc? || st.AccessPost? || st.AccessUp? || st.AddScan? || (st.AddRoom? && !st.noMemory) || st.AddLink?
    || st.AddCount? || st.RemEnter? || st.RemCheck? || st.RemWork? || st.WriteUp? || st.RetFinish?
  }

  lemma WayOutStep(s: Sys, t: Tid, unborn: Addr)
    requires Safe(s) && t in Inside(s.threads) && unborn !in s.born
    requires s.threads[t].OpStart? ==> s.k.count >= 0
    ensures var st := WayOut(t, s.threads[t], unborn);
      && Enabled(s, st) && Finishes(st)
      && (t in Inside(Next(s, st).threads) ==> StepsLeft(Next(s, st).threads[t]) < StepsLeft(s.threads[t]))
      && SameOthers(s.threads, Next(s, st).threads, t)
  {
    hide Wf, Safe;
  }

  /** While somebody holds the semaphore for reading the group count is exact. */
  lemma ReadersCount(s: Sys, t: Tid)
    requires Core(s) && t in s.threads && s.threads[t].Reads()
    ensures s.k.count == |Active(s.k.groups)|
  {
  }

  lemma WayOutOpens(s: Sys, t: Tid, unborn: Addr)
    requires Safe(s) && t in Inside(s.threads) && unborn !in s.born
    requires s.threads[t].OpStart? ==> s.k.count >= 0
    ensures var st := WayOut(t, s.threads[t], unborn);
      && Enabled(s, st) && Finishes(st)
      && (t in Inside(Next(s, st).threads) ==> StepsLeft(Next(s, st).threads[t]) < StepsLeft(s.threads[t]))
      && Inside(Next(s, st).threads) - {t} == Inside(s.threads) - {t}
  {
    hide Wf, Safe;
    var st := WayOut(t, s.threads[t], unborn);
    WayOutStep(s, t, unborn);
    hide Next, Enabled, WayOut, StepsLeft;
    assert SameOthers(s.threads, Next(s, st).threads, t);
  }

  lemma {:induction false} FinishOne(s: Sys, t: Tid) returns (run: seq<Step>, s1: Sys)
    requires SafeInv(s) && t in Inside(s.threads)
    ensures SafeInv(s1) && Leads(s, run, s1) && Inside(s1.threads) == Inside(s.threads) - {t}
    decreases StepsLeft(s.threads[t])
  {
    SafeInvIsSafe(s);
    if s.threads[t].OpStart? { ReadersCount(s, t); }
    hide Core, CountsInv, Safe, Enabled, Next, Leads;
    var unborn := UpperBound(s.born);
    WayOutOpens(s, t, unborn);
    var st := WayOut(t, s.threads[t], unborn);
    s1 := OneStep(s, st);
    run := [st];
    if t in Inside(s1.threads) {
      var rest, s2 := FinishOne(s1, t);
      LeadsOn(s, run, s1, rest, s2);
      run, s1 := run + rest, s2;
    }
  }

  lemma {:induction false} FinishAll(s: Sys) returns (run: seq<Step>, s1: Sys)
    requires SafeInv(s)
    ensures SafeInv(s1) && Leads(s, run, s1) && Inside(s1.threads) == {}
    decreases |Inside(s.threads)|
  {
    hide Core, CountsInv, Safe;
    run, s1 := [], s;
    if t :| t in Inside(s.threads) {
      run, s1 := FinishOne(s, t);
      var rest, s2 := FinishAll(s1);
      LeadsOn(s, run, s1, rest, s2);
      run, s1 := run + rest, s2;
    }
  }

  // ---------------------------------------------------------------- the groups go

  lemma {:induction false} RemoveAll(s: Sys) returns (run: seq<Step>, s1: Sys)
    requires SafeInv(s) && Inside(s.threads) == {}
    ensures SafeInv(s1) && Leads(s, run, s1) && Active(s1.k.groups) == {}
    decreases |Active(s.k.groups)|
  {
    hide Core, CountsInv, Safe;
    run, s1 := [], s;
    if a :| a in Active(s.k.groups) {
      run, s1 := RemoveOne(s, a);
      var rest, s2 := RemoveAll(s1);
      LeadsOn(s, run, s1, rest, s2);
      run, s1 := run + rest, s2;
    }
  }

  lemma RemoveOne(s: Sys, a: Addr) returns (run: seq<Step>, s1: Sys)
    requires SafeInv(s) && Inside(s.threads) == {} && a in Active(s.k.groups)
    ensures SafeInv(s1) && Leads(s, run, s1) && Inside(s1.threads) == {}
    ensures Active(s1.k.groups) == Active(s.k.groups) - {a}
  {
    hide Core, CountsInv, Safe, Leads, Active;
    var t := UpperBound(s.threads.Keys);
    run, s1 := GoRemove(s, t, a);
    var rest, s2 := DoneRemoving(s1, t, a);
    LeadsOn(s, run, s1, rest, s2);
    run, s1 := run + rest, s2;
  }

  lemma EnterStep(s: Sys, t: Tid, name: string)
    requires SafeInv(s) && t !in s.threads && NoWriter(s.threads) && NoReader(s.threads)
    ensures SafeInv(Goto(s, t, RemStart(name))) && Leads(s, [RemEnter(t, name)], Goto(s, t, RemStart(name)))
  {
    hide Core, CountsInv, Safe, Leads;
    var s1 := OneStep(s, RemEnter(t, name));
  }

  lemma CheckStep(s: Sys, t: Tid, name: string)
    requires SafeInv(s) && t in s.threads && s.threads[t] == RemStart(name) && s.k.count != 0
    ensures SafeInv(Goto(s, t, RemGo(name))) && Leads(s, [RemCheck(t)], Goto(s, t, RemGo(name)))
  {
    hide Core, CountsInv, Safe, Leads;
    var s1 := OneStep(s, RemCheck(t));
  }

  lemma WorkStep(s: Sys, t: Tid) returns (s1: Sys)
    requires SafeInv(s) && Safe(s) && t in s.threads && s.threads[t].RemGo?
    ensures SafeInv(s1) && Leads(s, [RemWork(t)], s1) && s1 == DoRemove(s, t)
  {
    hide Core, CountsInv, Safe, Leads;
    s1 := OneStep(s, RemWork(t));
  }

  lemma UpStep(s: Sys, t: Tid)
    requires SafeInv(s) && t in s.threads && s.threads[t].WriteOut?
    ensures SafeInv(s.(threads := s.threads - {t})) && Leads(s, [WriteUp(t)], s.(threads := s.threads - {t}))
  {
    hide Core, CountsInv, Safe, Leads;
    var s1 := OneStep(s, WriteUp(t));
  }

  lemma GoRemove(s: Sys, t: Tid, a: Addr) returns (run: seq<Step>, s1: Sys)
    requires SafeInv(s) && Inside(s.threads) == {} && a in Active(s.k.groups) && t !in s.threads
    ensures SafeInv(s1) && Leads(s, run, s1) && s1 == s.(threads := s.threads[t := RemGo(s.k.groups[a].name)])
  {
    hide Core, CountsInv, Safe, Leads, Next, Enabled;
    EnterToRemove(s, t, a);
    var name := s.k.groups[a].name;
    var b := Goto(s, t, RemStart(name));
    EnterStep(s, t, name);
    s1 := Goto(b, t, RemGo(name));
    CheckStep(b, t, name);
    LeadsOn(s, [RemEnter(t, name)], b, [RemCheck(t)], s1);
    run := [RemEnter(t, name)] + [RemCheck(t)];
    assert s1.threads == s.threads[t := RemGo(name)];
  }

  lemma DoneRemoving(s: Sys, t: Tid, a: Addr) returns (run: seq<Step>, s1: Sys)
    requires SafeInv(s) && a in Active(s.k.groups) && t in s.threads && s.threads[t] == RemGo(s.k.groups[a].name)
    requires Inside(s.threads) == {t}
    ensures SafeInv(s1) && Leads(s, run, s1) && Inside(s1.threads) == {} && Active(s1.k.groups) == Active(s.k.groups) - {a}
  {
    hide Core, CountsInv, Safe, Leads, Active, Next, Enabled, RemoveByName;
    SafeInvIsSafe(s);
    RemovesByName(s, t, a);
    var b := WorkStep(s, t);
    s1 := b.(threads := b.threads - {t});
    UpStep(b, t);
    LeadsOn(s, [RemWork(t)], b, [WriteUp(t)], s1);
    run := [RemWork(t)] + [WriteUp(t)];
    forall u ensures u !in Inside(s1.threads) { assert u in Inside(s.threads) <==> u == t; }
  }

  lemma EnterToRemove(s: Sys, t: Tid, a: Addr)
    requires SafeInv(s) && Inside(s.threads) == {} && a in Active(s.k.groups)
    ensures NoWriter(s.threads) && NoReader(s.threads) && s.k.count != 0
  {
    hide AccountInv, CountsInv, QueueInv, IdInv, Wf;
    forall u | u in s.threads ensures !s.threads[u].Writes() && !s.threads[u].Reads() { assert u !in Inside(s.threads); }
    IdleSemaphoreCount(s.k.groups, s.k.count, s.threads);
  }

  lemma RemovesByName(s: Sys, t: Tid, a: Addr)
    requires SafeInv(s) && Safe(s) && t in s.threads && s.threads[t].RemGo? && a in Active(s.k.groups)
    requires s.k.groups[a].name == s.threads[t].name
    ensures Active(DoRemove(s, t).k.groups) == Active(s.k.groups) - {a}
  {
    assert a in s.k.list;
    var found := FindByName(s.k.list, s.k.groups, s.threads[t].name).value;
    assert found in Active(s.k.groups) && found == a;
    NoneDeprecated(s);
    hide AccountInv, CountInv, CountsInv, QueueInv, IdInv;
    RemoveKeeps(s.k, a);
  }

  // ---------------------------------------------------------------- releases under way finish

  lemma {:induction false} ReleaseAllInFlight(s: Sys) returns (run: seq<Step>, s1: Sys)
    requires SafeInv(s)
    ensures SafeInv(s1) && Leads(s, run, s1) && ReleasesUnderWay(s1.threads) == {} && Active(s1.k.groups) == Active(s.k.groups)
    decreases |ReleasesUnderWay(s.threads)|
  {
    hide Core, CountsInv, Safe;
    run, s1 := [], s;
    if t :| t in ReleasesUnderWay(s.threads) {
      s1 := OneStep(s, RetFinish(t));
      assert ReleasesUnderWay(s1.threads) == ReleasesUnderWay(s.threads) - {t};
      var rest, s2 := ReleaseAllInFlight(s1);
      LeadsOn(s, [RetFinish(t)], s1, rest, s2);
      run, s1 := [RetFinish(t)] + rest, s2;
    }
  }

  /** From every such state, letting the calls under way finish and removing the groups leads to one
      where no event is assigned any more. */
  lemma EveryAccessCanFinish(s: Sys)
    requires SafeInv(s)
    ensures exists run, s1 :: Leads(s, run, s1) && SafeInv(s1) && NothingAssigned(s1)
  {
    hide Core, CountsInv, Safe, Leads;
    var r1, s1 := FinishAll(s);
    var r2, s2 := RemoveAll(s1);
    var r3, s3 := ReleaseAllInFlight(s2);
    LeadsOn(s, r1, s1, r2, s2);
    LeadsOn(s, r1 + r2, s2, r3, s3);
    NothingOutstanding(s3);
    assert Leads(s, r1 + r2 + r3, s3) && SafeInv(s3) && NothingAssigned(s3);
  }
}
