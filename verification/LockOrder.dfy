/** The locks of event.c (and the list lock of ign_dev.c): what every entry point takes, touches and
    releases on every path, the order all paths agree on, why nothing is touched by two callers at once,
    and why no set of callers can lock each other out. */
module LockOrder {
  import opened Kernel

  /** `Assigned(e)` is the mutex inside one event. */
  datatype Lock = CountSem | ProcMutex | IgnMutex | WorkMutex | Assigned(e: nat)

  function Rank(l: Lock): nat {
    match l
    case CountSem => 0
    case ProcMutex => 1
    case IgnMutex => 2
    case WorkMutex => 3
    case Assigned(_) => 4
  }

  /** Only the semaphore is ever shared. */
  datatype Hold = Hold(lock: Lock, shared: bool)

  predicate Conflict(g: Hold, h: Hold) { g.lock == h.lock && !(g.shared && h.shared) }

  /** What is shared: the list of groups with their queues, the account of one event, the list of masked
      processes and the list of ignored ones. */
  datatype Data = Groups | Account(e: nat) | Masked | Ignores

  function Guard(d: Data): Hold {
    match d
    case Groups => Mutex(WorkMutex)
    case Account(e) => Mutex(Assigned(e))
    case Masked => Mutex(ProcMutex)
    case Ignores => Mutex(IgnMutex)
  }

  datatype Op = Acquire(h: Hold) | Release(h: Hold) | Touch(d: Data) | Sleep

  function Mutex(l: Lock): Hold { Hold(l, false) }

  function Under(h: Hold, body: seq<Op>): seq<Op> { [Acquire(h)] + body + [Release(h)] }

  function Repeat(p: seq<Op>, n: nat): seq<Op> { if n == 0 then [] else p + Repeat(p, n - 1) }

  // ---------------------------------------------------------------- the entry points

  datatype Access = NoGroups | Recursing | Ignored | NoMemory | Posted(e: nat, sleeps: nat)

  /** Opening the file for a registered process. `access` is what its own open comes to in
      `dazukofs_check_access`, if it gets there; `listed` tells whether it is on the list of masked
      processes still when the open returns. */
  datatype Opened =
    | NoFd
    | OpenFailed(access: Option<Access>, listed: bool)
    | OpenOk(access: Option<Access>, listed: bool)

  /** How `dazukofs_get_event` leaves its loop: the wait was interrupted or found the group removed, after
      some looks, or the last claim succeeded. */
  datatype Ending = NotClaimed(looks: seq<bool>) | Claimed(o: Opened)

  datatype Answer = NoGroup | NoEvent | Answering(e: nat) | Reposting

  datatype Call =
    | CheckAccess(a: Access)
    | AddGroup(linked: bool)
    | RemoveGroup(worked: bool, events: seq<nat>)
    | GetGroups(tries: nat)
    | OpenTracking
    | CloseTracking(events: seq<nat>)
    | GetEvent(found: bool, rounds: seq<seq<bool>>, ending: Ending)
    | Poll(found: bool)
    | ReturnEvent(answer: Answer)

  const WORK := Under(Mutex(WorkMutex), [Touch(Groups)])
  const PROC := Under(Mutex(ProcMutex), [Touch(Masked)])
  const IGN := Under(Mutex(IgnMutex), [Touch(Ignores)])

  /** `release_event`, and also one look at the assigned count. */
  function Counted(e: nat): seq<Op> { Under(Mutex(Assigned(e)), [Touch(Account(e))]) }

  /** `__clear_group_event_list`, for both lists: each entry is unlinked and its event released. */
  function ReleaseAll(events: seq<nat>): seq<Op> {
    if events == [] then [] else [Touch(Groups)] + Counted(events[0]) + ReleaseAll(events[1..])
  }

  /** The search for a group that is removed, and `__remove_group`. */
  function Removal(events: seq<nat>): seq<Op> { Under(Mutex(WorkMutex), [Touch(Groups)] + ReleaseAll(events)) }

  /** `assign_event_to_groups`: both locks are held while the containers are linked and counted. */
  function Posting(e: nat): seq<Op> {
    Under(Mutex(WorkMutex), Under(Mutex(Assigned(e)), [Touch(Account(e)), Touch(Groups)]))
  }

  function AccessProgram(a: Access): seq<Op> {
    var inside := match a
      case NoGroups => []
      case Recursing => PROC
      case Ignored => PROC + IGN
      case NoMemory => PROC + IGN
      case Posted(e, _) => PROC + IGN + Posting(e);
    var outside := match a
      case Posted(e, sleeps) => Counted(e) + Repeat([Sleep] + Counted(e), sleeps) + Counted(e)
      case _ => [];
    Under(Hold(CountSem, true), inside) + outside
  }

  /** The process masks itself, opens the file, and takes itself off the list if its open did not. */
  function OpenProgram(o: Opened): seq<Op> {
    if o.NoFd? then []
    else PROC + (if o.access.Some? then AccessProgram(o.access.value) else []) + if o.listed then PROC else []
  }

  /** `is_event_available` is asked time and again; each entry tells whether the caller slept before. */
  function Looks(looks: seq<bool>): seq<Op> {
    if looks == [] then [] else (if looks[0] then [Sleep] else []) + WORK + Looks(looks[1..])
  }

  function EndProgram(e: Ending): seq<Op> {
    match e
    case NotClaimed(looks) => Looks(looks)
    case Claimed(o) => OpenProgram(o) + if o.OpenOk? then [] else WORK
  }

  /** Each round looks for an event, sleeping in between, and then tries to claim one. */
  function Rounds(rounds: seq<seq<bool>>): seq<Op> {
    if rounds == [] then []
    else Looks(rounds[0]) + WORK + Rounds(rounds[1..])
  }

  function Program(c: Call): seq<Op> {
    match c
    case CheckAccess(a) => AccessProgram(a)
    case AddGroup(linked) => Under(Hold(CountSem, false), WORK + if linked then WORK else [])
    case RemoveGroup(worked, events) =>
      Under(Hold(CountSem, false), if worked then Removal(events) else [])
    case GetGroups(tries) => Repeat(WORK, tries)
    case OpenTracking => WORK
    case CloseTracking(events) => Removal(events)
    case GetEvent(found, rounds, ending) => WORK + if found then Rounds(rounds) + EndProgram(ending) else []
    case Poll(found) => WORK + if found then WORK else []
    case ReturnEvent(answer) =>
      WORK + (match answer
              case Answering(e) => Counted(e)
              case Reposting => WORK
              case _ => [])
  }

  // ---------------------------------------------------------------- the discipline

  /** What is held after `p`, or None when `p` takes a lock out of order, releases one it does not
      hold, touches something without its lock, or sleeps with a lock. */
  ghost function After(held: set<Hold>, p: seq<Op>): Option<set<Hold>>
    decreases |p|
  {
    if p == [] then Some(held)
    else
      match p[0]
      case Acquire(h) => if Below(held, h) then After(held + {h}, p[1..]) else None
      case Release(h) => if h in held then After(held - {h}, p[1..]) else None
      case Touch(d) => if Guard(d) in held then After(held, p[1..]) else None
      case Sleep => if held == {} then After(held, p[1..]) else None
  }

  ghost predicate Below(held: set<Hold>, h: Hold) { forall g | g in held :: Rank(g.lock) < Rank(h.lock) }

  ghost predicate Keeps(held: set<Hold>, p: seq<Op>) { After(held, p) == Some(held) }

  lemma {:induction false} AfterConcat(held: set<Hold>, p: seq<Op>, q: seq<Op>)
    ensures After(held, p + q) == match After(held, p) case None => None case Some(h) => After(h, q)
    decreases |p|
  {
    if p == [] {
      assert p + q == q;
    } else {
      assert (p + q)[0] == p[0] && (p + q)[1..] == p[1..] + q;
      match p[0]
      case Acquire(h) => AfterConcat(held + {h}, p[1..], q);
      case Release(h) => AfterConcat(held - {h}, p[1..], q);
      case Touch(d) => AfterConcat(held, p[1..], q);
      case Sleep => AfterConcat(held, p[1..], q);
    }
  }

  lemma ConcatKeeps(held: set<Hold>, p: seq<Op>, q: seq<Op>)
    requires Keeps(held, p) && Keeps(held, q)
    ensures Keeps(held, p + q)
  {
    AfterConcat(held, p, q);
  }

  lemma UnderKeeps(held: set<Hold>, h: Hold, body: seq<Op>)
    requires Below(held, h) && Keeps(held + {h}, body)
    ensures Keeps(held, Under(h, body))
  {
    AfterConcat(held, [Acquire(h)], body + [Release(h)]);
    assert [Acquire(h)] + (body + [Release(h)]) == Under(h, body);
    assert After(held, [Acquire(h)]) == Some(held + {h}) by { assert [Acquire(h)][1..] == []; }
    AfterConcat(held + {h}, body, [Release(h)]);
    assert h !in held;
    assert held + {h} - {h} == held;
    assert [Release(h)][1..] == [];
  }

  lemma {:induction false} RepeatKeeps(held: set<Hold>, p: seq<Op>, n: nat)
    requires Keeps(held, p)
    ensures Keeps(held, Repeat(p, n))
  {
    if n > 0 {
      RepeatKeeps(held, p, n - 1);
      ConcatKeeps(held, p, Repeat(p, n - 1));
    }
  }

  lemma TouchKeeps(held: set<Hold>, d: Data)
    requires Guard(d) in held
    ensures Keeps(held, [Touch(d)])
  {
    assert [Touch(d)][1..] == [];
  }

  lemma {:induction false} ReleaseAllKeeps(held: set<Hold>, events: seq<nat>)
    requires Mutex(WorkMutex) in held && forall g | g in held :: Rank(g.lock) < 4
    ensures Keeps(held, ReleaseAll(events))
  {
    if events != [] {
      TouchKeeps(held, Groups);
      CountedKeeps(held, events[0]);
      ReleaseAllKeeps(held, events[1..]);
      ConcatKeeps(held, [Touch(Groups)], Counted(events[0]));
      ConcatKeeps(held, [Touch(Groups)] + Counted(events[0]), ReleaseAll(events[1..]));
    }
  }

  lemma CountedKeeps(held: set<Hold>, e: nat)
    requires forall g | g in held :: Rank(g.lock) < 4
    ensures Keeps(held, Counted(e))
  {
    TouchKeeps(held + {Mutex(Assigned(e))}, Account(e));
    UnderKeeps(held, Mutex(Assigned(e)), [Touch(Account(e))]);
  }

  lemma RemovalKeeps(held: set<Hold>, events: seq<nat>)
    requires forall g | g in held :: g.lock == CountSem
    ensures Keeps(held, Removal(events))
  {
    var held1 := held + {Mutex(WorkMutex)};
    TouchKeeps(held1, Groups);
    ReleaseAllKeeps(held1, events);
    ConcatKeeps(held1, [Touch(Groups)], ReleaseAll(events));
    UnderKeeps(held, Mutex(WorkMutex), [Touch(Groups)] + ReleaseAll(events));
  }

  lemma PostingKeeps(held: set<Hold>, e: nat)
    requires forall g | g in held :: g.lock == CountSem
    ensures Keeps(held, Posting(e))
  {
    var held1 := held + {Mutex(WorkMutex)};
    var held2 := held1 + {Mutex(Assigned(e))};
    TouchKeeps(held2, Account(e));
    TouchKeeps(held2, Groups);
    ConcatKeeps(held2, [Touch(Account(e))], [Touch(Groups)]);
    assert [Touch(Account(e))] + [Touch(Groups)] == [Touch(Account(e)), Touch(Groups)];
    UnderKeeps(held1, Mutex(Assigned(e)), [Touch(Account(e)), Touch(Groups)]);
    UnderKeeps(held, Mutex(WorkMutex), Under(Mutex(Assigned(e)), [Touch(Account(e)), Touch(Groups)]));
  }

  lemma ProcKeeps(held: set<Hold>)
    requires forall g | g in held :: g.lock == CountSem
    ensures Keeps(held, PROC) && Keeps(held, IGN)
  {
    TouchKeeps(held + {Mutex(ProcMutex)}, Masked);
    UnderKeeps(held, Mutex(ProcMutex), [Touch(Masked)]);
    TouchKeeps(held + {Mutex(IgnMutex)}, Ignores);
    UnderKeeps(held, Mutex(IgnMutex), [Touch(Ignores)]);
  }

  lemma WorkKeeps(held: set<Hold>)
    requires forall g | g in held :: g.lock == CountSem
    ensures Keeps(held, WORK)
  {
    TouchKeeps(held + {Mutex(WorkMutex)}, Groups);
    UnderKeeps(held, Mutex(WorkMutex), [Touch(Groups)]);
  }

  lemma SleepKeeps(p: seq<Op>)
    requires Keeps({}, p)
    ensures Keeps({}, [Sleep] + p)
  {
  }

  lemma AccessKeeps(a: Access)
    ensures Keeps({}, AccessProgram(a))
  {
    var held := {Hold(CountSem, true)};
    ProcKeeps(held);
    ConcatKeeps(held, PROC, IGN);
    assert {} + held == held;
    hide After;
    match a
    case Posted(e, sleeps) =>
      PostingKeeps(held, e);
      ConcatKeeps(held, PROC + IGN, Posting(e));
      UnderKeeps({}, Hold(CountSem, true), PROC + IGN + Posting(e));
      CountedKeeps({}, e);
      SleepKeeps(Counted(e));
      RepeatKeeps({}, [Sleep] + Counted(e), sleeps);
      ConcatKeeps({}, Counted(e), Repeat([Sleep] + Counted(e), sleeps));
      var outside := Counted(e) + Repeat([Sleep] + Counted(e), sleeps) + Counted(e);
      ConcatKeeps({}, Counted(e) + Repeat([Sleep] + Counted(e), sleeps), Counted(e));
      ConcatKeeps({}, Under(Hold(CountSem, true), PROC + IGN + Posting(e)), outside);
    case _ =>
      var inside := if a.NoGroups? then [] else if a.Recursing? then PROC else PROC + IGN;
      assert Keeps(held, []) by { EmptyKeeps(held); }
      UnderKeeps({}, Hold(CountSem, true), inside);
      assert Under(Hold(CountSem, true), inside) + [] == Under(Hold(CountSem, true), inside);
  }

  lemma EmptyKeeps(held: set<Hold>)
    ensures Keeps(held, [])
  {
  }

  lemma {:induction false} LooksKeep(looks: seq<bool>)
    ensures Keeps({}, Looks(looks))
  {
    if looks != [] {
      WorkKeeps({});
      EmptyKeeps({});
      SleepKeeps(WORK);
      var look := (if looks[0] then [Sleep] else []) + WORK;
      assert [] + WORK == WORK;
      LooksKeep(looks[1..]);
      ConcatKeeps({}, look, Looks(looks[1..]));
    }
  }

  lemma EndKeeps(e: Ending)
    ensures Keeps({}, EndProgram(e))
  {
    EmptyKeeps({});
    WorkKeeps({});
    hide Keeps;
    match e
    case NotClaimed(looks) => LooksKeep(looks);
    case Claimed(o) =>
      OpenKeeps(o);
      ConcatKeeps({}, OpenProgram(o), if o.OpenOk? then [] else WORK);
  }

  lemma {:induction false} RoundsKeep(rounds: seq<seq<bool>>)
    ensures Keeps({}, Rounds(rounds))
  {
    if rounds != [] {
      WorkKeeps({});
      LooksKeep(rounds[0]);
      ConcatKeeps({}, Looks(rounds[0]), WORK);
      RoundsKeep(rounds[1..]);
      ConcatKeeps({}, Looks(rounds[0]) + WORK, Rounds(rounds[1..]));
    }
  }

  lemma OpenKeeps(o: Opened)
    ensures Keeps({}, OpenProgram(o))
  {
    EmptyKeeps({});
    ProcKeeps({});
    hide Keeps, AccessProgram;
    if !o.NoFd? {
      var own := if o.access.Some? then AccessProgram(o.access.value) else [];
      if o.access.Some? { AccessKeeps(o.access.value); }
      ConcatKeeps({}, PROC, own);
      ConcatKeeps({}, PROC + own, if o.listed then PROC else []);
    }
  }

  /** On every path of every entry point locks are taken in rank order, nothing is held during a
      sleep, and nothing at the end. */
  lemma EveryCallIsOrdered(c: Call)
    ensures After({}, Program(c)) == Some({})
  {
    var sem := Hold(CountSem, false);
    EmptyKeeps({});
    EmptyKeeps({} + {sem});
    WorkKeeps({});
    hide After;
    match c
    case CheckAccess(a) => AccessKeeps(a);
    case AddGroup(linked) =>
      WorkKeeps({sem});
      var body := WORK + if linked then WORK else [];
      ConcatKeeps({sem}, WORK, if linked then WORK else []);
      assert {} + {sem} == {sem};
      UnderKeeps({}, sem, body);
    case RemoveGroup(worked, events) =>
      RemovalKeeps({sem}, events);
      assert {} + {sem} == {sem};
      UnderKeeps({}, sem, if worked then Removal(events) else []);
    case GetGroups(tries) => RepeatKeeps({}, WORK, tries);
    case OpenTracking =>
    case CloseTracking(events) => RemovalKeeps({}, events);
    case GetEvent(found, rounds, ending) =>
      RoundsKeep(rounds);
      EndKeeps(ending);
      ConcatKeeps({}, Rounds(rounds), EndProgram(ending));
      ConcatKeeps({}, WORK, if found then Rounds(rounds) + EndProgram(ending) else []);
    case Poll(found) => ConcatKeeps({}, WORK, if found then WORK else []);
    case ReturnEvent(answer) =>
      match answer {
        case Answering(e) => CountedKeeps({}, e); ConcatKeeps({}, WORK, Counted(e));
        case Reposting => ConcatKeeps({}, WORK, WORK);
        case _ => ConcatKeeps({}, WORK, []);
      }
  }

  // ---------------------------------------------------------------- any number of callers

  datatype Caller = Caller(call: Call, pc: nat)

  ghost predicate Sane(c: Caller) { c.pc <= |Program(c.call)| }

  ghost function Held(c: Caller): set<Hold>
    requires Sane(c)
  {
    PrefixIsOrdered(c);
    After({}, Program(c.call)[..c.pc]).value
  }

  lemma PrefixIsOrdered(c: Caller)
    requires Sane(c)
    ensures var p := Program(c.call);
      && After({}, p[..c.pc]).Some?
      && After(After({}, p[..c.pc]).value, p[c.pc..]) == Some({})
  {
    var p := Program(c.call);
    EveryCallIsOrdered(c.call);
    AfterConcat({}, p[..c.pc], p[c.pc..]);
    assert p[..c.pc] + p[c.pc..] == p;
  }

  ghost predicate Done(c: Caller)
    requires Sane(c)
  {
    c.pc == |Program(c.call)|
  }

  ghost function NextOp(c: Caller): Op
    requires Sane(c) && !Done(c)
  {
    Program(c.call)[c.pc]
  }

  /** What the next operation does to the locks held, and what it shows about them. */
  lemma NextHeld(c: Caller)
    requires Sane(c) && !Done(c)
    ensures var c1 := c.(pc := c.pc + 1);
      Sane(c1) && match NextOp(c)
        case Acquire(h) => Held(c1) == Held(c) + {h} && Below(Held(c), h)
        case Release(h) => Held(c1) == Held(c) - {h}
        case Touch(d) => Held(c1) == Held(c) && Guard(d) in Held(c)
        case Sleep => Held(c1) == Held(c) == {}
  {
    var p := Program(c.call);
    var held := Held(c);
    PrefixIsOrdered(c);
    var op := NextOp(c);
    assert p[..c.pc + 1] == p[..c.pc] + [op];
    AfterConcat({}, p[..c.pc], [op]);
    PrefixIsOrdered(c.(pc := c.pc + 1));
    assert [op][1..] == [];
  }

  lemma DoneHoldsNothing(c: Caller)
    requires Sane(c) && Done(c)
    ensures Held(c) == {}
  {
    PrefixIsOrdered(c);
    assert Program(c.call)[c.pc..] == [];
  }

  type Callers = map<nat, Caller>

  ghost predicate Inv(ts: Callers) {
    && (forall t | t in ts :: Sane(ts[t]))
    && (forall t, u | t in ts && u in ts && t != u :: Apart(ts[t], ts[u]))
  }

  ghost predicate Apart(c: Caller, d: Caller)
    requires Sane(c) && Sane(d)
  {
    forall g, h | g in Held(c) && h in Held(d) :: !Conflict(g, h)
  }

  ghost predicate Free(ts: Callers, t: nat, h: Hold)
    requires Inv(ts)
  {
    forall u | u in ts && u != t :: forall g | g in Held(ts[u]) :: !Conflict(g, h)
  }

  datatype Step = Start(t: nat, call: Call) | Do(t: nat) | Leave(t: nat)

  ghost predicate Enabled(ts: Callers, st: Step)
    requires Inv(ts)
  {
    match st
    case Start(t, call) => t !in ts
    case Do(t) => t in ts && !Done(ts[t]) && (NextOp(ts[t]).Acquire? ==> Free(ts, t, NextOp(ts[t]).h))
    case Leave(t) => t in ts && Done(ts[t])
  }

  function Next(ts: Callers, st: Step): Callers {
    match st
    case Start(t, call) => ts[t := Caller(call, 0)]
    case Do(t) => if t in ts then ts[t := ts[t].(pc := ts[t].pc + 1)] else ts
    case Leave(t) => ts - {t}
  }

  lemma StepKeepsInv(ts: Callers, st: Step)
    requires Inv(ts) && Enabled(ts, st)
    ensures Inv(Next(ts, st))
  {
    match st
    case Start(t, call) => StartKeepsInv(ts, t, call);
    case Do(t) => GoingOnKeepsInv(ts, t);
    case Leave(t) => hide Sane, Apart;
  }

  lemma StartKeepsInv(ts: Callers, t: nat, call: Call)
    requires Inv(ts) && t !in ts
    ensures Inv(ts[t := Caller(call, 0)])
  {
    assert Held(Caller(call, 0)) == {} by { assert Program(call)[..0] == []; }
    hide Program, Held;
  }

  lemma GoingOnKeepsInv(ts: Callers, t: nat)
    requires Inv(ts) && Enabled(ts, Do(t))
    ensures Inv(ts[t := ts[t].(pc := ts[t].pc + 1)])
  {
    NextHeld(ts[t]);
    var c1 := ts[t].(pc := ts[t].pc + 1);
    forall u | u in ts && u != t ensures Sane(ts[u]) && Apart(c1, ts[u]) && Apart(ts[u], c1) { MovesApart(ts, t, u); }
    hide Sane, Apart, Enabled;
  }

  lemma MovesApart(ts: Callers, t: nat, u: nat)
    requires Inv(ts) && Enabled(ts, Do(t)) && u in ts && u != t
    ensures var c1 := ts[t].(pc := ts[t].pc + 1);
      Sane(c1) && Sane(ts[u]) && Apart(c1, ts[u]) && Apart(ts[u], c1)
  {
    NextHeld(ts[t]);
    assert Apart(ts[t], ts[u]) && Apart(ts[u], ts[t]);
    hide Program, Held;
  }

  // ---------------------------------------------------------------- what is touched

  datatype Mark = Takes(l: Lock) | Touches(d: Data)

  type Marks = multiset<Mark>

  /** How often a path takes each lock and touches each datum. */
  function MarksOf(p: seq<Op>): Marks {
    if p == [] then multiset{}
    else
      (match p[0]
       case Acquire(h) => multiset{Takes(h.lock)}
       case Touch(d) => multiset{Touches(d)}
       case _ => multiset{})
      + MarksOf(p[1..])
  }

  function Times(m: Marks, n: nat): Marks { if n == 0 then multiset{} else m + Times(m, n - 1) }

  // one critical section that works on the groups, on the masked or ignored processes, on one event
  const LOOK: Marks := multiset{Takes(WorkMutex), Touches(Groups)}
  const MASK: Marks := multiset{Takes(ProcMutex), Touches(Masked)}
  const CHECK: Marks := multiset{Takes(IgnMutex), Touches(Ignores)}

  function Account1(e: nat): Marks { multiset{Takes(Assigned(e)), Touches(Account(e))} }

  /** One section for the groups, in which each event is unlinked and released. */
  function RemovalNeeds(events: seq<nat>): Marks { LOOK + ReleaseNeeds(events) }

  function ReleaseNeeds(events: seq<nat>): Marks {
    if events == [] then multiset{} else multiset{Touches(Groups)} + Account1(events[0]) + ReleaseNeeds(events[1..])
  }

  /** Posting is one section for the groups and the event; then the opener looks at the event's account
      whenever it wakes up, at first and at last. */
  function AccessNeeds(a: Access): Marks {
    multiset{Takes(CountSem)}
    + match a
      case NoGroups => multiset{}
      case Recursing => MASK
      case Ignored => MASK + CHECK
      case NoMemory => MASK + CHECK
      case Posted(e, sleeps) => MASK + CHECK + LOOK + Times(Account1(e), sleeps + 3)
  }

  function OpenNeeds(o: Opened): Marks {
    if o.NoFd? then multiset{}
    else MASK + (if o.access.Some? then AccessNeeds(o.access.value) else multiset{}) + if o.listed then MASK else multiset{}
  }

  function LooksIn(rounds: seq<seq<bool>>): nat { if rounds == [] then 0 else |rounds[0]| + 1 + LooksIn(rounds[1..]) }

  function EndNeeds(e: Ending): Marks {
    match e
    case NotClaimed(looks) => Times(LOOK, |looks|)
    case Claimed(o) => OpenNeeds(o) + if o.OpenOk? then multiset{} else LOOK
  }

  /** What an entry point works on, and in how many sections: a search for a group, a scan, a link, a claim
      and an unlinking are one section each, a removal with all its releases is one. */
  function Needs(c: Call): Marks {
    match c
    case CheckAccess(a) => AccessNeeds(a)
    case AddGroup(linked) => multiset{Takes(CountSem)} + Times(LOOK, if linked then 2 else 1)
    case RemoveGroup(worked, events) => multiset{Takes(CountSem)} + if worked then RemovalNeeds(events) else multiset{}
    case GetGroups(tries) => Times(LOOK, tries)
    case OpenTracking => LOOK
    case CloseTracking(events) => RemovalNeeds(events)
    case GetEvent(found, rounds, ending) =>
      LOOK + if found then Times(LOOK, LooksIn(rounds)) + EndNeeds(ending) else multiset{}
    case Poll(found) => Times(LOOK, if found then 2 else 1)
    case ReturnEvent(answer) =>
      LOOK + match answer
             case Answering(e) => Account1(e)
             case Reposting => LOOK
             case _ => multiset{}
  }

  lemma {:induction false} MarksConcat(p: seq<Op>, q: seq<Op>)
    ensures MarksOf(p + q) == MarksOf(p) + MarksOf(q)
  {
    if p == [] {
      assert p + q == q;
    } else {
      assert (p + q)[0] == p[0] && (p + q)[1..] == p[1..] + q;
      MarksConcat(p[1..], q);
    }
  }

  lemma MarksOfOne(op: Op)
    ensures MarksOf([op]) == if op.Acquire? then multiset{Takes(op.h.lock)} else if op.Touch? then multiset{Touches(op.d)} else multiset{}
  {
    assert [op][1..] == [];
  }

  lemma MarksUnder(h: Hold, body: seq<Op>)
    ensures MarksOf(Under(h, body)) == multiset{Takes(h.lock)} + MarksOf(body)
  {
    MarksOfOne(Acquire(h));
    MarksOfOne(Release(h));
    MarksConcat([Acquire(h)], body);
    MarksConcat([Acquire(h)] + body, [Release(h)]);
    hide MarksOf;
  }

  lemma {:induction false} MarksRepeat(p: seq<Op>, n: nat)
    ensures MarksOf(Repeat(p, n)) == Times(MarksOf(p), n)
  {
    if n > 0 {
      MarksRepeat(p, n - 1);
      MarksConcat(p, Repeat(p, n - 1));
    }
  }

  lemma {:induction false} TimesSum(m: Marks, n: nat, k: nat)
    ensures Times(m, n + k) == Times(m, n) + Times(m, k)
  {
    if n > 0 { TimesSum(m, n - 1, k); }
  }

  lemma SmallTimes(m: Marks)
    ensures Times(m, 1) == m && Times(m, 2) == m + m && Times(m, 0) == multiset{}
  {
    assert Times(m, 0) == multiset{};
  }

  lemma MarksSection(l: Lock, d: Data)
    ensures MarksOf(Under(Mutex(l), [Touch(d)])) == multiset{Takes(l), Touches(d)}
  {
    MarksOfOne(Touch(d));
    MarksUnder(Mutex(l), [Touch(d)]);
    hide MarksOf, Under;
  }

  lemma MarksSections()
    ensures MarksOf([]) == multiset{} && MarksOf([Sleep]) == multiset{}
    ensures MarksOf(WORK) == LOOK && MarksOf(PROC) == MASK && MarksOf(IGN) == CHECK
  {
    MarksOfOne(Sleep);
    MarksSection(WorkMutex, Groups);
    MarksSection(ProcMutex, Masked);
    MarksSection(IgnMutex, Ignores);
    hide Under;
  }

  lemma MarksCounted(e: nat)
    ensures MarksOf(Counted(e)) == Account1(e)
  {
    MarksSection(Assigned(e), Account(e));
    hide MarksOf, Under;
  }

  lemma MarksPosting(e: nat)
    ensures MarksOf(Posting(e)) == LOOK + Account1(e)
  {
    PostingIs(e);
    hide *;
    var both := [Touch(Account(e))] + [Touch(Groups)];
    MarksOfOne(Touch(Account(e)));
    MarksOfOne(Touch(Groups));
    MarksConcat([Touch(Account(e))], [Touch(Groups)]);
    MarksUnder(Mutex(Assigned(e)), both);
    MarksUnder(Mutex(WorkMutex), Under(Mutex(Assigned(e)), both));
    PostingMarks(e);
  }

  lemma PostingIs(e: nat)
    ensures Posting(e) == Under(Mutex(WorkMutex), Under(Mutex(Assigned(e)), [Touch(Account(e))] + [Touch(Groups)]))
    ensures forall l :: Mutex(l).lock == l
  {
    assert [Touch(Account(e))] + [Touch(Groups)] == [Touch(Account(e)), Touch(Groups)];
    hide Under;
  }

  lemma PostingMarks(e: nat)
    ensures multiset{Takes(WorkMutex)} + (multiset{Takes(Assigned(e))} + (multiset{Touches(Account(e))} + multiset{Touches(Groups)}))
         == LOOK + Account1(e)
  {
  }

  lemma {:induction false} MarksReleases(events: seq<nat>)
    ensures MarksOf(ReleaseAll(events)) == ReleaseNeeds(events)
  {
    if events != [] {
      MarksOfOne(Touch(Groups));
      MarksCounted(events[0]);
      MarksReleases(events[1..]);
      MarksConcat([Touch(Groups)], Counted(events[0]));
      MarksConcat([Touch(Groups)] + Counted(events[0]), ReleaseAll(events[1..]));
    }
    hide MarksOf, Counted;
  }

  lemma MarksRemoval(events: seq<nat>)
    ensures MarksOf(Removal(events)) == RemovalNeeds(events)
  {
    MarksOfOne(Touch(Groups));
    MarksReleases(events);
    MarksConcat([Touch(Groups)], ReleaseAll(events));
    MarksUnder(Mutex(WorkMutex), [Touch(Groups)] + ReleaseAll(events));
    hide MarksOf, Under, ReleaseAll;
  }

  lemma TwoMore(m: Marks, n: nat)
    ensures m + Times(m, n) + m == Times(m, n + 2)
    ensures m + Times(m, n) == Times(m, n + 1)
  {
    hide *;
    TimesSum(m, n, 2);
    TimesSum(m, n, 1);
    SmallTimes(m);
  }

  lemma MarksSleepThen(p: seq<Op>)
    ensures MarksOf([Sleep] + p) == MarksOf(p)
  {
    hide *;
    MarksSections();
    MarksConcat([Sleep], p);
  }

  lemma MarksOutside(e: nat, sleeps: nat)
    ensures MarksOf(Counted(e) + Repeat([Sleep] + Counted(e), sleeps) + Counted(e)) == Times(Account1(e), sleeps + 2)
  {
    hide *;
    var looks := Repeat([Sleep] + Counted(e), sleeps);
    MarksCounted(e);
    MarksSleepThen(Counted(e));
    MarksRepeat([Sleep] + Counted(e), sleeps);
    MarksConcat(Counted(e), looks);
    MarksConcat(Counted(e) + looks, Counted(e));
    TwoMore(Account1(e), sleeps);
  }

  lemma MarksAccess(a: Access)
    ensures MarksOf(AccessProgram(a)) == AccessNeeds(a)
  {
    if a.Posted? {
      MarksPosted(a.e, a.sleeps);
    } else {
      var inside := if a.NoGroups? then [] else if a.Recursing? then PROC else PROC + IGN;
      assert AccessProgram(a) == Under(Hold(CountSem, true), inside);
      MarksSections();
      MarksConcat(PROC, IGN);
      MarksUnder(Hold(CountSem, true), inside);
      hide MarksOf, Under, AccessProgram;
    }
    hide *;
  }

  lemma MarksPosted(e: nat, sleeps: nat)
    ensures MarksOf(AccessProgram(Posted(e, sleeps))) == AccessNeeds(Posted(e, sleeps))
  {
    hide *;
    PostedIs(e, sleeps);
    var outside := Counted(e) + Repeat([Sleep] + Counted(e), sleeps) + Counted(e);
    MarksInside(e);
    MarksOutside(e, sleeps);
    MarksUnder(Hold(CountSem, true), PROC + IGN + Posting(e));
    MarksConcat(Under(Hold(CountSem, true), PROC + IGN + Posting(e)), outside);
    TwoMore(Account1(e), sleeps + 2);
    Regroup(multiset{Takes(CountSem)}, MASK + CHECK, LOOK, Account1(e), Times(Account1(e), sleeps + 2));
  }

  lemma PostedIs(e: nat, sleeps: nat)
    ensures AccessProgram(Posted(e, sleeps))
         == Under(Hold(CountSem, true), PROC + IGN + Posting(e))
            + (Counted(e) + Repeat([Sleep] + Counted(e), sleeps) + Counted(e))
    ensures AccessNeeds(Posted(e, sleeps)) == multiset{Takes(CountSem)} + (MASK + CHECK + LOOK + Times(Account1(e), sleeps + 3))
  {
    hide Counted, Posting, Repeat, Times, Account1, Under;
  }

  lemma MarksInside(e: nat)
    ensures MarksOf(PROC + IGN + Posting(e)) == MASK + CHECK + (LOOK + Account1(e))
  {
    hide *;
    MarksSections();
    MarksConcat(PROC, IGN);
    MarksPosting(e);
    MarksConcat(PROC + IGN, Posting(e));
  }

  lemma Regroup(x: Marks, y: Marks, z: Marks, a: Marks, t: Marks)
    ensures x + (y + (z + a)) + t == x + (y + z + (a + t))
  {
  }

  lemma {:induction false} MarksLooks(looks: seq<bool>)
    ensures MarksOf(Looks(looks)) == Times(LOOK, |looks|)
  {
    if looks == [] {
      MarksSections();
      SmallTimes(LOOK);
    } else {
      var nap := if looks[0] then [Sleep] else [];
      assert Looks(looks) == nap + WORK + Looks(looks[1..]);
      hide *;
      MarksSections();
      MarksConcat(nap, WORK);
      MarksLooks(looks[1..]);
      MarksConcat(nap + WORK, Looks(looks[1..]));
      TwoMore(LOOK, |looks| - 1);
    }
  }

  lemma {:induction false} MarksRounds(rounds: seq<seq<bool>>)
    ensures MarksOf(Rounds(rounds)) == Times(LOOK, LooksIn(rounds))
  {
    hide *;
    RoundsAre(rounds);
    if rounds == [] {
      MarksSections();
      SmallTimes(LOOK);
    } else {
      MarksRounds(rounds[1..]);
      MarksRound(rounds[0], Rounds(rounds[1..]));
      TimesRound(|rounds[0]|, LooksIn(rounds[1..]));
    }
  }

  lemma RoundsAre(rounds: seq<seq<bool>>)
    ensures rounds == [] ==> Rounds(rounds) == [] && LooksIn(rounds) == 0
    ensures rounds != [] ==>
              && Rounds(rounds) == Looks(rounds[0]) + WORK + Rounds(rounds[1..])
              && LooksIn(rounds) == |rounds[0]| + 1 + LooksIn(rounds[1..])
  {
    hide Looks;
  }

  lemma MarksRound(looks: seq<bool>, rest: seq<Op>)
    ensures MarksOf(Looks(looks) + WORK + rest) == Times(LOOK, |looks|) + LOOK + MarksOf(rest)
  {
    hide *;
    MarksSections();
    MarksLooks(looks);
    MarksConcat(Looks(looks), WORK);
    MarksConcat(Looks(looks) + WORK, rest);
  }

  lemma TimesRound(n: nat, m: nat)
    ensures Times(LOOK, n) + LOOK + Times(LOOK, m) == Times(LOOK, n + 1 + m)
  {
    hide *;
    SmallTimes(LOOK);
    TimesSum(LOOK, n, 1);
    TimesSum(LOOK, n + 1, m);
  }

  lemma MarksOpen(o: Opened)
    ensures MarksOf(OpenProgram(o)) == OpenNeeds(o)
  {
    MarksSections();
    if !o.NoFd? {
      var own := if o.access.Some? then AccessProgram(o.access.value) else [];
      if o.access.Some? { MarksAccess(o.access.value); }
      MarksConcat(PROC, own);
      MarksConcat(PROC + own, if o.listed then PROC else []);
    }
    hide MarksOf, AccessProgram, Under;
  }

  lemma MarksEnd(e: Ending)
    ensures MarksOf(EndProgram(e)) == EndNeeds(e)
  {
    MarksSections();
    match e
    case NotClaimed(looks) => MarksLooks(looks);
    case Claimed(o) =>
      MarksOpen(o);
      MarksConcat(OpenProgram(o), if o.OpenOk? then [] else WORK);
      hide MarksOf, OpenProgram;
  }

  /** Every entry point takes the locks and touches the data that it needs, each as often as it needs. */
  lemma EveryCallTouches(c: Call)
    ensures MarksOf(Program(c)) == Needs(c)
  {
    MarksSections();
    SmallTimes(LOOK);
    hide MarksOf, Under, Counted, Times;
    match c
    case CheckAccess(a) => MarksAccess(a);
    case AddGroup(linked) =>
      MarksConcat(WORK, if linked then WORK else []);
      MarksUnder(Hold(CountSem, false), WORK + if linked then WORK else []);
    case RemoveGroup(worked, events) =>
      MarksRemoval(events);
      MarksUnder(Hold(CountSem, false), if worked then Removal(events) else []);
    case GetGroups(tries) => MarksRepeat(WORK, tries);
    case OpenTracking =>
    case CloseTracking(events) => MarksRemoval(events);
    case GetEvent(found, rounds, ending) =>
      MarksRounds(rounds);
      MarksEnd(ending);
      MarksConcat(Rounds(rounds), EndProgram(ending));
      MarksConcat(WORK, if found then Rounds(rounds) + EndProgram(ending) else []);
    case Poll(found) => MarksConcat(WORK, if found then WORK else []);
    case ReturnEvent(answer) =>
      if answer.Answering? { MarksCounted(answer.e); }
      MarksConcat(WORK, match answer case Answering(e) => Counted(e) case Reposting => WORK case _ => []);
  }

  /** Wherever something is touched, its lock is held. */
  lemma TouchesAreGuarded(c: Caller)
    requires Sane(c) && !Done(c) && NextOp(c).Touch?
    ensures Guard(NextOp(c).d) in Held(c)
  {
    NextHeld(c);
  }

  ghost predicate Touching(ts: Callers, t: nat, d: Data)
    requires Inv(ts)
  {
    t in ts && !Done(ts[t]) && NextOp(ts[t]) == Touch(d)
  }

  /** In every state that callers can reach, no two of them are about to touch the same. */
  lemma NoTwoTouch(ts: Callers, run: seq<Step>, t: nat, u: nat, d: Data)
    requires Inv(ts) && Legal(ts, run)
    ensures Inv(Final(ts, run))
    ensures Touching(Final(ts, run), t, d) && Touching(Final(ts, run), u, d) ==> t == u
  {
    RunsNeverLockUp(ts, run);
    var end := Final(ts, run);
    hide Final, Legal, Held, NextOp, Done;
    if Touching(end, t, d) && Touching(end, u, d) && t != u { OneTouches(end, t, u, d); }
  }

  lemma OneTouches(ts: Callers, t: nat, u: nat, d: Data)
    requires Inv(ts) && Touching(ts, t, d) && Touching(ts, u, d)
    ensures t == u
  {
    TouchesAreGuarded(ts[t]);
    TouchesAreGuarded(ts[u]);
    assert Conflict(Guard(d), Guard(d));
    hide Program, Held;
    if t != u { NotApart(ts[t], ts[u], d); }
  }

  lemma NotApart(c: Caller, d: Caller, x: Data)
    requires Sane(c) && Sane(d) && Guard(x) in Held(c) && Guard(x) in Held(d)
    ensures !Apart(c, d)
  {
    assert Conflict(Guard(x), Guard(x));
    hide Held;
  }

  // ---------------------------------------------------------------- nobody locks anybody out

  /** Caller `t` cannot go on before `u` has released something. */
  ghost predicate WaitsFor(ts: Callers, t: nat, u: nat)
    requires Inv(ts)
  {
    && t in ts && u in ts && t != u && !Done(ts[t]) && NextOp(ts[t]).Acquire?
    && exists g :: g in Held(ts[u]) && Conflict(g, NextOp(ts[t]).h)
  }

  /** The rank of the lock that `t` is about to take, or -1. */
  ghost function Wanted(ts: Callers, t: nat): int
    requires Inv(ts)
  {
    if t in ts && !Done(ts[t]) && NextOp(ts[t]).Acquire? then Rank(NextOp(ts[t]).h.lock) else -1
  }

  lemma WaitingClimbs(ts: Callers, t: nat, u: nat, v: nat)
    requires Inv(ts) && WaitsFor(ts, t, u) && WaitsFor(ts, u, v)
    ensures Wanted(ts, t) < Wanted(ts, u)
  {
    NextHeld(ts[u]);
  }

  ghost predicate Chain(ts: Callers, chain: seq<nat>)
    requires Inv(ts)
  {
    |chain| >= 2 && forall i | 0 <= i < |chain| - 1 :: WaitsFor(ts, chain[i], chain[i + 1])
  }

  lemma ChainTail(ts: Callers, chain: seq<nat>)
    requires Inv(ts) && Chain(ts, chain) && |chain| >= 3
    ensures WaitsFor(ts, chain[0], chain[1]) && WaitsFor(ts, chain[1], chain[2]) && Chain(ts, chain[1..])
  {
  }

  lemma {:induction false} ChainClimbs(ts: Callers, chain: seq<nat>)
    requires Inv(ts) && Chain(ts, chain) && |chain| >= 3
    ensures Wanted(ts, chain[0]) < Wanted(ts, chain[|chain| - 2])
  {
    hide *;
    ChainTail(ts, chain);
    WaitingClimbs(ts, chain[0], chain[1], chain[2]);
    if |chain| > 3 { ChainClimbs(ts, chain[1..]); }
  }

  /** No chain of callers waiting for one another comes back to where it began. */
  lemma NoCyclicWait(ts: Callers, chain: seq<nat>)
    requires Inv(ts) && Chain(ts, chain)
    ensures chain[0] != chain[|chain| - 1]
  {
    var n := |chain| - 1;
    assert WaitsFor(ts, chain[0], chain[1]) && WaitsFor(ts, chain[n - 1], chain[n]);
    if chain[0] == chain[n] && n > 1 {
      ChainClimbs(ts, chain);
      WaitingClimbs(ts, chain[n - 1], chain[0], chain[1]);
    }
  }

  lemma Blocked(ts: Callers, u: nat) returns (w: nat)
    requires Inv(ts) && u in ts && !Done(ts[u]) && NextOp(ts[u]).Acquire? && !Free(ts, u, NextOp(ts[u]).h)
    ensures WaitsFor(ts, u, w)
  {
    w :| w in ts && w != u && exists g :: g in Held(ts[w]) && Conflict(g, NextOp(ts[u]).h);
  }

  lemma HolderGoesOn(ts: Callers, t: nat, u: nat)
    requires Inv(ts) && WaitsFor(ts, t, u)
    ensures Held(ts[u]) != {} && !Done(ts[u]) && !NextOp(ts[u]).Sleep?
  {
    if Done(ts[u]) { DoneHoldsNothing(ts[u]); } else { NextHeld(ts[u]); }
  }

  lemma KnownCaller(ts: Callers, t: nat, u: nat)
    requires Inv(ts) && WaitsFor(ts, t, u)
    ensures u in ts && Sane(ts[u]) && Wanted(ts, t) <= 4
  {
    hide Program, Held, NextOp;
  }

  /** Whoever waits for a lock, somebody who holds one can take a step at once and is not asleep. */
  lemma {:induction false} SomeHolderRuns(ts: Callers, t: nat, u: nat) returns (v: nat)
    requires Inv(ts) && WaitsFor(ts, t, u)
    ensures v in ts && Held(ts[v]) != {} && Enabled(ts, Do(v)) && !NextOp(ts[v]).Sleep?
    decreases 5 - Wanted(ts, t)
  {
    hide Inv, WaitsFor, Held, Free, NextOp, Done, Wanted, Program;
    HolderGoesOn(ts, t, u);
    KnownCaller(ts, t, u);
    if NextOp(ts[u]).Acquire? && !Free(ts, u, NextOp(ts[u]).h) {
      var w := Blocked(ts, u);
      WaitingClimbs(ts, t, u, w);
      v := SomeHolderRuns(ts, u, w);
    } else {
      v := u;
    }
  }

  /** A run of callers starting, going on and leaving. */
  ghost predicate Legal(ts: Callers, run: seq<Step>)
    requires Inv(ts)
    decreases |run|
  {
    run == [] || (Enabled(ts, run[0]) && (StepKeepsInv(ts, run[0]); Legal(Next(ts, run[0]), run[1..])))
  }

  ghost function Final(ts: Callers, run: seq<Step>): Callers
    requires Inv(ts) && Legal(ts, run)
    decreases |run|
  {
    if run == [] then ts
    else
      StepKeepsInv(ts, run[0]);
      Final(Next(ts, run[0]), run[1..])
  }

  /** In every state that any number of callers can reach, no two of them hold a lock they must not
      share, and no chain of waiting callers closes. */
  lemma {:induction false} RunsNeverLockUp(ts: Callers, run: seq<Step>)
    requires Inv(ts) && Legal(ts, run)
    ensures Inv(Final(ts, run))
    ensures forall chain | Chain(Final(ts, run), chain) :: chain[0] != chain[|chain| - 1]
    decreases |run|
  {
    if run == [] {
      forall chain | Chain(ts, chain) ensures chain[0] != chain[|chain| - 1] { NoCyclicWait(ts, chain); }
    } else {
      StepKeepsInv(ts, run[0]);
      RunsNeverLockUp(Next(ts, run[0]), run[1..]);
    }
  }
}
