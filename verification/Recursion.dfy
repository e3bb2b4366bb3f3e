/** The list of masked processes (event.c): opening a file for a registered process must not ask the
    registered processes again. An entry lives on the stack of `open_file`. */
module Recursion {
  import opened Kernel

  type Pid = nat

  /** Where a process is: inside `open_file` and masked, or inside it and found already. */
  datatype Phase = Masked | Found

  datatype Procs = Procs(list: seq<Pid>, inside: map<Pid, Phase>)

  /** `check_recursion`: the first entry of the process leaves the list; the result tells whether
      there was one. */
  function CheckRecursion(list: seq<Pid>, p: Pid): (seq<Pid>, bool) { (Without(list, p), p in list) }

  datatype Step = Mask(p: Pid) | Access(p: Pid) | Unmask(p: Pid)

  predicate Enabled(s: Procs, st: Step) {
    match st
    case Mask(p) => p !in s.inside
    case Access(p) => true
    case Unmask(p) => p in s.inside
  }

  /** Any process may open files at any time; one inside `open_file` does so through `dentry_open`. */
  function Next(s: Procs, st: Step): Procs {
    match st
    case Mask(p) => Procs([p] + s.list, s.inside[p := Masked])
    case Access(p) =>
      var (l, found) := CheckRecursion(s.list, p);
      Procs(l, if found then s.inside[p := Found] else s.inside)
    case Unmask(p) =>
      // only an entry still within the list is looked for
      var l := if p in s.inside && s.inside[p].Masked? then CheckRecursion(s.list, p).0 else s.list;
      Procs(l, s.inside - {p})
  }

  ghost predicate Inv(s: Procs) {
    NoDup(s.list) && forall p :: p in s.list <==> p in s.inside && s.inside[p].Masked?
  }

  lemma StepKeepsInv(s: Procs, st: Step)
    requires Inv(s) && Enabled(s, st)
    ensures Inv(Next(s, st))
  {
  }

  ghost predicate Legal(s: Procs, run: seq<Step>)
    decreases |run|
  {
    run == [] || (Enabled(s, run[0]) && Legal(Next(s, run[0]), run[1..]))
  }

  ghost function After(s: Procs, run: seq<Step>): Procs
    decreases |run|
  {
    if run == [] then s else After(Next(s, run[0]), run[1..])
  }

  /** In every reachable state an access goes unchecked exactly for a process inside `open_file`
      whose entry has not been used, and no entry is left behind by a process that has come out. */
  lemma {:induction false} OnlyMaskedAccessesAreSkipped(s: Procs, run: seq<Step>, p: Pid)
    requires Inv(s) && Legal(s, run)
    ensures var t := After(s, run);
      && (CheckRecursion(t.list, p).1 <==> p in t.inside && t.inside[p].Masked?)
      && p !in CheckRecursion(t.list, p).0
      && (p !in t.inside ==> p !in t.list)
    decreases |run|
  {
    if run != [] {
      StepKeepsInv(s, run[0]);
      OnlyMaskedAccessesAreSkipped(Next(s, run[0]), run[1..], p);
    }
  }

  class ProcList {
    var list: seq<Pid>

    constructor ()
      ensures list == []
    {
      list := [];
    }

    /** `check_recursion`; true when the access is to be handled. */
    method Check(p: Pid) returns (handle: bool)
      modifies this
      ensures (list, !handle) == CheckRecursion(old(list), p)
    {
      var i := 0;
      while i < |list|
        invariant i <= |list| && list == old(list) && p !in list[..i]
      {
        if list[i] == p {
          FirstEntry(list, i);
          list := list[..i] + list[i + 1..];
          return false;
        }
        i := i + 1;
      }
      handle := true;
    }

    /** `mask_proc`. */
    method Mask(p: Pid)
      modifies this
      ensures list == [p] + old(list)
    {
      list := [p] + list;
    }
  }

  lemma FirstEntry(s: seq<Pid>, i: nat)
    requires i < |s| && s[i] !in s[..i]
    ensures Without(s, s[i]) == s[..i] + s[i + 1..]
  {
  }
}
