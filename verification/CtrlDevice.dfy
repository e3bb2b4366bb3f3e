/** Writing to the control device (ctrl_dev.c): the buffer, the pointers that walk over it, and how far
    they walk. */
module CtrlDevice {
  import opened Kernel
  import opened CText
  import opened Messages
  import opened Control

  /** Where the scan over a name ends: past the terminator, if the name reaches that. */
  ghost predicate StopsAt(m: seq<char>, p: nat, p2: nat) {
    && p <= p2 < |m| && !IsValidChar(m[p2])
    && (forall k | p <= k < p2 :: IsValidChar(m[k]))
  }

  lemma {:induction false} NameRunIs(s: string, n: nat)
    requires n <= |s| && IsName(s[..n]) && (n < |s| ==> !Allowed(s[n]))
    ensures NameRun(s) == n
  {
    if n > 0 {
      assert s[0] == s[..n][0];
      assert s[1..][..n - 1] == s[..n][1..];
      NameRunIs(s[1..], n - 1);
    }
  }

  lemma NameInside(m: seq<char>, s: string, p: nat, p2: nat)
    requires Holds(m, s) && p <= |s| && StopsAt(m, p, p2)
    ensures p <= p2 < |m| && p2 != |s|
    ensures NameRun(s[p..]) == (if p2 < |s| then p2 else |s|) - p
  {
    var n := (if p2 < |s| then p2 else |s|) - p;
    forall i | 0 <= i < n ensures Allowed(s[p..][..n][i]) {
      assert m[..|s|][p + i] == s[p + i] == m[p + i];
    }
    if p + n < |s| { assert m[..|s|][p2] == s[p2]; }
    NameRunIs(s[p..], n);
  }

  /** The handler sees the name as a string of its own, whichever comes first. */
  lemma NameSeen(m: seq<char>, s: string, p: nat, p2: nat)
    requires Holds(m, s) && p <= |s| && StopsAt(m, p, p2)
    ensures CStr(m[p2 := NUL][p..]) == s[p..p + NameRun(s[p..])]
    ensures CStr(m[p2 := ' ']) == if p2 < |s| then s[p2 := ' '] else s
  {
    hide NameRun, Allowed, CStr, StopsAt;
    NameInside(m, s, p, p2);
    NotAllowed();
    NameAlone(m, s, p, p2, NameRun(s[p..]));
    BlankLeft(m, s, p2);
  }

  lemma NameAlone(m: seq<char>, s: string, p: nat, p2: nat, n: nat)
    requires Holds(m, s) && p <= |s| && p <= p2 < |m| && p2 != |s| && n == (if p2 < |s| then p2 else |s|) - p
    ensures CStr(m[p2 := NUL][p..]) == s[p..p + n]
  {
    hide CStr;
    forall i | 0 <= i < |s| ensures s[i] == m[i] { assert m[..|s|][i] == m[i]; }
    var name, at := s[p..p + n], m[p2 := NUL][p..];
    assert at[..n] == name && at[n] == NUL;
    HoldsIsCStr(at, name);
  }

  lemma BlankLeft(m: seq<char>, s: string, p2: nat)
    requires Holds(m, s) && p2 < |m| && p2 != |s|
    ensures CStr(m[p2 := ' ']) == if p2 < |s| then s[p2 := ' '] else s
  {
    hide CStr;
    forall i | 0 <= i < |s| ensures s[i] == m[i] { assert m[..|s|][i] == m[i]; }
    var left := if p2 < |s| then s[p2 := ' '] else s;
    assert m[p2 := ' '][..|s|] == left;
    HoldsIsCStr(m[p2 := ' '], left);
  }

  /** A character that stops every scan there can be: it is not valid, and every key in the text ends
      at or before it. */
  ghost predicate Stopper(m: seq<char>, l: nat) {
    && l < |m| && !IsValidChar(m[l]) && Holds(m, CStr(m))
    && forall c: Cmd, i | MatchAt(CStr(m), i, Key(c)) :: i + |Key(c)| <= l
  }

  lemma StopperHolds(m: seq<char>, l: nat)
    requires Stopper(m, l)
    ensures Holds(m, CStr(m)) && l < |m|
  {
  }

  /** What the pointers of `process_command` find is what `Lookup` says. */
  lemma Carried(m: seq<char>, c: Cmd, i: nat, p2: nat, l: nat)
    requires Stopper(m, l) && Find(CStr(m), Key(c)) == Some(i) && StopsAt(m, i + |Key(c)|, p2)
    ensures var p := i + |Key(c)|;
      && (p == p2 ==> Lookup(CStr(m), Key(c)) == (NoName, CStr(m)))
      && (p != p2 ==>
            && Stopper(m[p2 := ' '], l)
            && Lookup(CStr(m), Key(c)) == (Call(CStr(m[p2 := NUL][p..])), CStr(m[p2 := ' '])))
  {
    hide Stopper, Holds, CStr, Find, StopsAt, NameRun, Lookup, Key;
    StopperHolds(m, l);
    var s, key := CStr(m), Key(c);
    LookupAt(s, key, i);
    NameInside(m, s, i + |key|, p2);
    NameSeen(m, s, i + |key|, p2);
    if i + |key| != p2 { StopperKept(m, p2, l); }
  }

  lemma LookupAt(s: string, key: string, i: nat)
    requires Find(s, key) == Some(i)
    ensures i + |key| <= |s| && Lookup(s, key) == NameAt(s, i + |key|)
  {
    hide Find, NameAt;
  }

  lemma NotFound(s: string, key: string)
    requires Find(s, key) == None
    ensures Lookup(s, key) == (NoKey, s)
  {
  }

  /** A blank written into the buffer makes no new key. */
  lemma StopperKept(m: seq<char>, p2: nat, l: nat)
    requires Stopper(m, l) && p2 < |m| && |CStr(m)| != p2
    requires CStr(m[p2 := ' ']) == if p2 < |CStr(m)| then CStr(m)[p2 := ' '] else CStr(m)
    ensures Stopper(m[p2 := ' '], l)
  {
    NotAllowed();
    var s, s1 := CStr(m), CStr(m[p2 := ' ']);
    HoldsIsCStr(m[p2 := ' '], s1);
    hide CStr, Allowed;
    forall c: Cmd, i | MatchAt(s1, i, Key(c)) ensures i + |Key(c)| <= l { KeyWasThere(s, s1, p2, c, i); }
  }

  /** The loop over the name; `l` bounds it. */
  method ScanName(m: array<char>, p: nat, ghost l: nat) returns (p2: nat)
    requires p <= l < m.Length && !IsValidChar(m[l])
    ensures StopsAt(m[..], p, p2) && p2 <= l
  {
    p2 := p;
    while IsValidChar(m[p2])
      invariant p <= p2 <= l && forall k | p <= k < p2 :: IsValidChar(m[k])
      decreases l - p2
    {
      p2 := p2 + 1;
    }
  }

  function Put(m: seq<char>, i: nat, c: char): seq<char>
    requires i < |m|
  {
    m[i := c]
  }

  /** The name that the handler sees. */
  function NameAtStop(m: seq<char>, p: nat, p2: nat): string
    requires p <= p2 < |m|
  {
    CStr(Put(m, p2, NUL)[p..])
  }

  /** The handler is called with the name terminated, and the terminator then overwritten. */
  method CallHandler(m: array<char>, c: Cmd, p: nat, p2: nat, handler: (Cmd, string) -> int) returns (ret: int, name: string)
    requires p <= p2 < m.Length
    modifies m
    ensures m[..] == Put(old(m[..]), p2, ' ')
    ensures name == NameAtStop(old(m[..]), p, p2) && ret == handler(c, name)
  {
    m[p2] := NUL;
    assert m[..] == old(m[..])[p2 := NUL];
    name := CStr(m[..][p..]);
    ret := handler(c, name);
    m[p2] := ' ';
  }

  /** What one command comes to: the text left, and the handler called with its result. */
  ghost predicate CarriedOut(s: string, s1: string, c: Cmd, handler: (Cmd, string) -> int,
                             found: bool, ret: int, call: Option<string>)
  {
    && s1 == Lookup(s, Key(c)).1
    && match Lookup(s, Key(c)).0
       case NoKey => !found && call == None
       case NoName => found && call == None && ret == -EINVAL
       case Call(name) => found && call == Some(name) && ret == handler(c, name)
  }

  /** At most one byte is another one afterwards: a blank where a scan stopped, at `l` or before it. */
  ghost predicate OneBlank(m: seq<char>, m1: seq<char>, l: nat) {
    m1 == m || exists p: nat, p2: nat :: StopsAt(m, p, p2) && p2 <= l && m1 == m[p2 := ' ']
  }

  lemma BlankAtStop(m: seq<char>, p: nat, p2: nat, l: nat)
    requires StopsAt(m, p, p2) && p2 <= l
    ensures OneBlank(m, m[p2 := ' '], l)
  {
  }

  lemma KeyEndsBefore(m: seq<char>, c: Cmd, at: nat, l: nat)
    requires Stopper(m, l) && Find(CStr(m), Key(c)) == Some(at)
    ensures at + |Key(c)| <= l < |m| && !IsValidChar(m[l])
  {
    FindIsFirst(CStr(m), Key(c));
  }

  /** The part of `process_command` after the key has been found at `at`. */
  method RunCommand(m: array<char>, c: Cmd, at: nat, handler: (Cmd, string) -> int, ghost l: nat)
    returns (ret: int, call: Option<string>)
    requires Stopper(m[..], l) && Find(CStr(m[..]), Key(c)) == Some(at)
    modifies m
    ensures Stopper(m[..], l) && OneBlank(old(m[..]), m[..], l)
    ensures CarriedOut(old(CStr(m[..])), CStr(m[..]), c, handler, true, ret, call)
  {
    ghost var before := m[..];
    KeyEndsBefore(before, c, at, l);
    hide *;
    var p := at + |Key(c)|;
    var p2 := ScanName(m, p, l);
    if p == p2 {
      Unchanged(before, c, at, handler, l);
      return -EINVAL, None;
    }
    ret, call := CallFound(m, c, at, p2, handler, l);
  }

  /** The part after the scan, with a name to hand over. */
  method CallFound(m: array<char>, c: Cmd, at: nat, p2: nat, handler: (Cmd, string) -> int, ghost l: nat)
    returns (ret: int, call: Option<string>)
    requires Stopper(m[..], l) && Find(CStr(m[..]), Key(c)) == Some(at)
    requires StopsAt(m[..], at + |Key(c)|, p2) && p2 <= l && p2 != at + |Key(c)|
    modifies m
    ensures Stopper(m[..], l) && OneBlank(old(m[..]), m[..], l)
    ensures CarriedOut(old(CStr(m[..])), CStr(m[..]), c, handler, true, ret, call)
  {
    hide *;
    ghost var before := m[..];
    var p := at + |Key(c)|;
    StopIsInside(before, p, p2);
    var name;
    ret, name := CallHandler(m, c, p, p2, handler);
    CallCarriesOut(before, c, at, p2, l, handler);
    call := Some(name);
  }

  lemma StopIsInside(m: seq<char>, p: nat, p2: nat)
    requires StopsAt(m, p, p2)
    ensures p <= p2 < |m|
  {
  }

  lemma Unchanged(m: seq<char>, c: Cmd, at: nat, handler: (Cmd, string) -> int, l: nat)
    requires Stopper(m, l) && Find(CStr(m), Key(c)) == Some(at) && StopsAt(m, at + |Key(c)|, at + |Key(c)|)
    ensures Stopper(m, l) && OneBlank(m, m, l) && CarriedOut(CStr(m), CStr(m), c, handler, true, -EINVAL, None)
  {
    Carried(m, c, at, at + |Key(c)|, l);
    hide Stopper, CStr, Find, StopsAt, Lookup, Key;
  }

  lemma CallCarriesOut(m: seq<char>, c: Cmd, at: nat, p2: nat, l: nat, handler: (Cmd, string) -> int)
    requires Stopper(m, l) && Find(CStr(m), Key(c)) == Some(at) && StopsAt(m, at + |Key(c)|, p2) && p2 <= l && p2 != at + |Key(c)|
    ensures at + |Key(c)| <= p2 < |m|
    ensures var name := NameAtStop(m, at + |Key(c)|, p2);
      && Stopper(Put(m, p2, ' '), l) && OneBlank(m, Put(m, p2, ' '), l)
      && CarriedOut(CStr(m), CStr(Put(m, p2, ' ')), c, handler, true, handler(c, name), Some(name))
  {
    Carried(m, c, at, p2, l);
    BlankAtStop(m, at + |Key(c)|, p2, l);
    hide Stopper, CStr, Find, StopsAt, Lookup, Key, OneBlank;
  }

  /** `process_command` on the buffer and the memory behind it. */
  method ProcessCommand(m: array<char>, c: Cmd, handler: (Cmd, string) -> int, ghost l: nat)
    returns (found: bool, ret: int, call: Option<string>)
    requires Stopper(m[..], l)
    modifies m
    ensures Stopper(m[..], l) && OneBlank(old(m[..]), m[..], l)
    ensures CarriedOut(old(CStr(m[..])), CStr(m[..]), c, handler, found, ret, call)
  {
    var at := Find(CStr(m[..]), Key(c));
    if at == None {
      NotFound(CStr(m[..]), Key(c));
      return false, 0, None;
    }
    hide *;
    found := true;
    ret, call := RunCommand(m, c, at.value, handler, l);
  }

  /** Nothing behind index `l` has changed. */
  ghost predicate SameBehind(m: seq<char>, m1: seq<char>, l: nat) {
    |m1| == |m| && forall k | l < k < |m| :: m1[k] == m[k]
  }

  lemma BlankIsBefore(m: seq<char>, m1: seq<char>, l: nat)
    requires OneBlank(m, m1, l)
    ensures SameBehind(m, m1, l)
  {
  }

  /** One of the three attempts of `dazukofs_ctrl_write`; `rest` are the commands still to come. */
  method TryCommand(m: array<char>, c: Cmd, ghost rest: seq<Cmd>, matched: bool, ret: int, handler: (Cmd, string) -> int,
                    ghost l: nat)
    returns (matched': bool, ret': int, calls: seq<(Cmd, string)>)
    requires Stopper(m[..], l)
    modifies m
    ensures Stopper(m[..], l) && SameBehind(old(m[..]), m[..], l)
    ensures var (cs, final) := Commands(CStr(m[..]), rest, matched', ret', handler);
      Commands(old(CStr(m[..])), [c] + rest, matched, ret, handler) == (calls + cs, final)
  {
    matched', ret', calls := matched, ret, [];
    assert ([c] + rest)[1..] == rest;
    hide Stopper, CStr, Lookup, OneBlank;
    if !matched || (matched && ret >= 0) {
      var found, code, call := ProcessCommand(m, c, handler, l);
      BlankIsBefore(old(m[..]), m[..], l);
      if found {
        matched', ret' := true, code;
        if call.Some? { calls := [(c, call.value)]; }
      }
    }

    ghost var cs := Commands(CStr(m[..]), rest, matched', ret', handler).0;
    assert [] + cs == cs;
  }

  /** The stack once the bytes of a write have been copied to its beginning. */
  function Filled(m: seq<char>, data: seq<char>): seq<char>
    requires CTRL_BUFFER <= |m|
  {
    Copied(data) + [NUL] + m[|Copied(data)| + 1..]
  }

  /** `dazukofs_ctrl_write`; `m` is the stack from the buffer on. Where a scan stops is asked of the
      stack as it is once the bytes are copied; when that is inside the buffer, `m` may be the buffer
      alone, and in any case nothing behind `l` is touched. */
  method CtrlWrite(m: array<char>, data: seq<char>, pos: nat, fault: bool, handler: (Cmd, string) -> int, ghost l: nat)
    returns (ret: int, newPos: nat, calls: seq<(Cmd, string)>)
    requires CTRL_BUFFER <= m.Length && Stopper(Filled(m[..], data), l)
    modifies m
    ensures fault ==> ret == -EFAULT && calls == [] && newPos == pos && m[..] == old(m[..])
    ensures !fault ==>
              var (cs, final) := Commands(TextOfWrite(data), ALL, false, -EINVAL, handler);
              && calls == cs
              && ret == (if final >= 0 then |data| else final)
              && newPos == if final >= 0 then pos + |data| else pos
    ensures SameBehind(old(Filled(m[..], data)), m[..], l) || fault
  {
    newPos, calls := pos, [];
    if fault { return -EFAULT, pos, []; }
    CopyCommand(m, data);
    ret, calls := TryCommands(m, handler, l);
    if ret >= 0 {
      newPos, ret := pos + |data|, |data|;
    }
  }

  /** The three attempts. */
  method TryCommands(m: array<char>, handler: (Cmd, string) -> int, ghost l: nat)
    returns (ret: int, calls: seq<(Cmd, string)>)
    requires Stopper(m[..], l)
    modifies m
    ensures SameBehind(old(m[..]), m[..], l)
    ensures Commands(old(CStr(m[..])), ALL, false, -EINVAL, handler) == (calls, ret)
  {
    hide *;
    var matched, code, c1 := TryCommand(m, Del, [Add, AddTrack], false, -EINVAL, handler, l);
    ghost var first := m[..];
    var c2, c3;
    matched, code, c2 := TryCommand(m, Add, [AddTrack], matched, code, handler, l);
    ghost var second := m[..];
    matched, code, c3 := TryCommand(m, AddTrack, [], matched, code, handler, l);
    NoCommands(CStr(m[..]), matched, code, handler);
    AllCommands();
    calls, ret := c1 + c2 + c3, code;
    assert c1 + (c2 + (c3 + [])) == calls;
    SameTwice(old(m[..]), first, second, l);
    SameTwice(old(m[..]), second, m[..], l);
  }

  lemma AllCommands()
    ensures ALL == [Del] + [Add, AddTrack] && [Add, AddTrack] == [Add] + [AddTrack] && [AddTrack] == [AddTrack] + []
  {
  }

  lemma SameTwice(m: seq<char>, m1: seq<char>, m2: seq<char>, l: nat)
    requires SameBehind(m, m1, l) && SameBehind(m1, m2, l)
    ensures SameBehind(m, m2, l)
  {
  }

  lemma NoCommands(s: string, matched: bool, ret: int, handler: (Cmd, string) -> int)
    ensures Commands(s, [], matched, ret, handler) == ([], ret)
  {
  }

  method CopyCommand(m: array<char>, data: seq<char>)
    requires CTRL_BUFFER <= m.Length
    modifies m
    ensures m[..] == Filled(old(m[..]), data) && CStr(m[..]) == TextOfWrite(data)
  {
    CopyString(m, Copied(data));
    assert m[..] == m[..|Copied(data)| + 1] + m[|Copied(data)| + 1..];
  }

  // ---------------------------------------------------------------- where scans stop

  /** Whatever the unwritten rest of the buffer holds, a scan from `p` stops inside it exactly when one
      of the copied bytes from there on is neither allowed nor NUL. */
  lemma ScanStaysInsideExactly(data: seq<char>, p: nat)
    requires p <= |Copied(data)|
    ensures (forall rest: seq<char> | |rest| == CTRL_BUFFER - 1 - |Copied(data)| ::
               exists p2 :: StopsAt(Copied(data) + [NUL] + rest, p, p2))
       <==> exists k :: p <= k < |Copied(data)| && !IsValidChar(Copied(data)[k])
  {
    var bytes := Copied(data);
    var n := CTRL_BUFFER - 1 - |bytes|;
    if k :| p <= k < |bytes| && !IsValidChar(bytes[k]) {
      forall rest: seq<char> | |rest| == n ensures exists p2 :: StopsAt(bytes + [NUL] + rest, p, p2) {
        var m := bytes + [NUL] + rest;
        assert m[k] == bytes[k];
        var p2 := FirstStop(m, p, k);
      }
    } else {
      var rest := seq(n, i => 'a');
      var m := bytes + [NUL] + rest;
      assert forall k | p <= k < |m| :: IsValidChar(m[k]);
      assert !exists p2 :: StopsAt(m, p, p2);
    }
  }

  lemma {:induction false} FirstStop(m: seq<char>, p: nat, k: nat) returns (p2: nat)
    requires p <= k < |m| && !IsValidChar(m[k])
    ensures StopsAt(m, p, p2)
    decreases k - p
  {
    if IsValidChar(m[p]) { p2 := FirstStop(m, p + 1, k); } else { p2 := p; }
  }

  lemma CStrIsShorter(m: seq<char>)
    ensures |CStr(m)| <= |m|
  {
  }

  /** A write whose last delimiter comes after all its keys needs nothing behind the buffer. */
  lemma DelimitedWrite(data: seq<char>, rest: seq<char>, l: nat)
    requires l < |Copied(data)| && !IsValidChar(Copied(data)[l])
    requires forall c: Cmd, i | MatchAt(TextOfWrite(data), i, Key(c)) :: i + |Key(c)| <= l
    ensures Stopper(Copied(data) + [NUL] + rest, l)
  {
    var m := Copied(data) + [NUL] + rest;
    assert m[l] == Copied(data)[l];
    TextBehind(Copied(data), rest);
    assert CStr(m) == TextOfWrite(data);
    assert m == Copied(data) + [NUL] + rest && l < |m| && !IsValidChar(m[l]);
    hide CStr, Copied, IsValidChar, MatchAt, Key, Holds, TextOfWrite;
  }

  lemma TextBehind(bytes: seq<char>, rest: seq<char>)
    ensures var m := bytes + [NUL] + rest;
      CStr(m) == CStr(bytes) && Holds(m, CStr(m))
  {
    CStrBeforeNul(bytes, rest);
    CStrIsShorter(bytes);
    hide CStr;
    HoldsIsCStr(bytes + [NUL] + rest, CStr(bytes + [NUL] + rest));
  }

  /** No command of the library is delimited: where its scan stops, and whether it does, depends only
      on bytes that nobody has written. */
  lemma LibraryCommandRunsOn(c: Cmd, name: string, rest: seq<char>)
    requires IsName(name)
    ensures var m := Key(c) + name + [NUL] + rest;
      (exists p2 :: StopsAt(m, |Key(c)|, p2)) <==> exists k :: 0 <= k < |rest| && !IsValidChar(rest[k])
  {
    var m := Key(c) + name + [NUL] + rest;
    var n := |Key(c)| + |name| + 1;
    forall k | |Key(c)| <= k < n ensures IsValidChar(m[k]) {
      if k < n - 1 { assert m[k] == name[k - |Key(c)|]; }
    }
    if p2: nat :| StopsAt(m, |Key(c)|, p2) { assert m[p2] == rest[p2 - n]; }
    if k :| 0 <= k < |rest| && !IsValidChar(rest[k]) {
      assert m[n + k] == rest[k];
      var p2 := FirstStop(m, |Key(c)|, n + k);
    }
  }
}
