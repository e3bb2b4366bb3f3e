/** The commands of the control device as text, and the ones the library writes. */
module Control {
  import opened Kernel
  import opened CText
  import opened Messages

  const CTRL_BUFFER := 32

  /** `strchr` also finds the terminator of the list of allowed characters, so NUL counts as valid. */
  predicate IsValidChar(c: char) { Allowed(c) || c == NUL }

  /** Letters, digits, underscore and dash. */
  predicate Allowed(c: char) {
    'a' <= c <= 'z' || 'A' <= c <= 'Z' || '0' <= c <= '9' || c == '_' || c == '-'
  }

  predicate IsName(s: string) { forall i | 0 <= i < |s| :: Allowed(s[i]) }

  lemma NotAllowed()
    ensures !Allowed(NUL) && !Allowed(' ') && !Allowed('=') && !Allowed(':') && !Allowed('\n')
  {
  }

  datatype Cmd = Del | Add | AddTrack

  function Key(c: Cmd): string {
    match c
    case Del => "del="
    case Add => "add="
    case AddTrack => "addtrack="
  }

  // ---------------------------------------------------------------- commands as strings

  /** How many characters of a name the text starts with. */
  function NameRun(s: string): (n: nat)
    ensures n <= |s|
  {
    if s == [] || !Allowed(s[0]) then 0 else 1 + NameRun(s[1..])
  }

  /** Exactly the first 31 bytes of a write are looked at. */
  lemma FirstBytes(data: seq<char>)
    ensures TextOfWrite(data) == CStr(if |data| <= 31 then data else data[..31])
  {
  }

  lemma {:induction false} NameRunIsName(s: string)
    ensures IsName(s[..NameRun(s)])
  {
    if s != [] && Allowed(s[0]) {
      NameRunIsName(s[1..]);
      assert s[..NameRun(s)] == [s[0]] + s[1..][..NameRun(s) - 1];
    }
  }

  datatype Parsed = NoKey | NoName | Call(name: string)

  /** One command looked up in the text: the longest name after the first match of its key. The
      character behind the name is gone afterwards. At the end of the text the name may be empty. */
  function Lookup(s: string, key: string): (Parsed, string) {
    match Find(s, key)
    case None => (NoKey, s)
    case Some(i) => NameAt(s, i + |key|)
  }

  function NameAt(s: string, p: nat): (Parsed, string)
    requires p <= |s|
  {
    var n := NameRun(s[p..]);
    if n == 0 && p < |s| then (NoName, s)
    else (Call(s[p..p + n]), if p + n < |s| then s[p + n := ' '] else s)
  }

  /** The handlers called for a text and the result, the remaining commands being `cmds`. A command
      is not looked at once an earlier one has failed. */
  function Commands(s: string, cmds: seq<Cmd>, matched: bool, ret: int, handler: (Cmd, string) -> int)
    : (seq<(Cmd, string)>, int)
    decreases |cmds|
  {
    if cmds == [] then ([], ret)
    else if matched && ret < 0 then Commands(s, cmds[1..], matched, ret, handler)
    else
      var (r, s') := Lookup(s, Key(cmds[0]));
      match r
      case NoKey => Commands(s', cmds[1..], matched, ret, handler)
      case NoName => Commands(s', cmds[1..], true, -EINVAL, handler)
      case Call(name) =>
        var (calls, final) := Commands(s', cmds[1..], true, handler(cmds[0], name), handler);
        ([(cmds[0], name)] + calls, final)
  }

  const ALL := [Del, Add, AddTrack]

  /** The text that is left of a write. */
  function TextOfWrite(data: seq<char>): string { CStr(Copied(data)) }

  /** The bytes of a write that fit the buffer with its terminator. */
  function Copied(data: seq<char>): (r: seq<char>)
    ensures |r| < CTRL_BUFFER
  {
    if |data| < CTRL_BUFFER then data else data[..CTRL_BUFFER - 1]
  }

  lemma {:induction false} AfterFailure(s: string, cmds: seq<Cmd>, ret: int, handler: (Cmd, string) -> int)
    requires ret < 0
    ensures Commands(s, cmds, true, ret, handler) == ([], ret)
  {
    if cmds != [] { AfterFailure(s, cmds[1..], ret, handler); }
  }

  function Rank(c: Cmd): nat {
    match c
    case Del => 0
    case Add => 1
    case AddTrack => 2
  }

  ghost predicate Ordered(calls: seq<(Cmd, string)>) {
    forall i, j | 0 <= i < j < |calls| :: Rank(calls[i].0) < Rank(calls[j].0)
  }

  lemma CalledName(s: string, key: string)
    requires Lookup(s, key).0.Call?
    ensures IsName(Lookup(s, key).0.name)
  {
    var p := Find(s, key).value + |key|;
    var n := NameRun(s[p..]);
    NameRunIsName(s[p..]);
    var name := s[p..p + n];
    forall i | 0 <= i < n ensures Allowed(name[i]) { assert s[p..][..n][i] == name[i]; }
  }

  /** `s1` is `s`, with a blank in place of the character at `p` if there is one. */
  ghost predicate Blanked(s: string, p: nat, s1: string) {
    && |s1| == |s|
    && forall k | 0 <= k < |s| :: s1[k] == if k == p then ' ' else s[k]
  }

  /** What is found of a command: nothing exactly if its key is not there; otherwise, from the end of the
      first match on, all characters that are allowed, and that is a name if there are any or the text
      ends there. Then the character behind the name is gone. */
  lemma LookupExactly(s: string, key: string)
    ensures var (r, s1) := Lookup(s, key);
      && (r.NoKey? <==> forall i: nat :: !MatchAt(s, i, key))
      && (!r.Call? ==> s1 == s)
      && forall i: nat | FirstFrom(s, 0, i, key) ::
           var p := i + |key|;
           && (r.NoName? <==> p < |s| && !Allowed(s[p]))
           && (r.Call? ==>
                 var q := p + |r.name|;
                 && q <= |s| && s[p..q] == r.name && IsName(r.name) && (q < |s| ==> !Allowed(s[q])) && Blanked(s, q, s1))
  {
    FindIsFirst(s, key);
    hide Find, NameRun, Allowed, MatchAt;
    var found := Find(s, key);
    if found.Some? {
      NameAtExactly(s, found.value + |key|);
      forall i: nat | FirstFrom(s, 0, i, key) ensures i == found.value {}
    }
  }

  lemma NameAtExactly(s: string, p: nat)
    requires p <= |s|
    ensures var (r, s1) := NameAt(s, p);
      && !r.NoKey? && (r.NoName? <==> p < |s| && !Allowed(s[p])) && (r.NoName? ==> s1 == s)
      && (r.Call? ==>
            var q := p + |r.name|;
            && q <= |s| && s[p..q] == r.name && IsName(r.name) && (q < |s| ==> !Allowed(s[q])) && Blanked(s, q, s1))
  {
    var rest := s[p..];
    NameRunEnds(rest);
    NameRunIsName(rest);
    assert p < |s| ==> rest[0] == s[p];
    var n := NameRun(rest);
    assert p + n < |s| ==> rest[n] == s[p + n];
    assert s[p..p + n] == rest[..n];
    hide NameRun, Allowed;
  }

  lemma {:induction false} NameRunEnds(s: string)
    ensures var n := NameRun(s);
      n <= |s| && (n < |s| ==> !Allowed(s[n])) && (n == 0 <==> s == [] || !Allowed(s[0]))
  {
    if s != [] && Allowed(s[0]) { NameRunEnds(s[1..]); }
  }

  lemma KeyWasThere(s: string, s1: string, p2: nat, c: Cmd, i: int)
    requires s1 == (if p2 < |s| then s[p2 := ' '] else s) && MatchAt(s1, i, Key(c))
    ensures MatchAt(s, i, Key(c))
  {
    var key := Key(c);
    forall k | 0 <= k < |key| ensures s[i + k] == key[k] {
      assert s1[i..i + |key|][k] == s1[i + k];
      NoBlankInKey(c, k);
    }
    assert s[i..i + |key|] == key;
  }

  lemma NoBlankInKey(c: Cmd, k: nat)
    requires k < |Key(c)|
    ensures Key(c)[k] != ' '
  {
  }

  ghost predicate Increasing(cmds: seq<Cmd>) {
    forall i, j | 0 <= i < j < |cmds| :: Rank(cmds[i]) < Rank(cmds[j])
  }

  /** In every write each command is carried out at most once, in the order of the list, with a
      name of allowed characters. */
  lemma {:induction false} CallsInOrder(s: string, cmds: seq<Cmd>, matched: bool, ret: int, handler: (Cmd, string) -> int)
    requires Increasing(cmds)
    ensures var calls := Commands(s, cmds, matched, ret, handler).0;
      && Ordered(calls)
      && (forall i | 0 <= i < |calls| :: IsName(calls[i].1) && calls[i].0 in cmds)
    decreases |cmds|
  {
    hide Lookup, IsName;
    if cmds != [] {
      if matched && ret < 0 {
        CallsInOrder(s, cmds[1..], matched, ret, handler);
      } else {
        var (r, s') := Lookup(s, Key(cmds[0]));
        match r
        case NoKey => CallsInOrder(s', cmds[1..], matched, ret, handler);
        case NoName => AfterFailure(s', cmds[1..], -EINVAL, handler);
        case Call(name) =>
          CallsInOrder(s', cmds[1..], true, handler(cmds[0], name), handler);
          CalledName(s, Key(cmds[0]));
      }
    }
  }

  /** The text when all commands have been looked up. */
  function TextLeft(s: string, cmds: seq<Cmd>, matched: bool, ret: int, handler: (Cmd, string) -> int): string
    decreases |cmds|
  {
    if cmds == [] || (matched && ret < 0) then s
    else
      var (r, s') := Lookup(s, Key(cmds[0]));
      match r
      case NoKey => TextLeft(s', cmds[1..], matched, ret, handler)
      case NoName => s'
      case Call(name) => TextLeft(s', cmds[1..], true, handler(cmds[0], name), handler)
  }

  /** A command that comes after the last call has a key without a name. */
  ghost predicate NamelessAfter(s: string, cmds: seq<Cmd>, calls: seq<(Cmd, string)>) {
    exists c :: c in cmds && Lookup(s, Key(c)).0.NoName? && (calls != [] ==> Rank(c) > Rank(calls[|calls| - 1].0))
  }

  ghost predicate AllButLastSucceed(calls: seq<(Cmd, string)>, handler: (Cmd, string) -> int) {
    forall i | 0 <= i < |calls| - 1 :: handler(calls[i].0, calls[i].1) >= 0
  }

  lemma OneSuccessMore(c: Cmd, name: string, calls: seq<(Cmd, string)>, handler: (Cmd, string) -> int)
    requires AllButLastSucceed(calls, handler) && (calls != [] ==> handler(c, name) >= 0)
    ensures AllButLastSucceed([(c, name)] + calls, handler)
  {
  }

  /** Nothing is called after a failure. The result is that of the last call, if there was one, unless
      that succeeded and a later command has a key without a name: then it is -EINVAL. */
  ghost predicate ResultIs(s: string, cmds: seq<Cmd>, matched: bool, ret: int, handler: (Cmd, string) -> int,
                           calls: seq<(Cmd, string)>, final: int, left: string)
  {
    var last := if calls == [] then ret else handler(calls[|calls| - 1].0, calls[|calls| - 1].1);
    && AllButLastSucceed(calls, handler)
    && (calls == [] ==> left == s)
    && final == (if (matched || calls != []) && last < 0 then last
                 else if NamelessAfter(left, cmds, calls) then -EINVAL else last)
  }

  lemma {:induction false} CallsStopAtFailure(s: string, cmds: seq<Cmd>, matched: bool, ret: int, handler: (Cmd, string) -> int)
    requires Increasing(cmds)
    ensures var (calls, final) := Commands(s, cmds, matched, ret, handler);
      ResultIs(s, cmds, matched, ret, handler, calls, final, TextLeft(s, cmds, matched, ret, handler))
    decreases |cmds|
  {
    hide Lookup, Key;
    if cmds != [] && !(matched && ret < 0) {
      var (r, s') := Lookup(s, Key(cmds[0]));
      LookedUp(s, Key(cmds[0]));
      match r
      case NoKey =>
        CallsStopAtFailure(s', cmds[1..], matched, ret, handler);
        CallsInOrder(s', cmds[1..], matched, ret, handler);
        NotThisOne(s', cmds, matched, ret, handler);
      case NoName => AfterFailure(s', cmds[1..], -EINVAL, handler);
      case Call(name) =>
        var ret1 := handler(cmds[0], name);
        CallsStopAtFailure(s', cmds[1..], true, ret1, handler);
        CallsInOrder(s', cmds[1..], true, ret1, handler);
        OneCallMore(s, s', cmds, matched, ret, name, handler);
    } else if cmds != [] {
      AfterFailure(s, cmds, ret, handler);
    }
  }

  lemma LookedUp(s: string, key: string)
    ensures !Lookup(s, key).0.Call? ==> Lookup(s, key).1 == s
  {
    hide Find, NameRun;
  }

  /** A command whose key is not there makes no difference. */
  lemma NotThisOne(s: string, cmds: seq<Cmd>, matched: bool, ret: int, handler: (Cmd, string) -> int)
    requires cmds != [] && Increasing(cmds) && Lookup(s, Key(cmds[0])).0.NoKey?
    requires var (calls, final) := Commands(s, cmds[1..], matched, ret, handler);
      && (forall i | 0 <= i < |calls| :: calls[i].0 in cmds[1..])
      && ResultIs(s, cmds[1..], matched, ret, handler, calls, final, TextLeft(s, cmds[1..], matched, ret, handler))
    ensures var (calls, final) := Commands(s, cmds[1..], matched, ret, handler);
      ResultIs(s, cmds, matched, ret, handler, calls, final, TextLeft(s, cmds[1..], matched, ret, handler))
  {
    hide Lookup, Key, Commands, TextLeft;
    var calls := Commands(s, cmds[1..], matched, ret, handler).0;
    var left := TextLeft(s, cmds[1..], matched, ret, handler);
    if c :| c in cmds && Lookup(left, Key(c)).0.NoName? && (calls != [] ==> Rank(c) > Rank(calls[|calls| - 1].0)) {
      if calls != [] { FirstRanksLowest(cmds, calls[|calls| - 1].0); }
      assert c in cmds[1..];
    }
  }

  lemma FirstRanksLowest(cmds: seq<Cmd>, c: Cmd)
    requires cmds != [] && Increasing(cmds) && c in cmds[1..]
    ensures Rank(cmds[0]) < Rank(c)
  {
    var i :| 0 <= i < |cmds| - 1 && cmds[1..][i] == c;
    assert cmds[i + 1] == c;
  }

  lemma OneCallMore(s: string, s1: string, cmds: seq<Cmd>, matched: bool, ret: int, name: string, handler: (Cmd, string) -> int)
    requires cmds != [] && Increasing(cmds) && (matched ==> ret >= 0)
    requires var (calls, final) := Commands(s1, cmds[1..], true, handler(cmds[0], name), handler);
      && (forall i | 0 <= i < |calls| :: calls[i].0 in cmds[1..])
      && ResultIs(s1, cmds[1..], true, handler(cmds[0], name), handler, calls, final,
                  TextLeft(s1, cmds[1..], true, handler(cmds[0], name), handler))
    ensures var (calls, final) := Commands(s1, cmds[1..], true, handler(cmds[0], name), handler);
      ResultIs(s, cmds, matched, ret, handler, [(cmds[0], name)] + calls, final,
               TextLeft(s1, cmds[1..], true, handler(cmds[0], name), handler))
  {
    var ret1 := handler(cmds[0], name);
    var (calls, final) := Commands(s1, cmds[1..], true, ret1, handler);
    var all := [(cmds[0], name)] + calls;
    if ret1 < 0 { AfterFailure(s1, cmds[1..], ret1, handler); }
    assert calls != [] ==> ret1 >= 0;
    hide Lookup, Key, Commands, TextLeft, NamelessAfter, Increasing, AllButLastSucceed, Rank;
    OneSuccessMore(cmds[0], name, calls, handler);
    assert all[|all| - 1] == if calls == [] then (cmds[0], name) else calls[|calls| - 1];
    SameNameless(TextLeft(s1, cmds[1..], true, ret1, handler), cmds, name, calls);
  }

  lemma SameNameless(left: string, cmds: seq<Cmd>, name: string, calls: seq<(Cmd, string)>)
    requires cmds != [] && Increasing(cmds) && forall i | 0 <= i < |calls| :: calls[i].0 in cmds[1..]
    ensures NamelessAfter(left, cmds, [(cmds[0], name)] + calls) <==> NamelessAfter(left, cmds[1..], calls)
  {
    hide Lookup, Key;
    var all := [(cmds[0], name)] + calls;
    assert all[|all| - 1] == if calls == [] then (cmds[0], name) else calls[|calls| - 1];
    if c :| c in cmds && Lookup(left, Key(c)).0.NoName? && Rank(c) > Rank(all[|all| - 1].0) {
      if calls != [] { FirstRanksLowest(cmds, calls[|calls| - 1].0); }
      assert c in cmds[1..];
    }
    if c :| c in cmds[1..] && Lookup(left, Key(c)).0.NoName? && (calls != [] ==> Rank(c) > Rank(calls[|calls| - 1].0)) {
      FirstRanksLowest(cmds, c);
      assert c in cmds;
    }
  }

  ghost predicate Called(calls: seq<(Cmd, string)>, c: Cmd) { exists i :: 0 <= i < |calls| && calls[i].0 == c }

  /** No key of the later text was not in the earlier one. */
  ghost predicate NoNewKeys(s: string, s1: string) { forall c: Cmd, i: nat | MatchAt(s1, i, Key(c)) :: MatchAt(s, i, Key(c)) }

  lemma BlankingAddsNoKeys(s: string, c: Cmd)
    ensures NoNewKeys(s, Lookup(s, Key(c)).1)
  {
    LookupExactly(s, Key(c));
    var (r, s1) := Lookup(s, Key(c));
    if r.Call? {
      FindIsFirst(s, Key(c));
      var i: nat := Find(s, Key(c)).value;
      assert FirstFrom(s, 0, i, Key(c));
      var q := i + |Key(c)| + |r.name|;
      assert s1 == if q < |s| then s[q := ' '] else s;
      hide Lookup, Find, Key, MatchAt;
      forall d: Cmd, k: nat | MatchAt(s1, k, Key(d)) ensures MatchAt(s, k, Key(d)) { KeyWasThere(s, s1, q, d, k); }
    }
  }

  /** If a write succeeds, every command whose key is left in the text has been carried out. */
  lemma {:induction false} NothingIsSkipped(s: string, cmds: seq<Cmd>, matched: bool, ret: int, handler: (Cmd, string) -> int)
    ensures var (calls, final) := Commands(s, cmds, matched, ret, handler);
      var left := TextLeft(s, cmds, matched, ret, handler);
      NoNewKeys(s, left) && (final >= 0 ==> forall c | c in cmds :: Called(calls, c) || Lookup(left, Key(c)).0.NoKey?)
    decreases |cmds|
  {
    hide Lookup, Key, MatchAt, NoNewKeys, Called;
    SameKeys(s);
    if cmds != [] && !(matched && ret < 0) {
      var c := cmds[0];
      var (r, s') := Lookup(s, Key(c));
      LookedUp(s, Key(c));
      BlankingAddsNoKeys(s, c);
      match r
      case NoKey =>
        NothingIsSkipped(s', cmds[1..], matched, ret, handler);
        NoKeyStays(s, TextLeft(s', cmds[1..], matched, ret, handler), c);
      case NoName => AfterFailure(s', cmds[1..], -EINVAL, handler);
      case Call(name) =>
        var ret1 := handler(c, name);
        NothingIsSkipped(s', cmds[1..], true, ret1, handler);
        NoKeysAgain(s, s', TextLeft(s', cmds[1..], true, ret1, handler));
        OneMoreCalled(c, name, Commands(s', cmds[1..], true, ret1, handler).0);
    } else if cmds != [] {
      AfterFailure(s, cmds, ret, handler);
    }
  }

  lemma SameKeys(s: string)
    ensures NoNewKeys(s, s)
  {
  }

  lemma NoKeysAgain(s: string, s1: string, s2: string)
    requires NoNewKeys(s, s1) && NoNewKeys(s1, s2)
    ensures NoNewKeys(s, s2)
  {
  }

  lemma NoKeyStays(s: string, s1: string, c: Cmd)
    requires Lookup(s, Key(c)).0.NoKey? && NoNewKeys(s, s1)
    ensures Lookup(s1, Key(c)).0.NoKey?
  {
    LookupExactly(s, Key(c));
    LookupExactly(s1, Key(c));
    hide Lookup, Key, MatchAt;
  }

  lemma OneMoreCalled(c: Cmd, name: string, calls: seq<(Cmd, string)>)
    ensures Called([(c, name)] + calls, c)
    ensures forall d | Called(calls, d) :: Called([(c, name)] + calls, d)
  {
    var all := [(c, name)] + calls;
    assert all[0].0 == c;
    forall d | Called(calls, d) ensures Called(all, d) {
      var i :| 0 <= i < |calls| && calls[i].0 == d;
      assert all[i + 1].0 == d;
    }
  }

  // ---------------------------------------------------------------- the library's commands

  lemma {:induction false} NameRunOf(s: string)
    requires IsName(s)
    ensures NameRun(s) == |s|
  {
    if s != [] { NameRunOf(s[1..]); }
  }

  lemma OneEquals(c: Cmd, name: string, i: nat)
    requires IsName(name) && i < |Key(c) + name|
    ensures (Key(c) + name)[i] == '=' <==> i == |Key(c)| - 1
  {
  }

  /** No other key is found: there is only one '=', and the keys differ before it. */
  lemma OnlyItsKey(c: Cmd, name: string, other: Cmd)
    requires IsName(name) && c != other
    ensures Find(Key(c) + name, Key(other)) == None
  {
    var s, key := Key(c) + name, Key(other);
    KeyEnds(c);
    KeyEnds(other);
    FindIsFirst(s, key);
    hide Key, IsName, Find;
    forall j ensures !MatchAt(s, j, key) {
      if 0 <= j && j + |key| <= |s| {
        var at, found := j + |key| - 1, s[j..j + |key|];
        assert found[|key| - 1] == s[at] && found[|key| - 2] == s[at - 1];
        OneEquals(c, name, at);
      }
    }
  }

  /** The three keys end in different letters before the '='. */
  lemma KeyEnds(c: Cmd)
    ensures var n := |Key(c)|;
      n >= 4 && Key(c)[n - 1] == '=' && Key(c)[n - 2] == match c case Del => 'l' case Add => 'd' case AddTrack => 'k'
  {
  }

  lemma ItsKey(c: Cmd, name: string)
    requires IsName(name)
    ensures Lookup(Key(c) + name, Key(c)) == (Call(name), Key(c) + name)
  {
    FoundAtStart(Key(c), name);
    NameRunOf(name);
    var s := Key(c) + name;
    assert s[|Key(c)|..|Key(c)| + |name|] == name;
    hide Find, NameRun, Key;
  }

  lemma KeysOf(c: Cmd, name: string)
    requires IsName(name)
    ensures Lookup(Key(c) + name, Key(c)) == (Call(name), Key(c) + name)
    ensures forall other | other != c :: Lookup(Key(c) + name, Key(other)) == (NoKey, Key(c) + name)
  {
    forall other | other != c ensures Lookup(Key(c) + name, Key(other)) == (NoKey, Key(c) + name) {
      OnlyItsKey(c, name, other);
    }
    ItsKey(c, name);
  }

  lemma CommandFits(c: Cmd, name: string)
    requires IsName(name) && |name| <= 20
    ensures TextOfWrite(Key(c) + name) == Key(c) + name
    ensures Increasing(ALL) && c in ALL
  {
  }

  /** A command written by the library reaches its handler, with exactly the name it was given,
      and no other handler. This holds for the empty name too: the kernel does not refuse it. */
  lemma LibraryCommand(c: Cmd, name: string, handler: (Cmd, string) -> int)
    requires IsName(name) && |name| <= 20
    ensures TextOfWrite(Key(c) + name) == Key(c) + name
    ensures Commands(Key(c) + name, ALL, false, -EINVAL, handler) == ([(c, name)], handler(c, name))
  {
    CommandFits(c, name);
    KeysOf(c, name);
    hide *;
    CommandsOf(c, name, Key(c) + name, ALL, handler);
  }

  lemma {:induction false} NoMoreKeys(s: string, cmds: seq<Cmd>, ret: int, handler: (Cmd, string) -> int)
    requires forall c | c in cmds :: Lookup(s, Key(c)) == (NoKey, s)
    ensures Commands(s, cmds, true, ret, handler) == ([], ret)
  {
    if cmds != [] { NoMoreKeys(s, cmds[1..], ret, handler); }
  }

  lemma {:induction false} CommandsOf(c: Cmd, name: string, s: string, cmds: seq<Cmd>, handler: (Cmd, string) -> int)
    requires Increasing(cmds) && c in cmds
    requires Lookup(s, Key(c)) == (Call(name), s)
    requires forall other | other != c :: Lookup(s, Key(other)) == (NoKey, s)
    ensures Commands(s, cmds, false, -EINVAL, handler) == ([(c, name)], handler(c, name))
  {
    hide Lookup;
    if cmds[0] == c {
      NoMoreKeys(s, cmds[1..], handler(c, name), handler);
      assert [(c, name)] + [] == [(c, name)];
    } else {
      CommandsOf(c, name, s, cmds[1..], handler);
    }
  }
}
