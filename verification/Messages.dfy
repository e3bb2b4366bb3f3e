/** The event message and the reply: what the kernel prints (group_dev.c) and the library parses,
    and what the library prints (test/lib/dazukofs.c) and the kernel parses. */
module Messages {
  import opened Kernel
  import opened CText

  const EINTR := 4
  const EIO := 5
  const ENOMEM := 12
  const EFAULT := 14
  const EINVAL := 22
  const ENFILE := 23
  const ERESTARTSYS := 512

  const MIN_READ_BUFFER := 43
  const MAX_WRITE_BUFFER := 19

  // ---------------------------------------------------------------- the event message

  function Head(id: nat, fd: int, pid: int): string {
    "id=" + Dec(id) + "\nfd=" + SDec(fd) + "\npid=" + SDec(pid)
  }

  function EventText(id: nat, fd: int, pid: int): string { Head(id, fd, pid) + "\n" }

  /** The bytes copied to the reader, unless the message is too long. */
  function Sent(id: nat, fd: int, pid: int): Option<seq<char>> {
    var text := EventText(id, fd, pid);
    if |text| >= MIN_READ_BUFFER then None else Some(Printed(text, MIN_READ_BUFFER - 1)[..|text|])
  }

  /** A message is sent exactly when its three numbers have at most 29 characters between them. */
  lemma MessageFits(id: nat, fd: int, pid: int)
    ensures Sent(id, fd, pid).Some? <==> |Dec(id)| + |SDec(fd)| + |SDec(pid)| <= 29
  {
  }

  datatype Access = Access(fd: int, pid: nat, deny: bool)

  function ParsePid(s: string): Option<nat> {
    match Find(s, "pid=")
    case None => None
    case Some(i) => Some(Strtoul(s[i + 4..]).0)
  }

  function ParseFd(s: string): Option<Access> {
    match Find(s, "fd=")
    case None => None
    case Some(i) =>
      var (fd, rest) := Strtol(s[i + 3..]);
      match ParsePid(rest)
      case None => None
      case Some(pid) => Some(Access(ToInt32(fd), pid, false))
  }

  /** What the library makes of its buffer: the event id, if there is one, and the access, if all
      three numbers are there. */
  function ParseEvent(m: seq<char>): (Option<nat>, Option<Access>) {
    var s := CStr(m);
    match Find(s, "id=")
    case None => (None, None)
    case Some(i) =>
      var (id, rest) := Strtoul(s[i + 3..]);
      (Some(id), ParseFd(rest))
  }

  function Zeros(n: nat): seq<char> { seq(n, i => NUL) }

  lemma FoundAtStart(key: string, rest: string)
    ensures Find(key + rest, key) == Some(0) && (key + rest)[|key|..] == rest
  {
  }

  lemma FoundAfter(c: char, key: string, rest: string)
    requires key != [] && key[0] != c
    ensures Find([c] + key + rest, key) == Some(1) && ([c] + key + rest)[1 + |key|..] == rest
  {
  }

  lemma ParseOfPid(pid: int, tail: string)
    requires IsInt32(pid) && (tail == "" || tail == "\n")
    ensures ParsePid("\n" + "pid=" + (SDec(pid) + tail)) == Some(AsUnsignedLong(pid))
  {
    FoundAfter('\n', "pid=", SDec(pid) + tail);
    IntsOfPrinted(pid, tail);
  }

  lemma ParseOfFd(fd: int, rest: string)
    requires IsInt32(fd) && rest != [] && !IsDigit(rest[0])
    ensures ParseFd("\n" + "fd=" + (SDec(fd) + rest)) ==
      match ParsePid(rest)
      case None => None
      case Some(pid) => Some(Access(fd, pid, false))
  {
    FoundAfter('\n', "fd=", SDec(fd) + rest);
    IntsOfPrinted(fd, rest);
  }

  lemma Regroup(s: seq<string>)
    requires |s| == 9
    ensures s[0] + s[1] + (s[2] + s[3]) + s[4] + (s[5] + s[6]) + s[7] + s[8]
         == s[0] + (s[1] + (s[2] + s[3] + (s[4] + (s[5] + s[6] + (s[7] + s[8])))))
  {
  }

  lemma HeadGrouped(id: nat, fd: int, pid: int, tail: string)
    ensures Head(id, fd, pid) + tail
         == "id=" + (Dec(id) + ("\n" + "fd=" + (SDec(fd) + ("\n" + "pid=" + (SDec(pid) + tail)))))
  {
    hide Dec, SDec;
    assert "\nfd=" == "\n" + "fd=" && "\npid=" == "\n" + "pid=";
    Regroup(["id=", Dec(id), "\n", "fd=", SDec(fd), "\n", "pid=", SDec(pid), tail]);
  }

  /** The numbers come back whether or not the last newline does. */
  lemma ParseOfText(m: seq<char>, id: nat, fd: int, pid: int, tail: string)
    requires id < ULONG && IsInt32(fd) && IsInt32(pid) && (tail == "" || tail == "\n")
    requires CStr(m) == Head(id, fd, pid) + tail
    ensures ParseEvent(m) == (Some(id), Some(Access(fd, AsUnsignedLong(pid), false)))
  {
    var s2 := "\n" + "pid=" + (SDec(pid) + tail);
    var s1 := "\n" + "fd=" + (SDec(fd) + s2);
    ParseOfPid(pid, tail);
    ParseOfFd(fd, s2);
    HeadGrouped(id, fd, pid, tail);
    hide ParsePid, ParseFd, SDec, Find, Strtoul, Head, Dec, CStr;
    FoundAtStart("id=", Dec(id) + s1);
    StrtoulOfPrinted(id, s1);
  }

  lemma SDecHasNoNul(n: int)
    ensures NUL !in SDec(n)
  {
    DecHasNoNul(if n < 0 then -n else n);
  }

  lemma HeadHasNoNul(id: nat, fd: int, pid: int)
    ensures NUL !in Head(id, fd, pid)
  {
    hide Dec, SDec;
    DecHasNoNul(id);
    SDecHasNoNul(fd);
    SDecHasNoNul(pid);
  }

  /** Every message the kernel sends is read back exactly, including the longest one, whose last
      newline has become a NUL. */
  lemma EventMessageRoundTrip(id: nat, fd: int, pid: int)
    requires id < ULONG && IsInt32(fd) && IsInt32(pid) && Sent(id, fd, pid).Some?
    ensures var b := Sent(id, fd, pid).value;
      |b| < 48 && ParseEvent(b + Zeros(48 - |b|)) == (Some(id), Some(Access(fd, AsUnsignedLong(pid), false)))
  {
    var head := Head(id, fd, pid);
    var b := Sent(id, fd, pid).value;
    HeadHasNoNul(id, fd, pid);
    hide Head;
    var pad := Zeros(48 - |b|);
    if |head| + 1 == MIN_READ_BUFFER - 1 {
      assert b == head + [NUL];
      CStrOfPrinted(head, pad);
      assert head + "" == head;
      ParseOfText(b + pad, id, fd, pid, "");
    } else {
      assert b == head + "\n" && pad == [NUL] + pad[1..];
      assert b + pad == b + [NUL] + pad[1..];
      CStrOfPrinted(b, pad[1..]);
      ParseOfText(b + pad, id, fd, pid, "\n");
    }
  }

  // ---------------------------------------------------------------- the reply

  function ReplyText(id: nat, deny: bool): string {
    "id=" + Dec(id) + " r=" + if deny then "1" else "0"
  }

  /** What the kernel makes of a reply: the id and the response, or an error. */
  function ParseReply(data: seq<char>): Option<(nat, Response)> {
    ReplyOf(CStr(if |data| < MAX_WRITE_BUFFER then data else data[..MAX_WRITE_BUFFER - 1]))
  }

  function ReplyOf(s: string): Option<(nat, Response)> {
    match Find(s, "id=")
    case None => None
    case Some(i) =>
      var (id, s1) := SimpleStrtoul(s[i + 3..]);
      match ResponseIn(s1)
      case None => None
      case Some(response) => Some((id, response))
  }

  function Answered(id: nat, deny: bool): (nat, Response) { (id, if deny then DENY else ALLOW) }

  function ResponseIn(s: string): Option<Response> {
    match Find(s, "r=")
    case None => None
    case Some(j) => Some(if j + 2 < |s| && s[j + 2] == '0' then ALLOW else DENY)
  }

  lemma ParseOfReply(data: seq<char>, id: nat, tail: string)
    requires id < ULONG && NUL !in tail && (tail != [] ==> !IsDigit(tail[0]))
    requires (if |data| < MAX_WRITE_BUFFER then data else data[..MAX_WRITE_BUFFER - 1]) == "id=" + (Dec(id) + tail)
    ensures ParseReply(data) == if ResponseIn(tail).None? then None else Some((id, ResponseIn(tail).value))
  {
    DecHasNoNul(id);
    hide CStr, Find, SimpleStrtoul, Dec, ResponseIn;
    CStrOfPrinted("id=" + (Dec(id) + tail), []);
    FoundAtStart("id=", Dec(id) + tail);
    SimpleStrtoulOfPrinted(id, tail);
  }

  /** The digits at `from` reach up to `n`. */
  ghost predicate RunFrom(s: string, from: nat, n: nat) {
    from <= n <= |s| && Digits(s[from..n]) && (n < |s| ==> !IsDigit(s[n]))
  }

  /** The digits behind the first "id=" reach up to `n`, and the first "r=" from there on is at `j`. */
  ghost predicate ReplyParts(s: string, i: nat, n: nat, j: nat) {
    FirstFrom(s, 0, i, "id=") && RunFrom(s, i + 3, n) && FirstFrom(s, n, j, "r=")
  }

  ghost function ReplyOfParts(s: string, i: nat, n: nat, j: nat): (nat, Response)
    requires RunFrom(s, i + 3, n)
  {
    (Value(s[i + 3..n]), if j + 2 < |s| && s[j + 2] == '0' then ALLOW else DENY)
  }

  /** Of whatever is written, the first 18 characters up to a NUL are looked at. It is refused exactly if
      "id=", or "r=" behind its digits, is missing. Otherwise the id is the value of these digits, and the
      response is ALLOW exactly if the character behind "r=" is '0', whatever follows. */
  lemma ReplyExactly(data: seq<char>)
    ensures var s := CStr(if |data| <= 18 then data else data[..18]);
      && (ParseReply(data).Some? <==> exists i: nat, n: nat, j: nat :: ReplyParts(s, i, n, j))
      && forall i: nat, n: nat, j: nat | ReplyParts(s, i, n, j) :: ParseReply(data) == Some(ReplyOfParts(s, i, n, j))
  {
    hide *;
    KeptBytes(data);
    ReplyOfExactly(CStr(if |data| <= 18 then data else data[..18]));
  }

  lemma KeptBytes(data: seq<char>)
    ensures ParseReply(data) == ReplyOf(CStr(if |data| <= 18 then data else data[..18]))
  {
    assert data[..|data|] == data;
    hide CStr, ReplyOf;
  }

  lemma ReplyOfExactly(s: string)
    requires |s| <= 18
    ensures ReplyOf(s).Some? <==> exists i: nat, n: nat, j: nat :: ReplyParts(s, i, n, j)
    ensures forall i: nat, n: nat, j: nat | ReplyParts(s, i, n, j) :: ReplyOf(s) == Some(ReplyOfParts(s, i, n, j))
  {
    hide *;
    KeyIsFirst(s, 0, "id=");
    var found := Find(s[0..], "id=");
    assert s[0..] == s;
    if found == None {
      NoReply(s);
    } else {
      ReplyFrom(s, found.value);
    }
  }

  lemma ReplyFrom(s: string, i: nat)
    requires |s| <= 18 && Find(s, "id=") == Some(i) && FirstFrom(s, 0, i, "id=") && i + 3 <= |s|
    ensures ReplyOf(s).Some? <==> exists i: nat, n: nat, j: nat :: ReplyParts(s, i, n, j)
    ensures forall i: nat, n: nat, j: nat | ReplyParts(s, i, n, j) :: ReplyOf(s) == Some(ReplyOfParts(s, i, n, j))
  {
    hide *;
    ReplyUnfolds(s, i);
    var n := RunConverts(s, i + 3);
    KeyIsFirst(s, n, "r=");
    var found := Find(s[n..], "r=");
    ResponseAt(s, i, n);
    if found == None {
      NoParts(s, i, n);
    } else {
      OneParts(s, i, n, n + found.value);
    }
  }

  lemma NoReply(s: string)
    requires Find(s, "id=") == None && forall i: nat :: !FirstFrom(s, 0, i, "id=")
    ensures ReplyOf(s) == None && forall i: nat, n: nat, j: nat :: !ReplyParts(s, i, n, j)
  {
    hide FirstFrom, Find, RunFrom;
  }

  lemma ReplyUnfolds(s: string, i: nat)
    requires Find(s, "id=") == Some(i) && i + 3 <= |s|
    ensures var (id, s1) := SimpleStrtoul(s[i + 3..]);
      ReplyOf(s) == if ResponseIn(s1).None? then None else Some((id, ResponseIn(s1).value))
  {
    hide Find, SimpleStrtoul, ResponseIn;
  }

  lemma RunConverts(s: string, from: nat) returns (n: nat)
    requires from <= |s| <= 18
    ensures RunFrom(s, from, n) && from <= n <= |s| && Digits(s[from..n])
    ensures SimpleStrtoul(s[from..]) == (Value(s[from..n]), s[n..])
  {
    n := from + DigitRun(s[from..]);
    assert s[from..n] == s[from..][..n - from] && s[n..] == s[from..][n - from..];
    SmallValue(s, from, n);
    InWord(Value(s[from..n]));
    hide Value, DigitRun;
  }

  lemma InWord(v: nat)
    requires v < ULONG
    ensures v % ULONG == v
  {
  }

  lemma ResponseAt(s: string, i: nat, n: nat)
    requires RunFrom(s, i + 3, n)
    ensures n <= |s| && Digits(s[i + 3..n])
    ensures var found := Find(s[n..], "r=");
      && (found.None? ==> ResponseIn(s[n..]) == None)
      && (found.Some? ==> ResponseIn(s[n..]).Some?
                          && (Value(s[i + 3..n]), ResponseIn(s[n..]).value) == ReplyOfParts(s, i, n, n + found.value))
  {
    hide Find, Value;
  }

  lemma SmallValue(s: string, from: nat, n: nat)
    requires from <= n <= |s| <= 18 && Digits(s[from..n])
    ensures Value(s[from..n]) < ULONG
  {
    ValueIsSmall(s[from..n]);
    Pow10Increases(n - from, 18);
    assert Pow10(18) < ULONG by {
      assert Pow10(4) == 10_000;
      assert Pow10(8) == 100_000_000;
      assert Pow10(12) == 1_000_000_000_000;
      assert Pow10(16) == 10_000_000_000_000_000;
    }
  }

  lemma KeyIsFirst(s: string, from: nat, key: string)
    requires from <= |s|
    ensures var found := Find(s[from..], key);
      && (found.Some? ==> FirstFrom(s, from, from + found.value, key) && from + found.value + |key| <= |s|)
      && (found.None? ==> forall i: nat :: !FirstFrom(s, from, i, key))
  {
    FindIsFirst(s[from..], key);
    forall k | from <= k ensures MatchAt(s, k, key) <==> MatchAt(s[from..], k - from, key) {
      if k + |key| <= |s| { assert s[from..][k - from..k - from + |key|] == s[k..k + |key|]; }
    }
  }

  lemma NoParts(s: string, i: nat, n: nat)
    requires FirstFrom(s, 0, i, "id=") && RunFrom(s, i + 3, n) && forall j: nat :: !FirstFrom(s, n, j, "r=")
    ensures forall i: nat, n: nat, j: nat :: !ReplyParts(s, i, n, j)
  {
    PartsAreThese(s, i, n);
    hide FirstFrom, RunFrom;
  }

  lemma OneParts(s: string, i: nat, n: nat, j: nat)
    requires FirstFrom(s, 0, i, "id=") && RunFrom(s, i + 3, n) && FirstFrom(s, n, j, "r=")
    ensures ReplyParts(s, i, n, j)
    ensures forall i': nat, n': nat, j': nat | ReplyParts(s, i', n', j') :: i' == i && n' == n && j' == j
  {
    PartsAreThese(s, i, n);
    forall i': nat, n': nat, j': nat | ReplyParts(s, i', n', j') ensures j' == j { FirstIsOne(s, n, j, j', "r="); }
    hide FirstFrom, RunFrom;
  }

  /** There is only one way to take a reply apart. */
  lemma PartsAreThese(s: string, i: nat, n: nat)
    requires FirstFrom(s, 0, i, "id=") && RunFrom(s, i + 3, n)
    ensures forall i': nat, n': nat, j': nat | ReplyParts(s, i', n', j') :: i' == i && n' == n
  {
    hide FirstFrom, RunFrom;
    forall i': nat, n': nat, j': nat | ReplyParts(s, i', n', j') ensures i' == i && n' == n {
      FirstIsOne(s, 0, i, i', "id=");
      RunIsOne(s, i + 3, n, n');
    }
  }

  lemma FirstIsOne(s: string, from: nat, i: nat, j: nat, key: string)
    requires FirstFrom(s, from, i, key) && FirstFrom(s, from, j, key)
    ensures i == j
  {
  }

  lemma RunIsOne(s: string, from: nat, n: nat, m: nat)
    requires RunFrom(s, from, n) && RunFrom(s, from, m)
    ensures n == m
  {
    DigitsAt(s, from, n);
    DigitsAt(s, from, m);
  }

  lemma DigitsAt(s: string, from: nat, n: nat)
    requires RunFrom(s, from, n)
    ensures forall k | from <= k < n :: IsDigit(s[k])
  {
    forall k | from <= k < n ensures IsDigit(s[k]) { assert s[from..n][k - from] == s[k]; }
  }

  /** A reply in the documented form, as a line or with anything else behind its digit. */
  lemma ReplyLine(id: nat, c: char, tail: seq<char>)
    requires id < ULONG && |Dec(id)| + |tail| <= 11
    ensures ParseReply("id=" + Dec(id) + " r=" + [c] + tail) == Some((id, if c == '0' then ALLOW else DENY))
  {
    var data := "id=" + Dec(id) + " r=" + [c] + tail;
    var rest := CStr([c] + tail);
    ReplyKept(id, c, tail);
    hide Dec, Find, SimpleStrtoul, CStr;
    FoundAtStart("id=", Dec(id) + (" r=" + rest));
    SimpleStrtoulOfPrinted(id, " r=" + rest);
    FoundAfter(' ', "r=", rest);
  }

  lemma ReplyKept(id: nat, c: char, tail: seq<char>)
    ensures var rest := CStr([c] + tail);
      && CStr("id=" + Dec(id) + " r=" + [c] + tail) == "id=" + (Dec(id) + (" r=" + rest))
      && (" r=" + rest) == [' '] + "r=" + rest
      && (2 < |"r=" + rest| && ("r=" + rest)[2] == '0' <==> c == '0')
  {
    DecHasNoNul(id);
    var rest := CStr([c] + tail);
    hide Dec, CStr;
    var head := "id=" + (Dec(id) + " r=");
    CStrAppends(head, [c] + tail);
    assert head + ([c] + tail) == "id=" + Dec(id) + " r=" + [c] + tail;
    assert head + rest == "id=" + (Dec(id) + (" r=" + rest));
    DigitKept(c, tail);
  }

  lemma DigitKept(c: char, tail: seq<char>)
    ensures var rest := CStr([c] + tail);
      && (" r=" + rest) == [' '] + "r=" + rest
      && (2 < |"r=" + rest| && ("r=" + rest)[2] == '0' <==> c == '0')
  {
  }

  lemma {:induction false} CStrAppends(s: string, t: seq<char>)
    requires NUL !in s
    ensures CStr(s + t) == s + CStr(t)
  {
    if s == [] {
      assert s + t == t;
    } else {
      assert (s + t)[1..] == s[1..] + t;
      CStrAppends(s[1..], t);
    }
  }

  /** An id of at most eleven digits survives with its response; with twelve digits every response
      is read as DENY; longer ones are refused. */
  lemma ReplyOutcome(id: nat, deny: bool)
    requires id < ULONG
    ensures ParseReply(ReplyText(id, deny)) ==
      if |Dec(id)| <= 11 then Some(Answered(id, deny)) else if |Dec(id)| == 12 then Some((id, DENY)) else None
  {
    hide Dec, ParseReply, Find, CStr;
    var text := ReplyText(id, deny);
    var r := if deny then "1" else "0";
    if |Dec(id)| <= 11 {
      var tail := " " + "r=" + r;
      assert text == "id=" + (Dec(id) + tail);
      FoundAfter(' ', "r=", r);
      ParseOfReply(text, id, tail);
    } else if |Dec(id)| == 12 {
      var tail := " " + "r=" + "";
      assert text[..18] == "id=" + (Dec(id) + tail);
      FoundAfter(' ', "r=", "");
      ParseOfReply(text, id, tail);
    } else {
      LongReply(id, deny);
    }
  }

  /** Of a longer id at most the digits, the blank and the letter of "r=" are left. */
  lemma LongReply(id: nat, deny: bool)
    requires id < ULONG && |Dec(id)| > 12
    ensures ParseReply(ReplyText(id, deny)) == None
  {
    var text := ReplyText(id, deny);
    var d := Dec(id);
    ValueOfDec(id);
    DecHasNoNul(id);
    hide CStr, Find, Dec, DigitRun, ResponseIn;
    CStrOfPrinted(text[..18], []);
    if |d| <= 15 {
      var tail := (" r=" + "")[..15 - |d|];
      assert text[..18] == "id=" + (d + tail);
      ShortTail(tail);
      ParseOfReply(text, id, tail);
    } else {
      assert text[..18] == "id=" + d[..15];
      FoundAtStart("id=", d[..15]);
      DigitRunOf(d[..15], "");
      assert d[..15] + "" == d[..15];
      ShortTail("");
    }
  }

  lemma ShortTail(tail: string)
    requires |tail| <= 2 && tail <= " r="
    ensures ResponseIn(tail) == None
  {
    assert !MatchAt(tail, 0, "r=") by {
      if |tail| == 2 { assert tail[0..2][0] == ' '; }
    }
    FindIsFirst(tail, "r=");
  }

  /** The reply means what the library meant exactly for ids of at most eleven digits, or twelve
      when access is denied. */
  lemma ReplyRoundTrip(id: nat, deny: bool)
    requires id < ULONG
    ensures ParseReply(ReplyText(id, deny)) == Some(Answered(id, deny)) <==> |Dec(id)| <= 11 || (|Dec(id)| == 12 && deny)
  {
    ReplyOutcome(id, deny);
  }

  lemma Pow10Values()
    ensures Pow10(11) == 100_000_000_000 && Pow10(12) == 1_000_000_000_000
  {
  }

  /** Every event posted while the counter is not negative can be answered; once the 32-bit counter
      has wrapped to negative values, no reply is understood. */
  lemma OnlyEarlyIdsCanBeAnswered(n: int, deny: bool)
    requires -0x8000_0000 <= n < 0x8000_0000
    ensures var id := AsUnsignedLong(n);
      && (n >= 0 ==> ParseReply(ReplyText(id, deny)) == Some(Answered(id, deny)))
      && (n < 0 ==> ParseReply(ReplyText(id, deny)) == None)
  {
    var id := AsUnsignedLong(n);
    Pow10Values();
    DecLength(id, 11);
    DecLength(id, 12);
    ReplyOutcome(id, deny);
  }

  // ---------------------------------------------------------------- group_dev.c

  /** What `dazukofs_get_event` came back with. */
  datatype Got = Got(id: nat, fd: int, pid: int) | Failed(error: int)

  /** `dazukofs_group_read`. `reposted` tells whether the event was handed back. */
  method GroupRead(got: Got, buffer: array<char>, length: nat, pos: nat, fault: bool)
    returns (ret: int, newPos: nat, reposted: bool)
    requires length <= buffer.Length && (got.Failed? ==> got.error > 0)
    modifies buffer
    ensures pos > 0 ==> ret == 0 && newPos == pos
    ensures pos == 0 && length < MIN_READ_BUFFER ==> ret == -EINVAL
    ensures pos == 0 && length >= MIN_READ_BUFFER && got.Failed? ==>
              ret == if got.error == ERESTARTSYS then -EINTR else if got.error == ENFILE then -EIO else -got.error
    ensures pos == 0 && length >= MIN_READ_BUFFER && got.Got? ==>
              var b := Sent(got.id, got.fd, got.pid);
              if b.None? then ret == -EINVAL
              else if fault then ret == -EFAULT
              else ret == newPos == |b.value| && buffer[..ret] == b.value
    ensures forall k | 0 <= k < buffer.Length && k >= ret :: buffer[k] == old(buffer[k])
    ensures ret <= 0 ==> newPos == pos
    // an event that was fetched is either delivered or handed back
    ensures reposted <==> pos == 0 && length >= MIN_READ_BUFFER && got.Got? && ret < 0
  {
    newPos, reposted := pos, false;
    if pos > 0 { return 0, pos, false; }
    if length < MIN_READ_BUFFER { return -EINVAL, pos, false; }
    if got.Failed? {
      ret := if got.error == ERESTARTSYS then -EINTR else if got.error == ENFILE then -EIO else -got.error;
      return;
    }
    var tmp := new char[MIN_READ_BUFFER];
    var used := Snprintf(tmp, 0, MIN_READ_BUFFER - 1, EventText(got.id, got.fd, got.pid));
    if used >= MIN_READ_BUFFER { return -EINVAL, pos, true; }
    if fault { return -EFAULT, pos, true; }
    assert tmp[..used] == Printed(EventText(got.id, got.fd, got.pid), MIN_READ_BUFFER - 1)[..used];
    CopyOut(tmp, used, buffer);
    newPos, ret := used, used;
  }

  /** What `copy_to_user` does when it succeeds. */
  method CopyOut(tmp: array<char>, used: nat, buffer: array<char>)
    requires used <= tmp.Length && used <= buffer.Length && tmp != buffer
    modifies buffer
    ensures buffer[..used] == tmp[..used] && forall k | used <= k < buffer.Length :: buffer[k] == old(buffer[k])
  {
    var i := 0;
    while i < used
      invariant i <= used && buffer[..i] == tmp[..i]
      invariant forall k | i <= k < buffer.Length :: buffer[k] == old(buffer[k])
    {
      buffer[i] := tmp[i];
      i := i + 1;
    }
  }

  /** The string that the kernel's buffer holds after the user's bytes have been copied in. */
  method CopyReply(data: seq<char>) returns (s: string)
    ensures s == CStr(if |data| < MAX_WRITE_BUFFER then data else data[..MAX_WRITE_BUFFER - 1])
  {
    var length := |data|;
    if length >= MAX_WRITE_BUFFER { length := MAX_WRITE_BUFFER - 1; }
    var tmp := new char[MAX_WRITE_BUFFER];
    CopyString(tmp, data[..length]);
    assert data[..|data|] == data;
    s := CStr(tmp[..]);
  }

  /** The parsing in `dazukofs_group_write`. */
  method ReadReply(data: seq<char>) returns (call: Option<(nat, Response)>)
    ensures call == ParseReply(data)
  {
    var s := CopyReply(data);
    hide CStr, Find, SimpleStrtoul;
    var p := Find(s, "id=");
    if p == None { return None; }
    var (eventId, p2) := SimpleStrtoul(s[p.value + 3..]);
    p := Find(p2, "r=");
    if p == None { return None; }
    var response := ALLOW;
    if (if p.value + 2 < |p2| then p2[p.value + 2] else NUL) != '0' { response := DENY; }
    call := Some((eventId, response));
  }

  /** `dazukofs_group_write`. `answer` is what `dazukofs_return_event` has to say about the call. */
  method GroupWrite(data: seq<char>, pos: nat, fault: bool, answer: int)
    returns (ret: int, newPos: nat, call: Option<(nat, Response)>)
    requires answer <= 0
    ensures call == if fault then None else ParseReply(data)
    ensures fault ==> ret == -EFAULT
    ensures !fault && call == None ==> ret == -EINVAL
    ensures call.Some? && answer == 0 ==> ret == newPos - pos == if |data| < MAX_WRITE_BUFFER then |data| else MAX_WRITE_BUFFER - 1
    ensures call.Some? && answer < 0 ==> ret == if answer == -ERESTARTSYS then -EINTR else answer
    ensures call.None? || answer < 0 ==> newPos == pos
  {
    newPos := pos;
    if fault { return -EFAULT, pos, None; }
    call := ReadReply(data);
    if call == None { return -EINVAL, pos, None; }
    ret := answer;
    if ret == 0 {
      ret := if |data| >= MAX_WRITE_BUFFER then MAX_WRITE_BUFFER - 1 else |data|;
      newPos := pos + ret;
    } else if ret == -ERESTARTSYS {
      ret := -EINTR;
    }
  }
}
