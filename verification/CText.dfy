/** The C string functions that both ends of the device files rely on, on finite buffers. */
module CText {
  import opened Kernel

  const NUL: char := '\0'

  /** One more than the largest unsigned long. */
  const ULONG: nat := 0x1_0000_0000_0000_0000

  /** The string that starts a buffer: everything before the first NUL. */
  function CStr(m: seq<char>): (s: string)
    ensures s <= m && NUL !in s && (|s| < |m| ==> m[|s|] == NUL)
  {
    if m == [] || m[0] == NUL then [] else [m[0]] + CStr(m[1..])
  }

  lemma {:induction false} CStrOfPrinted(s: string, rest: seq<char>)
    requires NUL !in s
    ensures CStr(s + [NUL] + rest) == s
    ensures CStr(s) == s
  {
    if s != [] {
      CStrOfPrinted(s[1..], rest);
      assert (s + [NUL] + rest)[1..] == s[1..] + [NUL] + rest;
    }
  }

  /** A terminator after the data does not change the string in it. */
  lemma {:induction false} CStrBeforeNul(data: seq<char>, rest: seq<char>)
    ensures CStr(data + [NUL] + rest) == CStr(data)
  {
    if data != [] {
      CStrBeforeNul(data[1..], rest);
      assert (data + [NUL] + rest)[1..] == data[1..] + [NUL] + rest;
    }
  }

  /** `m` starts with the string `s` and its terminator. */
  ghost predicate Holds(m: seq<char>, s: string) {
    |s| < |m| && m[..|s|] == s && NUL !in s && m[|s|] == NUL
  }

  lemma HoldsIsCStr(m: seq<char>, s: string)
    ensures Holds(m, s) <==> |s| < |m| && CStr(m) == s
  {
  }

  predicate MatchAt(s: string, i: int, key: string) {
    0 <= i && i + |key| <= |s| && s[i..i + |key|] == key
  }

  /** `i` is the first match of the key at `from` or behind. */
  ghost predicate FirstFrom(s: string, from: nat, i: nat, key: string) {
    from <= i && MatchAt(s, i, key) && forall k | from <= k < i :: !MatchAt(s, k, key)
  }

  /** `strstr`: the first match. */
  function Find(s: string, key: string): (r: Option<nat>)
    ensures r.Some? ==> r.value + |key| <= |s|
  {
    if |s| < |key| then None
    else if s[..|key|] == key then Some(0)
    else
      match Find(s[1..], key)
      case None => None
      case Some(i) => Some(i + 1)
  }

  lemma {:induction false} FindIsFirst(s: string, key: string)
    ensures var r := Find(s, key);
      && (r.Some? ==> MatchAt(s, r.value, key) && forall j | 0 <= j < r.value :: !MatchAt(s, j, key))
      && (r.None? ==> forall j :: !MatchAt(s, j, key))
  {
    FindSteps(s, key);
    if |s| >= |key| && s[..|key|] != key {
      FindIsFirst(s[1..], key);
      forall j | 0 < j ensures MatchAt(s, j, key) <==> MatchAt(s[1..], j - 1, key) { MatchInTail(s, j, key); }
    }
    hide MatchAt, Find;
  }

  lemma FindSteps(s: string, key: string)
    ensures |s| < |key| ==> Find(s, key) == None && forall j :: !MatchAt(s, j, key)
    ensures |s| >= |key| && s[..|key|] == key ==> Find(s, key) == Some(0) && MatchAt(s, 0, key)
    ensures |s| >= |key| && s[..|key|] != key ==>
              && s != [] && !MatchAt(s, 0, key) && (forall j | j < 0 :: !MatchAt(s, j, key))
              && Find(s, key) == match Find(s[1..], key) case None => None case Some(i) => Some(i + 1)
  {
  }

  lemma MatchInTail(s: string, j: int, key: string)
    requires s != [] && j > 0
    ensures MatchAt(s, j, key) <==> MatchAt(s[1..], j - 1, key)
  {
    if j + |key| <= |s| { assert s[1..][j - 1..j - 1 + |key|] == s[j..j + |key|]; }
  }

  // ---------------------------------------------------------------- numbers

  predicate IsDigit(c: char) { '0' <= c <= '9' }

  function Digit(d: nat): (c: char)
    requires d < 10
    ensures IsDigit(c)
  {
    '0' + d as char
  }

  /** `%lu`. */
  function Dec(n: nat): (s: string)
    ensures s != []
  {
    if n < 10 then [Digit(n)] else Dec(n / 10) + [Digit(n % 10)]
  }

  /** `%d`. */
  function SDec(n: int): string {
    if n < 0 then "-" + Dec(-n) else Dec(n)
  }

  predicate Digits(s: string) { forall i | 0 <= i < |s| :: IsDigit(s[i]) }

  function Value(s: string): nat
    requires Digits(s)
  {
    if s == [] then 0 else Value(s[..|s| - 1]) * 10 + (s[|s| - 1] - '0') as nat
  }

  lemma {:induction false} ValueOfDec(n: nat)
    ensures Digits(Dec(n)) && Value(Dec(n)) == n
  {
    if n >= 10 {
      ValueOfDec(n / 10);
      assert Dec(n)[..|Dec(n)| - 1] == Dec(n / 10);
    } else {
      assert Dec(n)[..0] == [];
    }
  }

  function Pow10(d: nat): nat { if d == 0 then 1 else 10 * Pow10(d - 1) }

  /** How long a printed number is. */
  lemma {:induction false} DecLength(n: nat, d: nat)
    requires d > 0
    ensures |Dec(n)| <= d <==> n < Pow10(d)
  {
    if d == 1 {
      assert Pow10(1) == 10 by { assert Pow10(0) == 1; }
      if n >= 10 { assert |Dec(n / 10)| >= 1; }
    } else if n >= 10 {
      DecLength(n / 10, d - 1);
    } else {
      Pow10Grows(d);
    }
  }

  lemma {:induction false} Pow10Grows(d: nat)
    requires d > 0
    ensures Pow10(d) >= 10
  {
    if d > 1 { Pow10Grows(d - 1); } else { assert Pow10(0) == 1; }
  }

  lemma {:induction false} ValueIsSmall(s: string)
    requires Digits(s)
    ensures Value(s) < Pow10(|s|)
  {
    if s != [] { ValueIsSmall(s[..|s| - 1]); }
  }

  lemma {:induction false} Pow10Increases(d: nat, e: nat)
    requires d <= e
    ensures Pow10(d) <= Pow10(e)
  {
    if d < e { Pow10Increases(d, e - 1); }
  }

  function DigitRun(s: string): (n: nat)
    ensures n <= |s| && Digits(s[..n]) && (n < |s| ==> !IsDigit(s[n]))
  {
    if s == [] || !IsDigit(s[0]) then 0
    else
      var n := DigitRun(s[1..]);
      assert s[..n + 1] == [s[0]] + s[1..][..n];
      n + 1
  }

  lemma {:induction false} DigitRunOf(d: string, rest: string)
    requires Digits(d) && (rest == [] || !IsDigit(rest[0]))
    ensures DigitRun(d + rest) == |d| && (d + rest)[..|d|] == d && (d + rest)[|d|..] == rest
  {
  }

  /** The kernel's `simple_strtoul` in base 10: digits only, modulo the word size. */
  function SimpleStrtoul(s: string): (nat, string) {
    var n := DigitRun(s);
    (Value(s[..n]) % ULONG, s[n..])
  }

  predicate IsSpace(c: char) { c == ' ' || '\t' <= c <= '\r' }

  function SkipSpace(s: string): string {
    if s != [] && IsSpace(s[0]) then SkipSpace(s[1..]) else s
  }

  /** The sign and digits that `strtoul` and `strtol` convert, and what follows them. */
  function Scan(s: string): (bool, nat, string) {
    var t := SkipSpace(s);
    var neg := t != [] && t[0] == '-';
    var u := if t != [] && (t[0] == '-' || t[0] == '+') then t[1..] else t;
    var n := DigitRun(u);
    if n == 0 then (false, 0, s) else (neg, Value(u[..n]), u[n..])
  }

  function Strtoul(s: string): (nat, string) {
    var (neg, v, rest) := Scan(s);
    (if v >= ULONG then ULONG - 1 else if neg then (ULONG - v) % ULONG else v, rest)
  }

  function Strtol(s: string): (int, string) {
    var (neg, v, rest) := Scan(s);
    var n := if neg then 0 - v else v;
    (if n >= ULONG / 2 then ULONG / 2 - 1 else if n < -(ULONG / 2) then -(ULONG / 2) else n, rest)
  }

  predicate Spaces(s: string) { forall i | 0 <= i < |s| :: IsSpace(s[i]) }

  lemma {:induction false} SpacesAreSkipped(w: string, t: string)
    requires Spaces(w) && (t == [] || !IsSpace(t[0]))
    ensures SkipSpace(w + t) == t
  {
    if w == [] {
      assert w + t == t;
    } else {
      assert (w + t)[1..] == w[1..] + t;
      SpacesAreSkipped(w[1..], t);
    }
  }

  /** White space, a sign and digits are converted, whatever follows them. */
  lemma ScanExactly(w: string, sign: string, d: string, rest: string)
    requires Spaces(w) && (sign == "" || sign == "-" || sign == "+")
    requires Digits(d) && d != [] && (rest == [] || !IsDigit(rest[0]))
    ensures Scan(w + (sign + (d + rest))) == (sign == "-", Value(d), rest)
  {
    var t := sign + (d + rest);
    assert t[0] == if sign == "" then d[0] else sign[0];
    assert IsDigit(d[0]);
    SpacesAreSkipped(w, t);
    DigitRunOf(d, rest);
    assert sign != "" ==> t[1..] == d + rest;
    assert sign == "" ==> t == d + rest;
    hide Value, DigitRun, SkipSpace, Digits, Spaces;
  }

  /** Numbers that fit are converted as they are, a negative one modulo the word by `strtoul`; others
      become the largest or the least number there is. */
  lemma ConversionsExactly(s: string)
    ensures var (neg, v, rest) := Scan(s);
      var n: int := if neg then 0 - v else v;
      && Strtoul(s).1 == Strtol(s).1 == rest && Strtoul(s).0 < ULONG
      && (v < ULONG ==> Strtoul(s).0 == n || Strtoul(s).0 == n + ULONG)
      && (v >= ULONG ==> Strtoul(s).0 == ULONG - 1)
      && Strtol(s).0 == if n > MAX_LONG then MAX_LONG else if n < MIN_LONG then MIN_LONG else n
  {
    var (neg, v, rest) := Scan(s);
    hide Scan;
    if v < ULONG { Wraps(v); }
  }

  const MAX_LONG := 9_223_372_036_854_775_807
  const MIN_LONG := -9_223_372_036_854_775_808

  lemma Wraps(v: nat)
    requires v < ULONG
    ensures (ULONG - v) % ULONG == if v == 0 then 0 else ULONG - v
  {
  }

  predicate IsInt32(n: int) { -0x8000_0000 <= n < 0x8000_0000 }

  /** The conversion to a 32-bit int. */
  function ToInt32(n: int): int {
    var m := n % 0x1_0000_0000;
    if m >= 0x8000_0000 then m - 0x1_0000_0000 else m
  }

  lemma ScanOfPrinted(n: int, rest: string)
    requires rest == [] || !IsDigit(rest[0])
    ensures Scan(SDec(n) + rest) == (n < 0, if n < 0 then -n else n, rest)
  {
    if n < 0 {
      assert SDec(n) + rest == "-" + (Dec(-n) + rest);
      ScanOfMinus(-n, rest);
    } else {
      ScanOfDigits(n, rest);
    }
    hide Scan, Dec;
  }

  lemma ScanOfMinus(n: nat, rest: string)
    requires rest == [] || !IsDigit(rest[0])
    ensures Scan("-" + (Dec(n) + rest)) == (true, n, rest)
  {
    ValueOfDec(n);
    DigitRunOf(Dec(n), rest);
    hide Dec, Value, DigitRun;
    var t := "-" + (Dec(n) + rest);
    assert t[0] == '-' && t[1..] == Dec(n) + rest && SkipSpace(t) == t;
  }

  lemma ScanOfDigits(n: nat, rest: string)
    requires rest == [] || !IsDigit(rest[0])
    ensures Scan(Dec(n) + rest) == (false, n, rest)
  {
    ValueOfDec(n);
    DigitRunOf(Dec(n), rest);
    hide Dec, Value, DigitRun;
    var t := Dec(n) + rest;
    assert t[0] == Dec(n)[0] && IsDigit(t[0]) && SkipSpace(t) == t;
  }

  lemma StrtoulOfPrinted(n: nat, rest: string)
    requires n < ULONG && (rest == [] || !IsDigit(rest[0]))
    ensures Strtoul(Dec(n) + rest) == (n, rest)
  {
    ScanOfPrinted(n, rest);
  }

  lemma SimpleStrtoulOfPrinted(n: nat, rest: string)
    requires n < ULONG && (rest == [] || !IsDigit(rest[0]))
    ensures SimpleStrtoul(Dec(n) + rest) == (n, rest)
  {
    ValueOfDec(n);
    DigitRunOf(Dec(n), rest);
  }

  /** A printed int survives `strtol` and the cast; through `strtoul` it comes back as C converts
      an int to unsigned long. */
  lemma IntsOfPrinted(n: int, rest: string)
    requires IsInt32(n) && (rest == [] || !IsDigit(rest[0]))
    ensures Strtol(SDec(n) + rest) == (n, rest) && ToInt32(n) == n
    ensures Strtoul(SDec(n) + rest) == (AsUnsignedLong(n), rest)
  {
    hide Scan, SDec;
    ScanOfPrinted(n, rest);
  }

  lemma DecHasNoNul(n: nat)
    ensures NUL !in Dec(n)
  {
  }

  // ---------------------------------------------------------------- writing into buffers

  /** What `snprintf` leaves in the first bytes of a buffer of `size`. */
  function Printed(text: string, size: nat): (r: seq<char>)
    ensures |r| <= size
  {
    if size == 0 then []
    else if |text| < size then text + [NUL]
    else text[..size - 1] + [NUL]
  }

  /** `snprintf` of an already formatted text at offset `at`; the result is the full length. */
  method Snprintf(buf: array<char>, at: nat, size: nat, text: string) returns (n: nat)
    requires at + size <= buf.Length
    modifies buf
    ensures n == |text|
    ensures var p := Printed(text, size);
      && buf[..at] == old(buf[..at]) && buf[at..at + |p|] == p && buf[at + |p|..] == old(buf[at + |p|..])
  {
    n := |text|;
    if size == 0 { return; }
    var i := 0;
    while i < size - 1 && i < |text|
      invariant i <= |text| && i <= size - 1
      invariant forall k | 0 <= k < i :: buf[at + k] == text[k]
      invariant forall k | 0 <= k < buf.Length && !(at <= k < at + i) :: buf[k] == old(buf[k])
    {
      buf[at + i] := text[i];
      i := i + 1;
    }
    buf[at + i] := NUL;
    assert buf[at..at + i + 1] == text[..i] + [NUL] == Printed(text, size);
  }

  /** Data copied to the start of a buffer and terminated there. */
  method CopyString(buf: array<char>, data: seq<char>)
    requires |data| < buf.Length
    modifies buf
    ensures buf[..|data| + 1] == data + [NUL] && CStr(buf[..]) == CStr(data)
    ensures forall k | |data| < k < buf.Length :: buf[k] == old(buf[k])
  {
    var n := 0;
    while n < |data|
      invariant n <= |data| && forall k | 0 <= k < n :: buf[k] == data[k]
      invariant forall k | n <= k < buf.Length :: buf[k] == old(buf[k])
    {
      buf[n] := data[n];
      n := n + 1;
    }
    buf[n] := NUL;
    assert buf[..] == data + [NUL] + buf[n + 1..];
    CStrBeforeNul(data, buf[n + 1..]);
  }
}
