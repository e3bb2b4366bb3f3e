/** The list of groups as text: what `dazukofs_get_groups` prints (event.c), how it is read in
    pieces (ctrl_dev.c), and how the library finds a group in it (test/lib/dazukofs.c). */
module Listing {
  import opened Kernel
  import opened CText
  import opened Messages
  import opened Control

  datatype Entry = Entry(id: nat, name: string)

  /** The active groups in list order. */
  function Entries(list: seq<Addr>, groups: map<Addr, Group>): seq<Entry>
    requires forall a | a in list :: a in groups
  {
    if list == [] then []
    else (if groups[list[0]].deprecated then [] else [Entry(groups[list[0]].id, groups[list[0]].name)])
         + Entries(list[1..], groups)
  }

  function Text(e: Entry): string { Dec(e.id) + ":" + e.name + "\n" }

  /** The promised listing. */
  function Lines(es: seq<Entry>): string {
    if es == [] then "" else Text(es[0]) + Lines(es[1..])
  }

  /** What the source reserves for an entry: one digit, two separators and the name. */
  function Room(e: Entry): nat { |e.name| + 3 }

  function Needed(es: seq<Entry>): nat {
    if es == [] then 0 else Room(es[0]) + Needed(es[1..])
  }

  /** The entries cut to the room reserved for them. */
  function Cut(es: seq<Entry>): (s: string)
    ensures |s| == Needed(es)
  {
    if es == [] then ""
    else
      assert |Text(es[0])| >= Room(es[0]);
      Text(es[0])[..Room(es[0])] + Cut(es[1..])
  }

  function Most(text: string, n: nat): string { if |text| <= n then text else text[..n] }

  /** What can be read from a buffer of `size` bytes: an entry loses what is over its room to the
      next one, and the last entry what is over the end of the buffer. */
  function Shown(es: seq<Entry>, size: nat): string
    requires Needed(es) + 2 <= size
  {
    if es == [] then ""
    else if |es| == 1 then Most(Text(es[0]), size - 2)
    else
      assert |Text(es[0])| >= Room(es[0]);
      Text(es[0])[..Room(es[0])] + Shown(es[1..], size - Room(es[0]))
  }

  ghost predicate OneDigit(e: Entry) { e.id < 10 }

  ghost predicate OneDigits(es: seq<Entry>) { forall i | 0 <= i < |es| :: OneDigit(es[i]) }

  lemma TextLength(e: Entry)
    ensures |Text(e)| >= Room(e) && (|Text(e)| == Room(e) <==> OneDigit(e))
  {
  }

  /** Every id before the last entry has one digit, and the last entry fits. */
  ghost predicate Fits(es: seq<Entry>, size: int) {
    if es == [] then true
    else if |es| == 1 then |Text(es[0])| + 2 <= size
    else OneDigit(es[0]) && Fits(es[1..], size - Room(es[0]))
  }

  lemma {:induction false} ShownLength(es: seq<Entry>, size: nat)
    requires Needed(es) + 2 <= size
    ensures |Shown(es, size)| <= |Lines(es)|
    ensures |Shown(es, size)| == |Lines(es)| <==> Fits(es, size)
    ensures Fits(es, size) ==> Shown(es, size) == Lines(es)
  {
    if |es| == 1 {
      assert es[1..] == [];
    } else if es != [] {
      TextLength(es[0]);
      ShownLength(es[1..], size - Room(es[0]));
      hide Text;
      if OneDigit(es[0]) { assert Text(es[0])[..Room(es[0])] == Text(es[0]); }
    }
  }

  lemma {:induction false} SingleDigitsFit(es: seq<Entry>, size: nat)
    requires Needed(es) + 2 <= size && OneDigits(es)
    ensures Fits(es, size)
  {
    if es != [] {
      TextLength(es[0]);
      hide Text;
      if |es| > 1 { SingleDigitsFit(es[1..], size - Room(es[0])); }
    }
  }

  /** In whatever buffer is large enough for the code, the listing is what it should be exactly when
      every id before the last entry has one digit and the last entry fits; in particular whenever all
      ids have one digit. */
  lemma ListingIsExact(es: seq<Entry>, size: nat)
    requires Needed(es) + 2 <= size
    ensures Shown(es, size) == Lines(es) <==> Fits(es, size)
    ensures OneDigits(es) ==> Shown(es, size) == Lines(es)
  {
    ShownLength(es, size);
    if OneDigits(es) { SingleDigitsFit(es, size); }
    hide Needed, Shown, Lines, Fits;
  }

  /** One entry more at the end. */
  lemma {:induction false} CutSnoc(es: seq<Entry>, e: Entry)
    ensures Needed(es + [e]) == Needed(es) + Room(e)
    ensures |Text(e)| >= Room(e) && Cut(es + [e]) == Cut(es) + Text(e)[..Room(e)]
  {
    TextLength(e);
    hide Text;
    if es == [] {
      assert es + [e] == [e] && [e][1..] == [];
    } else {
      assert (es + [e])[1..] == es[1..] + [e];
      CutSnoc(es[1..], e);
    }
  }

  lemma {:induction false} ShownSnoc(es: seq<Entry>, e: Entry, size: nat)
    requires Needed(es) + Room(e) + 2 <= size
    ensures Needed(es + [e]) == Needed(es) + Room(e)
    ensures Shown(es + [e], size) == Cut(es) + Most(Text(e), size - 2 - Needed(es))
  {
    hide *;
    CutSnoc(es, e);
    if es == [] {
      ShownOne(es, e, size);
    } else {
      ShownStep(es, e, size);
      ShownSnoc(es[1..], e, size - Room(es[0]));
    }
  }

  lemma ShownOne(es: seq<Entry>, e: Entry, size: nat)
    requires es == [] && Needed(es + [e]) + 2 <= size
    ensures Shown(es + [e], size) == Cut(es) + Most(Text(e), size - 2 - Needed(es))
  {
    hide Text, Most;
    assert es + [e] == [e];
  }

  lemma ShownStep(es: seq<Entry>, e: Entry, size: nat)
    requires es != [] && Needed(es + [e]) + 2 <= size && Needed(es + [e]) == Needed(es) + Room(e)
    ensures |Text(es[0])| >= Room(es[0]) && Room(es[0]) <= size
    ensures Needed(es) == Room(es[0]) + Needed(es[1..]) && Cut(es) == Text(es[0])[..Room(es[0])] + Cut(es[1..])
    ensures Needed(es[1..] + [e]) + 2 <= size - Room(es[0])
    ensures Shown(es + [e], size) == Text(es[0])[..Room(es[0])] + Shown(es[1..] + [e], size - Room(es[0]))
  {
    TextLength(es[0]);
    hide Text;
    assert (es + [e])[1..] == es[1..] + [e];
  }

  // ---------------------------------------------------------------- finding a group

  function SearchKey(name: string): string { ":" + name + "\n" }

  /** The library's search: the digit in front of the first match. */
  function LibraryLookup(listing: string, name: string): Option<nat> {
    match Find(listing, SearchKey(name))
    case None => None
    case Some(i) =>
      if i == 0 || !IsDigit(listing[i - 1]) then None else Some((listing[i - 1] - '0') as nat)
  }

  /** The room in which the first entry is printed. */
  function Space(es: seq<Entry>, size: nat): nat
    requires es != [] && Needed(es) + 2 <= size
  {
    if |es| == 1 then size - 2 else Room(es[0])
  }

  /** What follows the first entry. */
  function After(es: seq<Entry>, size: nat): string
    requires es != [] && Needed(es) + 2 <= size
  {
    if |es| == 1 then "" else Shown(es[1..], size - Room(es[0]))
  }

  lemma ShownFirst(es: seq<Entry>, size: nat)
    requires es != [] && Needed(es) + 2 <= size
    ensures Shown(es, size) == Most(Text(es[0]), Space(es, size)) + After(es, size) && Space(es, size) >= Room(es[0])
  {
    TextLength(es[0]);
    hide Text;
  }

  /** The entries that are printed whole. */
  function Whole(es: seq<Entry>, size: nat): seq<Entry>
    requires Needed(es) + 2 <= size
  {
    if es == [] then []
    else
      (if |Text(es[0])| <= Space(es, size) then [es[0]] else [])
      + if |es| == 1 then [] else Whole(es[1..], size - Room(es[0]))
  }

  /** Position `j` is the colon of an entry called `name` that is printed whole. */
  ghost predicate ColonOf(es: seq<Entry>, size: nat, j: int, name: string)
    requires Needed(es) + 2 <= size
  {
    && es != []
    && ((j == |Dec(es[0].id)| && es[0].name == name && |Text(es[0])| <= Space(es, size))
        || (|es| > 1 && ColonOf(es[1..], size - Room(es[0]), j - Room(es[0]), name)))
  }

  /** Names of allowed characters, ids of one or two digits. */
  ghost predicate Plain(es: seq<Entry>) { forall i | 0 <= i < |es| :: PlainEntry(es[i]) }

  ghost predicate PlainEntry(e: Entry) { IsName(e.name) && e.id < 100 }

  lemma PlainRest(es: seq<Entry>)
    requires Plain(es) && es != []
    ensures PlainEntry(es[0]) && Plain(es[1..])
  {
    forall i | 0 <= i < |es| - 1 ensures PlainEntry(es[1..][i]) { assert es[1..][i] == es[i + 1]; }
  }

  ghost predicate NamesDiffer(es: seq<Entry>) {
    forall i, j | 0 <= i < j < |es| :: es[i].name != es[j].name
  }

  lemma DecShape(n: nat)
    requires n < 100
    ensures |Dec(n)| == (if n < 10 then 1 else 2) && Dec(n)[|Dec(n)| - 1] == Digit(n % 10)
    ensures forall i | 0 <= i < |Dec(n)| :: IsDigit(Dec(n)[i])
  {
    if n >= 10 { assert |Dec(n / 10)| == 1; }
  }

  lemma TextOf(e: Entry, k: nat)
    requires PlainEntry(e) && k < |Text(e)|
    ensures var d := |Dec(e.id)|;
      && 1 <= d <= 2 && |Text(e)| == d + |e.name| + 2
      && Text(e)[d - 1] == Digit(e.id % 10)
      && (Text(e)[k] == ':' <==> k == d)
      && (k != d && k < |Text(e)| - 1 ==> Allowed(Text(e)[k]))
      && (k > d ==> Text(e)[k] == if k < |Text(e)| - 1 then e.name[k - d - 1] else '\n')
  {
    DecShape(e.id);
    NotAllowed();
    hide Dec;
  }

  /** A text that has no end of line before its first colon, if it has a colon. */
  ghost predicate NoLine(rest: string) {
    || rest == ""
    || exists k :: 0 <= k < |rest| && rest[k] == ':' && forall i | 0 <= i < k :: Allowed(rest[i])
  }

  /** Within the first entry the key can only match at the colon, only the whole name, and only if the
      entry is printed whole. */
  lemma MatchInEntry(e: Entry, space: nat, rest: string, j: nat, name: string)
    requires PlainEntry(e) && IsName(name) && Room(e) <= space && NoLine(rest) && j < |Text(e)| && j < space
    ensures MatchAt(Most(Text(e), space) + rest, j, SearchKey(name))
       <==> j == |Dec(e.id)| && e.name == name && |Text(e)| <= space
  {
    hide *;
    var s, key := Most(Text(e), space) + rest, SearchKey(name);
    CutOrWhole(e, space);
    TextOf(e, j);
    if MatchAt(s, j, key) {
      KeyAt(s, j, name, 0);
      KeyBegins(name);
      if |Text(e)| > space { NoMatchInCut(e, rest, name); } else { MatchedName(e, rest, name); }
    }
    if j == |Dec(e.id)| && e.name == name && |Text(e)| <= space { WholeMatches(e, rest); }
  }

  lemma KeyBegins(name: string)
    ensures |SearchKey(name)| == |name| + 2 && SearchKey(name)[0] == ':'
  {
  }

  lemma CutOrWhole(e: Entry, space: nat)
    requires PlainEntry(e) && Room(e) <= space
    ensures |Text(e)| <= space ==> Most(Text(e), space) == Text(e)
    ensures |Text(e)| > space ==> space == Room(e) && Most(Text(e), space) == Text(e)[..Room(e)]
  {
    TextOf(e, 0);
    hide Text;
  }

  lemma KeyAt(s: string, j: nat, name: string, k: nat)
    requires MatchAt(s, j, SearchKey(name)) && k < |name| + 2
    ensures j + |name| + 2 <= |s| && s[j + k] == SearchKey(name)[k]
  {
    assert s[j..j + |SearchKey(name)|][k] == s[j + k];
  }

  lemma MatchedName(e: Entry, rest: string, name: string)
    requires PlainEntry(e) && IsName(name) && MatchAt(Text(e) + rest, |Dec(e.id)|, SearchKey(name))
    ensures e.name == name
  {
    var s, d := Text(e) + rest, |Dec(e.id)|;
    var n := if |name| < |e.name| then |name| else |e.name|;
    NotAllowed();
    TextOf(e, 0);
    TextOf(e, d + 1 + n);
    KeyAt(s, d, name, 1 + n);
    hide Allowed, Text, MatchAt, Dec;
    forall i | 0 <= i < n ensures e.name[i] == name[i] { KeyAt(s, d, name, 1 + i); TextOf(e, d + 1 + i); }
  }

  lemma WholeMatches(e: Entry, rest: string)
    ensures MatchAt(Text(e) + rest, |Dec(e.id)|, SearchKey(e.name))
  {
    var d := |Dec(e.id)|;
    assert Text(e) == Dec(e.id) + SearchKey(e.name);
    assert (Text(e) + rest)[d..d + |SearchKey(e.name)|] == SearchKey(e.name);
  }

  /** A cut entry has lost its end of line, and what follows has a colon before the next one. */
  lemma NoMatchInCut(e: Entry, rest: string, name: string)
    requires PlainEntry(e) && IsName(name) && NoLine(rest) && Room(e) < |Text(e)|
    ensures !MatchAt(Text(e)[..Room(e)] + rest, |Dec(e.id)|, SearchKey(name))
  {
    var s, d := Text(e)[..Room(e)] + rest, |Dec(e.id)|;
    TextOf(e, 0);
    NotAllowed();
    hide Text, MatchAt, Dec;
    if MatchAt(s, d, SearchKey(name)) {
      var p := d + 1 + |name|;
      KeyAt(s, d, name, |name| + 1);
      assert s[p] == '\n';
      if p < Room(e) {
        TextOf(e, p);
      } else {
        var k :| 0 <= k < |rest| && rest[k] == ':' && forall i | 0 <= i < k :: Allowed(rest[i]);
        var q := Room(e) + k;
        assert s[q] == ':' && forall i | Room(e) <= i < q :: Allowed(s[i]);
        if p >= q { KeyAt(s, d, name, q - d); }
      }
    }
  }

  lemma AfterHasNoLine(es: seq<Entry>, size: nat)
    requires es != [] && Needed(es) + 2 <= size && Plain(es)
    ensures NoLine(After(es, size))
  {
    PlainRest(es);
    if |es| > 1 {
      var e, rest := es[1], After(es, size);
      ShownFirst(es[1..], size - Room(es[0]));
      assert PlainEntry(es[1..][0]);
      TextOf(e, 0);
      TextLength(e);
      var d := |Dec(e.id)|;
      hide Text, Dec;
      TextOf(e, d);
      assert rest[d] == ':';
      forall i | 0 <= i < d ensures Allowed(rest[i]) { TextOf(e, i); }
    }
  }

  /** The key matches at the colon of the entries of that name that are printed whole, and nowhere else. */
  lemma {:induction false} MatchesAreColons(es: seq<Entry>, size: nat, name: string, j: int)
    requires Needed(es) + 2 <= size && Plain(es) && IsName(name)
    ensures MatchAt(Shown(es, size), j, SearchKey(name)) <==> ColonOf(es, size, j, name)
    decreases |es|
  {
    hide *;
    if es == [] {
      NothingShown(es, size, name, j);
    } else {
      var e, space, rest := es[0], Space(es, size), After(es, size);
      var first, key := Most(Text(e), space), SearchKey(name);
      ShownFirst(es, size);
      FirstShape(es, size);
      PlainRest(es);
      AfterHasNoLine(es, size);
      TextOf(e, 0);
      ColonCases(es, size, j, name);
      if |es| > 1 { MatchesAreColons(es[1..], size - Room(e), name, j - Room(e)); }
      if 0 <= j < |first| {
        MatchInEntry(e, space, rest, j, name);
        if |es| > 1 { NoEarlyColon(es[1..], size - Room(e), j - Room(e), name); }
      } else if j >= |first| {
        MatchShifts(first, rest, j, key);
        if |es| == 1 { NoMatchInEmpty(j - |first|, name); }
      } else {
        NoEarlyColon(es, size, j, name);
        NoMatchBefore(Shown(es, size), j, key);
      }
    }
  }

  lemma NothingShown(es: seq<Entry>, size: nat, name: string, j: int)
    requires es == [] && Needed(es) + 2 <= size
    ensures !MatchAt(Shown(es, size), j, SearchKey(name)) && !ColonOf(es, size, j, name)
  {
  }

  lemma FirstShape(es: seq<Entry>, size: nat)
    requires es != [] && Needed(es) + 2 <= size && Plain(es)
    ensures var first := Most(Text(es[0]), Space(es, size));
      && |Dec(es[0].id)| < |first| <= Space(es, size) && |first| <= |Text(es[0])|
      && (|es| > 1 ==> |first| == Room(es[0]) && Needed(es[1..]) + 2 <= size - Room(es[0]))
      && After(es, size) == if |es| > 1 then Shown(es[1..], size - Room(es[0])) else ""
  {
    TextLength(es[0]);
    PlainRest(es);
    TextOf(es[0], 0);
    hide Text, Dec, Shown, Plain;
  }

  lemma ColonCases(es: seq<Entry>, size: nat, j: int, name: string)
    requires es != [] && Needed(es) + 2 <= size && (|es| > 1 ==> Needed(es[1..]) + 2 <= size - Room(es[0]))
    ensures ColonOf(es, size, j, name) <==>
              (j == |Dec(es[0].id)| && es[0].name == name && |Text(es[0])| <= Space(es, size))
              || (|es| > 1 && ColonOf(es[1..], size - Room(es[0]), j - Room(es[0]), name))
  {
    hide Text, Dec, Space;
  }

  lemma NoMatchInEmpty(j: int, name: string)
    ensures !MatchAt("", j, SearchKey(name))
  {
  }

  lemma NoMatchBefore(s: string, j: int, key: string)
    requires j < 0
    ensures !MatchAt(s, j, key)
  {
  }

  lemma MatchShifts(a: string, b: string, j: nat, key: string)
    requires j >= |a|
    ensures MatchAt(a + b, j, key) <==> MatchAt(b, j - |a|, key)
  {
  }

  lemma {:induction false} NoEarlyColon(es: seq<Entry>, size: nat, j: int, name: string)
    requires Needed(es) + 2 <= size && j < 0
    ensures !ColonOf(es, size, j, name)
  {
    if |es| > 1 { NoEarlyColon(es[1..], size - Room(es[0]), j - Room(es[0]), name); }
  }

  lemma {:induction false} ColonGives(es: seq<Entry>, size: nat, j: int, name: string) returns (e: Entry)
    requires Needed(es) + 2 <= size && Plain(es) && ColonOf(es, size, j, name)
    ensures e in Whole(es, size) && e.name == name
    ensures 1 <= j <= |Shown(es, size)| && Shown(es, size)[j - 1] == Digit(e.id % 10)
    decreases |es|
  {
    hide *;
    SomeEntry(es, size, j, name);
    RoomOfFirst(es, size);
    ColonCases(es, size, j, name);
    FirstColon(es, size);
    PlainRest(es);
    WholeSplits(es, size);
    if j == |Dec(es[0].id)| && es[0].name == name && |Text(es[0])| <= Space(es, size) {
      e := es[0];
    } else {
      e := ColonGives(es[1..], size - Room(es[0]), j - Room(es[0]), name);
      assert Shown(es, size)[Room(es[0])..][j - Room(es[0]) - 1] == Shown(es, size)[j - 1];
    }
  }

  lemma SomeEntry(es: seq<Entry>, size: nat, j: int, name: string)
    requires Needed(es) + 2 <= size && ColonOf(es, size, j, name)
    ensures es != []
  {
  }

  lemma WholeSplits(es: seq<Entry>, size: nat)
    requires es != [] && Needed(es) + 2 <= size
    ensures |Text(es[0])| <= Space(es, size) ==> es[0] in Whole(es, size)
    ensures |es| > 1 ==> forall e | e in Whole(es[1..], size - Room(es[0])) :: e in Whole(es, size)
  {
    hide Text, Space;
  }

  lemma FirstColon(es: seq<Entry>, size: nat)
    requires Needed(es) + 2 <= size && Plain(es) && es != []
    ensures var d := |Dec(es[0].id)|;
      |Text(es[0])| <= Space(es, size) ==> 1 <= d <= |Shown(es, size)| && Shown(es, size)[d - 1] == Digit(es[0].id % 10)
    ensures |es| > 1 ==> |Shown(es, size)| == Room(es[0]) + |Shown(es[1..], size - Room(es[0]))|
    ensures |es| > 1 ==> Shown(es, size)[Room(es[0])..] == Shown(es[1..], size - Room(es[0]))
  {
    ShownFirst(es, size);
    PlainRest(es);
    TextLength(es[0]);
    TextOf(es[0], 0);
    hide Text, Dec, Shown;
  }

  lemma {:induction false} ColonExists(es: seq<Entry>, size: nat, e: Entry) returns (j: int)
    requires Needed(es) + 2 <= size && e in Whole(es, size)
    ensures ColonOf(es, size, j, e.name)
    decreases |es|
  {
    hide *;
    WholeIs(es, size, e);
    if e == es[0] && |Text(e)| <= Space(es, size) {
      j := |Dec(e.id)|;
    } else {
      j := ColonExists(es[1..], size - Room(es[0]), e);
      j := j + Room(es[0]);
    }
    RoomOfFirst(es, size);
    ColonCases(es, size, j, e.name);
  }

  lemma WholeIs(es: seq<Entry>, size: nat, e: Entry)
    requires Needed(es) + 2 <= size && e in Whole(es, size)
    ensures es != []
    ensures (e == es[0] && |Text(e)| <= Space(es, size))
         || (|es| > 1 && Needed(es[1..]) + 2 <= size - Room(es[0]) && e in Whole(es[1..], size - Room(es[0])))
  {
    hide Text, Space;
  }

  lemma {:induction false} WholeIsPart(es: seq<Entry>, size: nat)
    requires Needed(es) + 2 <= size
    ensures forall e | e in Whole(es, size) :: e in es
  {
    if |es| > 1 { WholeIsPart(es[1..], size - Room(es[0])); }
  }

  /** Every entry of one digit is printed whole. */
  lemma {:induction false} OneDigitIsWhole(es: seq<Entry>, size: nat, e: Entry)
    requires Needed(es) + 2 <= size && e in es && OneDigit(e)
    ensures e in Whole(es, size)
  {
    hide *;
    TextLength(e);
    WholeSplits(es, size);
    RoomOfFirst(es, size);
    if e != es[0] {
      assert es == [es[0]] + es[1..];
      OneDigitIsWhole(es[1..], size - Room(es[0]), e);
    }
  }

  lemma RoomOfFirst(es: seq<Entry>, size: nat)
    requires es != [] && Needed(es) + 2 <= size
    ensures Room(es[0]) <= Space(es, size) && Needed(es) == Room(es[0]) + Needed(es[1..])
    ensures Needed(es[1..]) + 2 <= size - Room(es[0])
  {
  }

  /** The library reads the last digit of the id of exactly the group of that name out of the listing,
      if the entry of that group is printed whole. */
  lemma LookupIsLastDigit(es: seq<Entry>, size: nat, name: string, d: nat)
    requires Needed(es) + 2 <= size && Plain(es) && NamesDiffer(es) && IsName(name)
    ensures LibraryLookup(Shown(es, size), name) == Some(d)
       <==> exists e :: e in Whole(es, size) && e.name == name && d == e.id % 10
  {
    hide *;
    var found := FindEntry(es, size, name);
    if found.Some? { OnlyEntry(es, size, name, found.value); }
  }

  /** What the search comes upon. */
  lemma FindEntry(es: seq<Entry>, size: nat, name: string) returns (found: Option<Entry>)
    requires Needed(es) + 2 <= size && Plain(es) && IsName(name)
    ensures found.Some? ==> found.value in Whole(es, size) && found.value.name == name
                            && LibraryLookup(Shown(es, size), name) == Some(found.value.id % 10)
    ensures found.None? ==> LibraryLookup(Shown(es, size), name) == None
                            && forall e | e in Whole(es, size) :: e.name != name
  {
    hide *;
    var s, key := Shown(es, size), SearchKey(name);
    FindIsFirst(s, key);
    LookupIs(s, name);
    var r := Find(s, key);
    if r.Some? {
      MatchesAreColons(es, size, name, r.value);
      var e := ColonGives(es, size, r.value, name);
      DigitBack(e.id % 10);
      found := Some(e);
    } else {
      found := None;
      forall e | e in Whole(es, size) ensures e.name != name {
        if e.name == name {
          var j := ColonExists(es, size, e);
          MatchesAreColons(es, size, name, j);
        }
      }
    }
  }

  lemma LookupIs(s: string, name: string)
    ensures var r := Find(s, SearchKey(name));
      && (r.None? ==> LibraryLookup(s, name) == None)
      && forall d: nat | r.Some? && d < 10 && 1 <= r.value <= |s| && s[r.value - 1] == Digit(d) ::
           LibraryLookup(s, name) == Some((Digit(d) - '0') as nat)
  {
  }

  lemma OnlyEntry(es: seq<Entry>, size: nat, name: string, e: Entry)
    requires Needed(es) + 2 <= size && NamesDiffer(es) && e in Whole(es, size) && e.name == name
    ensures forall f | f in Whole(es, size) && f.name == name :: f == e
  {
    WholeIsPart(es, size);
    hide Whole, NamesDiffer;
    forall f | f in Whole(es, size) && f.name == name ensures f == e { SameEntry(es, e, f); }
  }

  lemma SameEntry(es: seq<Entry>, e: Entry, f: Entry)
    requires NamesDiffer(es) && e in es && f in es && e.name == f.name
    ensures e == f
  {
    var i :| 0 <= i < |es| && es[i] == e;
    var j :| 0 <= j < |es| && es[j] == f;
  }

  /** For the entry of a group the lookup yields its id exactly when the id has one digit. */
  lemma LookupFindsTheGroup(es: seq<Entry>, size: nat, e: Entry)
    requires Needed(es) + 2 <= size && Plain(es) && NamesDiffer(es) && e in es
    ensures LibraryLookup(Shown(es, size), e.name) == Some(e.id) <==> OneDigit(e)
  {
    PlainIn(es, e);
    hide *;
    IsOneDigit(e);
    if e.id < 10 {
      OneDigitIsWhole(es, size, e);
      WholeIsFound(es, size, e);
    } else {
      LookupIsADigit(Shown(es, size), e.name);
    }
  }

  lemma WholeIsFound(es: seq<Entry>, size: nat, e: Entry)
    requires Needed(es) + 2 <= size && Plain(es) && NamesDiffer(es) && IsName(e.name) && e in Whole(es, size)
    ensures e.id < 10 ==> LibraryLookup(Shown(es, size), e.name) == Some(e.id)
  {
    hide *;
    var found := FindEntry(es, size, e.name);
    OnlyEntry(es, size, e.name, found.value);
  }

  lemma LookupIsADigit(listing: string, name: string)
    ensures LibraryLookup(listing, name).Some? ==> LibraryLookup(listing, name).value < 10
  {
    FindIsFirst(listing, SearchKey(name));
  }

  lemma IsOneDigit(e: Entry)
    ensures OneDigit(e) <==> e.id < 10
  {
  }

  lemma PlainIn(es: seq<Entry>, e: Entry)
    requires Plain(es) && e in es
    ensures IsName(e.name)
  {
    var i :| 0 <= i < |es| && es[i] == e;
    assert PlainEntry(es[i]);
  }

  /** A name without an entry is not found. */
  lemma LookupFindsNothing(es: seq<Entry>, size: nat, name: string)
    requires Needed(es) + 2 <= size && Plain(es) && NamesDiffer(es) && IsName(name)
    requires forall e | e in es :: e.name != name
    ensures LibraryLookup(Shown(es, size), name) == None
  {
    hide *;
    WholeIsPart(es, size);
    var found := LibraryLookup(Shown(es, size), name);
    if found.Some? { LookupIsLastDigit(es, size, name, found.value); }
  }

  lemma DigitBack(d: nat)
    requires d < 10
    ensures (Digit(d) - '0') as nat == d
  {
  }

  // ---------------------------------------------------------------- dazukofs_get_groups

  lemma {:induction false} EntriesSnoc(list: seq<Addr>, n: nat, groups: map<Addr, Group>)
    requires n < |list| && forall a | a in list :: a in groups
    ensures var g := groups[list[n]];
      Entries(list[..n + 1], groups)
      == if g.deprecated then Entries(list[..n], groups) else Entries(list[..n], groups) + [Entry(g.id, g.name)]
  {
    if n > 0 {
      EntriesSnoc(list[1..], n - 1, groups);
      assert list[..n + 1][1..] == list[1..][..n] && list[..n][1..] == list[1..][..n - 1];
    } else {
      assert list[..1] == [list[0]] && list[..1][1..] == [] && list[..0] == [];
    }
  }

  lemma NeededSnoc(list: seq<Addr>, n: nat, groups: map<Addr, Group>)
    requires n < |list| && forall a | a in list :: a in groups
    ensures Needed(Entries(list[..n + 1], groups))
         == Needed(Entries(list[..n], groups)) + if groups[list[n]].deprecated then 0 else |groups[list[n]].name| + 3
  {
    EntriesSnoc(list, n, groups);
    if !groups[list[n]].deprecated {
      CutSnoc(Entries(list[..n], groups), Entry(groups[list[n]].id, groups[list[n]].name));
    }
  }

  lemma {:induction false} NeededOfPrefix(list: seq<Addr>, n: nat, groups: map<Addr, Group>)
    requires n <= |list| && forall a | a in list :: a in groups
    ensures Needed(Entries(list[..n], groups)) <= Needed(Entries(list, groups))
    decreases |list| - n
  {
    if n < |list| {
      NeededSnoc(list, n, groups);
      NeededOfPrefix(list, n + 1, groups);
    } else {
      assert list[..n] == list;
    }
  }

  method NeededSize(list: seq<Addr>, groups: map<Addr, Group>) returns (buflen: nat)
    requires forall a | a in list :: a in groups
    ensures buflen == 1 + Needed(Entries(list, groups))
  {
    buflen := 1;
    var n := 0;
    assert list[..0] == [];
    while n < |list|
      invariant n <= |list| && buflen == 1 + Needed(Entries(list[..n], groups))
    {
      NeededSnoc(list, n, groups);
      if !groups[list[n]].deprecated { buflen := buflen + |groups[list[n]].name| + 3; }
      n := n + 1;
    }
    assert list[..n] == list;
  }

  /** What the buffer holds once the entries `done` are printed. */
  ghost predicate PrintedSoFar(m: seq<char>, done: seq<Entry>) {
    Needed(done) + 2 <= |m| && m[..Needed(done)] == Cut(done) && Holds(m, Shown(done, |m|))
  }

  lemma TextHasNoNul(e: Entry)
    requires NUL !in e.name
    ensures NUL !in Text(e)
  {
    DecHasNoNul(e.id);
  }

  lemma PrintedIsMost(text: string, size: nat)
    requires size > 0
    ensures Printed(text, size) == Most(text, size - 1) + [NUL]
  {
  }

  lemma EntryFacts(size: nat, done: seq<Entry>, e: Entry, shown: string, room: string)
    requires Needed(done) + Room(e) + 2 <= size && NUL !in e.name
    requires shown == Most(Text(e), size - 2 - Needed(done))
    requires |Text(e)| >= Room(e) && room == Text(e)[..Room(e)]
    ensures NUL !in shown && room <= shown
    ensures Needed(done + [e]) == Needed(done) + Room(e)
    ensures Cut(done + [e]) == Cut(done) + room && Shown(done + [e], size) == Cut(done) + shown
    ensures Printed(Text(e), size - 1 - Needed(done)) == shown + [NUL]
  {
    CutSnoc(done, e);
    ShownSnoc(done, e, size);
    TextHasNoNul(e);
    PrintedIsMost(Text(e), size - 1 - Needed(done));
    hide Text, Shown, Needed, Cut, Printed;
  }

  /** One `snprintf` of the printing loop. */
  lemma PrintOne(m: seq<char>, m': seq<char>, done: seq<Entry>, e: Entry, p: seq<char>)
    requires PrintedSoFar(m, done) && Needed(done) + Room(e) + 2 <= |m| == |m'| && NUL !in e.name
    requires p == Printed(Text(e), |m| - 1 - Needed(done)) && Needed(done) + |p| <= |m|
    requires m'[..Needed(done)] == m[..Needed(done)] && m'[Needed(done)..Needed(done) + |p|] == p
    ensures PrintedSoFar(m', done + [e])
  {
    hide *;
    CutHasNoNul(m, done);
    TextLength(e);
    var room := Text(e)[..Room(e)];
    var shown := Most(Text(e), |m| - 2 - Needed(done));
    EntryFacts(|m|, done, e, shown, room);
    assert p == shown + [NUL] && |p| == |shown| + 1;
    assert |Cut(done)| == Needed(done);
    assert m'[..|Cut(done)|] == Cut(done);
    Overlay(m', Cut(done), shown, room);
    SoFar(m', done + [e]);
  }

  lemma SoFar(m: seq<char>, done: seq<Entry>)
    requires Needed(done) + 2 <= |m| && m[..Needed(done)] == Cut(done) && Holds(m, Shown(done, |m|))
    ensures PrintedSoFar(m, done)
  {
  }

  lemma Overlay(m: seq<char>, cut: string, shown: string, room: string)
    requires NUL !in cut && NUL !in shown && room <= shown
    requires |cut| + |shown| < |m| && m[..|cut|] == cut && m[|cut|..|cut| + |shown| + 1] == shown + [NUL]
    ensures Holds(m, cut + shown) && m[..|cut| + |room|] == cut + room
  {
  }

  lemma CutHasNoNul(m: seq<char>, done: seq<Entry>)
    requires PrintedSoFar(m, done)
    ensures Needed(done) + 2 <= |m| && m[..Needed(done)] == Cut(done) && NUL !in Cut(done)
  {
    if done != [] { CutOfShown(done, |m|); }
  }

  lemma {:induction false} CutOfShown(es: seq<Entry>, size: nat)
    requires Needed(es) + 2 <= size
    ensures Cut(es) <= Shown(es, size)
  {
    if |es| == 1 {
      TextLength(es[0]);
      hide Text;
      assert es[1..] == [];
    } else if es != [] {
      CutOfShown(es[1..], size - Room(es[0]));
    }
  }

  lemma RoomIs(e: Entry)
    ensures Room(e) == |e.name| + 3
  {
  }

  /** The printing loop, in a buffer that is large enough. */
  method PrintGroups(list: seq<Addr>, groups: map<Addr, Group>, buf: array<char>)
    requires forall a | a in list :: a in groups && NUL !in groups[a].name
    requires 1 + Needed(Entries(list, groups)) < buf.Length && forall k | 0 <= k < buf.Length :: buf[k] == NUL
    modifies buf
    ensures PrintedSoFar(buf[..], Entries(list, groups))
  {
    var tmp, n := 0, 0;
    assert list[..0] == [];
    assert Needed(Entries(list[..0], groups)) == 0 && Entries(list[..0], groups) == [];
    NothingPrinted(buf[..]);
    hide *;
    while n < |list|
      invariant n <= |list| && tmp == Needed(Entries(list[..n], groups))
      invariant PrintedSoFar(buf[..], Entries(list[..n], groups))
    {
      tmp := PrintNext(list, groups, n, buf, tmp);
      n := n + 1;
    }
    assert list[..n] == list;
  }

  /** One turn of the loop. */
  method PrintNext(list: seq<Addr>, groups: map<Addr, Group>, n: nat, buf: array<char>, tmp: nat) returns (next: nat)
    requires n < |list| && forall a | a in list :: a in groups && NUL !in groups[a].name
    requires 1 + Needed(Entries(list, groups)) < buf.Length
    requires tmp == Needed(Entries(list[..n], groups)) && PrintedSoFar(buf[..], Entries(list[..n], groups))
    modifies buf
    ensures next == Needed(Entries(list[..n + 1], groups)) && PrintedSoFar(buf[..], Entries(list[..n + 1], groups))
  {
    hide *;
    EntriesSnoc(list, n, groups);
    NeededSnoc(list, n, groups);
    NeededOfPrefix(list, n + 1, groups);
    var grp := groups[list[n]];
    next := tmp;
    if !grp.deprecated {
      RoomIs(Entry(grp.id, grp.name));
      PrintEntry(buf, tmp, Entry(grp.id, grp.name), Entries(list[..n], groups));
      next := tmp + |grp.name| + 3;
    }
  }

  lemma NothingPrinted(m: seq<char>)
    requires |m| >= 2 && m[0] == NUL
    ensures PrintedSoFar(m, [])
  {
  }

  method PrintEntry(buf: array<char>, tmp: nat, e: Entry, ghost done: seq<Entry>)
    requires PrintedSoFar(buf[..], done) && tmp == Needed(done) && tmp + Room(e) + 2 <= buf.Length && NUL !in e.name
    modifies buf
    ensures PrintedSoFar(buf[..], done + [e])
  {
    ghost var m := buf[..];
    var _ := Snprintf(buf, tmp, buf.Length - 1 - tmp, Dec(e.id) + ":" + e.name + "\n");
    hide PrintedSoFar;
    PrintOne(m, buf[..], done, e, Printed(Text(e), buf.Length - 1 - tmp));
  }

  /** The list of groups at one moment. */
  datatype Moment = Moment(list: seq<Addr>, groups: map<Addr, Group>)
  {
    ghost predicate Ok() { forall a | a in list :: a in groups && NUL !in groups[a].name }

    function Shows(): seq<Entry>
      requires Ok()
    {
      Entries(list, groups)
    }
  }

  /** The size of the buffer in the n-th attempt. */
  function AllocSize(n: nat): (size: nat)
    ensures size >= 256
  {
    if n == 0 then 256 else 2 * AllocSize(n - 1)
  }

  ghost predicate Suffices(m: Moment, size: nat)
    requires m.Ok()
  {
    Needed(m.Shows()) + 2 <= size
  }

  /** The size the first loop computes, and what it means. */
  method SizeAt(m: Moment, allocsize: nat) returns (buflen: nat)
    requires m.Ok()
    ensures buflen == 1 + Needed(m.Shows()) && (buflen < allocsize <==> Suffices(m, allocsize))
  {
    buflen := NeededSize(m.list, m.groups);
  }

  /** The printing of one attempt. */
  method PrintAll(m: Moment, allocsize: nat) returns (buf: array<char>)
    requires m.Ok() && Suffices(m, allocsize)
    ensures fresh(buf) && CStr(buf[..]) == Shown(m.Shows(), allocsize)
  {
    buf := new char[allocsize](_ => NUL);
    PrintGroups(m.list, m.groups, buf);
    HoldsIsCStr(buf[..], Shown(m.Shows(), allocsize));
  }

  ghost predicate Bounded(at: nat -> Moment, limit: nat) {
    forall n :: at(n).Ok() && Needed(at(n).Shows()) + 2 <= limit
  }

  lemma BoundedAt(at: nat -> Moment, limit: nat, n: nat)
    requires Bounded(at, limit)
    ensures at(n).Ok() && Needed(at(n).Shows()) + 2 <= limit
  {
  }

  /** The buffers of the attempts before the n-th were too small. */
  ghost predicate TooSmallBefore(at: nat -> Moment, tries: nat, limit: nat)
    requires Bounded(at, limit)
  {
    forall n | 0 <= n < tries :: !Suffices(at(n), AllocSize(n))
  }

  lemma OneMoreTry(at: nat -> Moment, tries: nat, limit: nat)
    requires Bounded(at, limit)
    ensures TooSmallBefore(at, 0, limit)
    ensures TooSmallBefore(at, tries, limit) && !Suffices(at(tries), AllocSize(tries)) ==> TooSmallBefore(at, tries + 1, limit)
    ensures AllocSize(tries + 1) == 2 * AllocSize(tries)
  {
  }

  /** `dazukofs_get_groups`; `at(n)` is the list at the n-th attempt, and `limit` bounds what is ever
      needed. The listing is that of the first attempt whose buffer suffices for the list at that time. */
  method GetGroups(at: nat -> Moment, ghost limit: nat) returns (buf: array<char>, tries: nat)
    requires Bounded(at, limit)
    ensures Suffices(at(tries), AllocSize(tries)) && TooSmallBefore(at, tries, limit)
    ensures fresh(buf) && CStr(buf[..]) == Shown(at(tries).Shows(), AllocSize(tries))
  {
    BoundedAt(at, limit, 0);
    OneMoreTry(at, 0, limit);
    var allocsize := 256;
    assert allocsize == AllocSize(0);
    hide *;
    tries := 0;
    var buflen := SizeAt(at(0), allocsize);
    while buflen >= allocsize
      invariant allocsize == AllocSize(tries) && at(tries).Ok() && Needed(at(tries).Shows()) + 2 <= limit
      invariant buflen == 1 + Needed(at(tries).Shows()) && (buflen < allocsize <==> Suffices(at(tries), allocsize))
      invariant TooSmallBefore(at, tries, limit)
      decreases limit - allocsize
    {
      OneMoreTry(at, tries, limit);
      BoundedAt(at, limit, tries + 1);
      allocsize := allocsize * 2;
      tries := tries + 1;
      buflen := SizeAt(at(tries), allocsize);
    }
    buf := PrintAll(at(tries), allocsize);
  }

  // ---------------------------------------------------------------- dazukofs_ctrl_read

  /** One read of up to `length` bytes at `pos`. */
  function ReadChunk(s: string, pos: nat, length: nat): string {
    if pos >= |s| then "" else if length > |s| - pos then s[pos..] else s[pos..pos + length]
  }

  function ReadAll(s: string, pos: nat, lengths: seq<nat>): string
    decreases |lengths|
  {
    if lengths == [] then ""
    else
      var chunk := ReadChunk(s, pos, lengths[0]);
      chunk + ReadAll(s, pos + |chunk|, lengths[1..])
  }

  function Sum(lengths: seq<nat>): nat { if lengths == [] then 0 else lengths[0] + Sum(lengths[1..]) }

  /** However a reader cuts its reads, the pieces are the listing, up to what was asked for. */
  lemma {:induction false} PiecesMakeTheListing(s: string, pos: nat, lengths: seq<nat>)
    requires pos <= |s|
    ensures ReadAll(s, pos, lengths) == UpTo(s, pos, Sum(lengths))
    decreases |lengths|
  {
    hide *;
    if lengths == [] {
      NoPieces(s, pos, lengths);
    } else {
      FirstPiece(s, pos, lengths);
      ChunkAndRest(s, pos, lengths[0], Sum(lengths[1..]));
      PiecesMakeTheListing(s, pos + |ReadChunk(s, pos, lengths[0])|, lengths[1..]);
    }
  }

  /** What is left of `s` at `pos`, up to `n` characters. */
  function UpTo(s: string, pos: nat, n: nat): string
    requires pos <= |s|
  {
    if n >= |s| - pos then s[pos..] else s[pos..pos + n]
  }

  lemma NoPieces(s: string, pos: nat, lengths: seq<nat>)
    requires lengths == [] && pos <= |s|
    ensures ReadAll(s, pos, lengths) == UpTo(s, pos, Sum(lengths))
  {
  }

  lemma FirstPiece(s: string, pos: nat, lengths: seq<nat>)
    requires lengths != []
    ensures var chunk := ReadChunk(s, pos, lengths[0]);
      ReadAll(s, pos, lengths) == chunk + ReadAll(s, pos + |chunk|, lengths[1..])
    ensures Sum(lengths) == lengths[0] + Sum(lengths[1..])
  {
    hide ReadChunk;
  }

  lemma ChunkAndRest(s: string, pos: nat, length: nat, n: nat)
    requires pos <= |s|
    ensures var chunk := ReadChunk(s, pos, length);
      pos + |chunk| <= |s| && chunk + UpTo(s, pos + |chunk|, n) == UpTo(s, pos, length + n)
  {
  }

  /** An open control file: the listing is taken at the first read and kept. */
  class ControlFile {
    var listing: Option<string>
    var pos: nat

    constructor ()
      ensures listing == None && pos == 0
    {
      listing, pos := None, 0;
    }

    /** `dazukofs_ctrl_read`; `now` is what `dazukofs_get_groups` would print at this moment, if there
        is memory for it, and `fault` says that the user's buffer cannot be written. */
    method Read(now: Option<string>, length: nat, fault: bool) returns (ret: int, data: string)
      modifies this
      ensures old(listing) == None && now == None ==> ret == -ENOMEM && data == "" && listing == None && pos == old(pos)
      ensures old(listing).Some? || now.Some? ==>
                && listing == (if old(listing).Some? then old(listing) else now)
                && var chunk := ReadChunk(listing.value, old(pos), length);
                && data == (if fault then "" else chunk)
                && ret == (if fault && chunk != "" then -EFAULT else |data|)
                && pos == old(pos) + |data|
    {
      if listing.None? {
        if now.None? { return -ENOMEM, ""; }
        listing := now;
      }
      var buflen := |listing.value|;
      if pos >= buflen { return 0, ""; }
      var n := length;
      if n > buflen - pos { n := buflen - pos; }
      if fault { return if n > 0 then -EFAULT else 0, ""; }
      data := listing.value[pos..pos + n];
      pos := pos + n;
      ret := n;
    }
  }
}
