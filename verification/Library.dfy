/** The user-space library (test/lib/dazukofs.c): opening a group, fetching and answering events. */
module Library {
  import opened Kernel
  import opened CText
  import opened Messages
  import opened Control
  import opened Listing

  /** The names the library accepts; the empty name is one of them. */
  ghost predicate GoodName(gname: string) { |gname| <= 20 && IsName(gname) }

  method CheckGroupName(gname: string) returns (ok: bool)
    ensures ok <==> GoodName(gname)
  {
    if |gname| > 20 { return false; }
    var p := 0;
    while p < |gname|
      invariant p <= |gname| && forall i | 0 <= i < p :: Allowed(gname[i])
    {
      if !Allowed(gname[p]) { return false; }
      p := p + 1;
    }
    ok := true;
  }

  /** A zeroed buffer printed into: nothing is lost when the text and its terminator fit. */
  method Format(size: nat, text: string) returns (s: string)
    requires size > 0 && |text| < size - 1 && NUL !in text
    ensures s == text
  {
    var buf := new char[size](_ => NUL);
    var _ := Snprintf(buf, 0, size - 1, text);
    assert buf[..|text| + 1] == text + [NUL];
    assert buf[..|text|] == buf[..|text| + 1][..|text|];
    HoldsIsCStr(buf[..], text);
    s := CStr(buf[..]);
  }

  /** What a zeroed buffer of 48 bytes holds once the data has been read into it. */
  method ReadBuffer(data: seq<char>) returns (s: string)
    requires |data| < 48
    ensures s == CStr(data + Zeros(48 - |data|))
  {
    var buf := new char[48](_ => NUL);
    var n := 0;
    while n < |data|
      invariant n <= |data| && forall k | 0 <= k < 48 :: buf[k] == if k < n then data[k] else NUL
    {
      buf[n] := data[n];
      n := n + 1;
    }
    assert buf[..] == data + Zeros(48 - |data|);
    s := CStr(buf[..]);
  }

  /** What the library reads out of a listing. */
  function OpenLookup(listing: string, gname: string): Option<nat> {
    LibraryLookup(CStr(ReadChunk(listing, 0, 255)), gname)
  }

  class Handle {
    var groupName: string
    var eventId: nat

    constructor (gname: string)
      ensures groupName == gname && eventId == 0
    {
      groupName, eventId := gname, 0;
    }

    /** `dazukofs_get_access`; `data` is what the read delivered, if it succeeded. */
    method GetAccess(data: Option<seq<char>>) returns (acc: Option<Access>)
      requires data.Some? ==> |data.value| < 48
      modifies this`eventId
      ensures data.None? ==> acc == None && eventId == old(eventId)
      ensures data.Some? ==>
                var (id, access) := ParseEvent(data.value + Zeros(48 - |data.value|));
                acc == access && eventId == if id.Some? then id.value else old(eventId)
    {
      if data.None? { return None; }
      hide CStr, Find, Strtoul, ParseFd, Zeros;
      var s := ReadBuffer(data.value);
      var p := Find(s, "id=");
      if p == None { return None; }
      var (id, rest) := Strtoul(s[p.value + 3..]);
      eventId := id;
      acc := ParseFd(rest);
    }

    /** `dazukofs_return_access`: `closed` tells whether the file of the access could be closed, `written`
        whether the reply could be written to the group device. */
    method ReturnAccess(deny: bool, closed: bool, written: bool) returns (ret: int, reply: Option<string>)
      requires eventId < ULONG
      ensures reply == if closed then Some(ReplyText(eventId, deny)) else None
      ensures ret == if closed && written then 0 else -1
    {
      if !closed { return -1, None; }
      DecHasNoNul(eventId);
      LongestId(eventId);
      var text := Format(48, "id=" + Dec(eventId) + " r=" + if deny then "1" else "0");
      reply := Some(text);
      ret := if written then 0 else -1;
    }

    /** `dazukofs_close`: with `remove`, the group is to go first. `granted` and `written` tell how the
        control device answers, `closed` is the result of closing the group device. */
    method Close(remove: bool, granted: bool, written: bool, closed: int) returns (ret: int, command: Option<string>)
      requires GoodName(groupName)
      ensures command == (if remove && granted then Some(Key(Del) + groupName) else None)
      ensures ret == if remove && !(granted && written) then -1 else closed
    {
      NotAllowed();
      command := None;
      if remove {
        if !granted { return -1, None; }
        var text := Format(48, "del=" + groupName);
        command := Some(text);
        if !written { return -1, command; }
      }
      ret := closed;
    }
  }

  lemma LongestId(id: nat)
    requires id < ULONG
    ensures |Dec(id)| <= 20
  {
    assert Pow10(20) > ULONG by {
      assert Pow10(4) == 10_000;
      assert Pow10(8) == 100_000_000;
      assert Pow10(12) == 1_000_000_000_000;
      assert Pow10(16) == 10_000_000_000_000_000;
    }
    DecLength(id, 20);
  }

  /** `dazukofs_open` up to opening the device: the command written, if the control device could be
      opened for writing, and the id found. `readable` tells whether it could be opened for reading at
      least, `written` whether the write succeeded, and `listing` is what there is to read, unless the
      read fails. */
  method Open(gname: string, track: bool, writable: bool, readable: bool, written: bool, listing: Option<string>)
    returns (command: Option<string>, gid: Option<nat>)
    ensures command == if GoodName(gname) && writable then Some(Key(if track then AddTrack else Add) + gname) else None
    ensures gid == if GoodName(gname) && (if writable then written else readable) && listing.Some?
                   then OpenLookup(listing.value, gname) else None
  {
    command, gid := None, None;
    var ok := CheckGroupName(gname);
    if !ok { return; }
    NotAllowed();
    if writable {
      var text := Format(256, (if track then "addtrack=" else "add=") + gname);
      command := Some(text);
      if !written { return; }
    } else if !readable {
      return;
    }
    if listing.None? { return; }
    gid := Search(listing.value, gname);
  }

  /** The part after the listing has been asked for. */
  method Search(listing: string, gname: string) returns (gid: Option<nat>)
    requires GoodName(gname)
    ensures gid == OpenLookup(listing, gname)
  {
    NotAllowed();
    var buf := new char[256](_ => NUL);
    CopyString(buf, ReadChunk(listing, 0, 255));
    var key := Format(25, ":" + gname + "\n");
    hide CStr, Find;
    var s := CStr(buf[..]);
    var p := Find(s, key);
    gid := None;
    if p == None || p == Some(0) { return; }
    if IsDigit(s[p.value - 1]) { gid := Some((s[p.value - 1] - '0') as nat); }
  }

  // ---------------------------------------------------------------- the way from a name to its group

  lemma {:induction false} EntriesAre(list: seq<Addr>, groups: map<Addr, Group>)
    requires forall a | a in list :: a in groups
    ensures forall e :: e in Entries(list, groups) <==>
              exists a :: a in list && !groups[a].deprecated && e == Entry(groups[a].id, groups[a].name)
  {
    if list != [] {
      EntriesAre(list[1..], groups);
      assert forall a :: a in list <==> a == list[0] || a in list[1..];
    }
  }

  /** With distinct active names the entries have distinct names. */
  lemma {:induction false} EntriesDiffer(list: seq<Addr>, groups: map<Addr, Group>)
    requires NoDup(list) && NamesDistinct(groups) && forall a | a in list :: a in groups
    ensures NamesDiffer(Entries(list, groups))
  {
    if list != [] {
      EntriesDiffer(list[1..], groups);
      EntriesAre(list[1..], groups);
      var es := Entries(list[1..], groups);
      var g := groups[list[0]];
      if !g.deprecated {
        forall i | 0 <= i < |es| ensures es[i].name != g.name {
          assert es[i] in es;
          var a :| a in list[1..] && !groups[a].deprecated && es[i] == Entry(groups[a].id, groups[a].name);
          var n :| 0 <= n < |list| - 1 && list[1..][n] == a;
          assert list[n + 1] == a && a != list[0];
          assert a in Active(groups) && list[0] in Active(groups);
        }
      }
    }
  }

  lemma ActiveInSplit(list: seq<Addr>, groups: map<Addr, Group>)
    requires NoDup(list) && list != [] && list[0] in groups
    ensures list[0] !in ActiveIn(list[1..], groups)
    ensures ActiveIn(list, groups)
         == if groups[list[0]].deprecated then ActiveIn(list[1..], groups) else ActiveIn(list[1..], groups) + {list[0]}
  {
  }

  lemma {:induction false} EntriesCount(list: seq<Addr>, groups: map<Addr, Group>)
    requires NoDup(list) && forall a | a in list :: a in groups
    ensures |Entries(list, groups)| == |ActiveIn(list, groups)|
  {
    if list != [] {
      ActiveInSplit(list, groups);
      assert NoDup(list[1..]);
      hide ActiveIn, NoDup;
      EntriesCount(list[1..], groups);
    }
  }

  lemma {:induction false} ShortListing(es: seq<Entry>, size: nat)
    requires Needed(es) + 2 <= size && Plain(es) && forall i | 0 <= i < |es| :: |es[i].name| <= 20
    ensures |Shown(es, size)| <= 24 * |es|
  {
    if es != [] {
      ShownFirst(es, size);
      PlainRest(es);
      TextOf(es[0], 0);
      hide Text, Shown;
      if |es| > 1 { ShortListing(es[1..], size - Room(es[0])); }
    }
  }

  /** Every active group has a name the library accepts, and an id as additions give them. */
  ghost predicate LibraryGroups(groups: map<Addr, Group>) {
    forall a | a in Active(groups) :: groups[a].id <= GROUP_COUNT && GoodName(groups[a].name)
  }

  lemma ListingOf(k: State, size: nat)
    requires Wf(k) && LibraryGroups(k.groups) && |Active(k.groups)| <= GROUP_COUNT
    requires Needed(Entries(k.list, k.groups)) + 2 <= size
    ensures var es := Entries(k.list, k.groups);
      && Plain(es) && NamesDiffer(es) && NUL !in Shown(es, size)
      && |Shown(es, size)| <= 255
      && (forall a | a in Active(k.groups) :: Entry(k.groups[a].id, k.groups[a].name) in es)
      && (forall e | e in es :: exists a :: a in Active(k.groups) && k.groups[a].name == e.name)
  {
    var es := Entries(k.list, k.groups);
    EntriesAre(k.list, k.groups);
    EntriesDiffer(k.list, k.groups);
    EntriesCount(k.list, k.groups);
    assert ActiveIn(k.list, k.groups) == Active(k.groups);
    forall i | 0 <= i < |es| ensures PlainEntry(es[i]) && GoodName(es[i].name) {
      assert es[i] in es;
      var a :| a in k.list && !k.groups[a].deprecated && es[i] == Entry(k.groups[a].id, k.groups[a].name);
      assert a in Active(k.groups);
    }
    ShortListing(es, size);
    ShownHasNoNul(es, size);
  }

  lemma {:induction false} ShownHasNoNul(es: seq<Entry>, size: nat)
    requires Needed(es) + 2 <= size && Plain(es)
    ensures NUL !in Shown(es, size)
  {
    if es != [] {
      ShownFirst(es, size);
      PlainRest(es);
      NotAllowed();
      TextHasNoNul(es[0]);
      hide Text, Shown;
      if |es| > 1 { ShownHasNoNul(es[1..], size - Room(es[0])); }
    }
  }

  /** The listing is read whole, in whatever buffer that the kernel found large enough. */
  lemma ListingIsRead(k: State, size: nat, name: string)
    requires Wf(k) && LibraryGroups(k.groups) && |Active(k.groups)| <= GROUP_COUNT
    requires Needed(Entries(k.list, k.groups)) + 2 <= size
    ensures OpenLookup(Shown(Entries(k.list, k.groups), size), name)
         == LibraryLookup(Shown(Entries(k.list, k.groups), size), name)
  {
    ListingOf(k, size);
    var s := Shown(Entries(k.list, k.groups), size);
    hide LibraryLookup, Shown, Entries, CStr;
    assert ReadChunk(s, 0, 255) == s;
    IsItsCStr(s);
  }

  lemma IsItsCStr(s: string)
    requires NUL !in s
    ensures CStr(s) == s
  {
  }

  /** Opening a group by name leads to the device of exactly that group if there is such a device, that
      is, if the group's id is below GROUP_COUNT; otherwise it leads to another device or to none. */
  lemma OpeningFindsTheGroup(k: State, size: nat, a: Addr)
    requires Wf(k) && LibraryGroups(k.groups) && |Active(k.groups)| <= GROUP_COUNT
    requires Needed(Entries(k.list, k.groups)) + 2 <= size && a in Active(k.groups)
    ensures OpenLookup(Shown(Entries(k.list, k.groups), size), k.groups[a].name) == Some(k.groups[a].id)
       <==> k.groups[a].id < GROUP_COUNT
  {
    ListingOf(k, size);
    var e := Entry(k.groups[a].id, k.groups[a].name);
    hide *;
    ListingIsRead(k, size, k.groups[a].name);
    LookupFindsTheGroup(Entries(k.list, k.groups), size, e);
    IsOneDigit(e);
  }

  /** A name that no active group has leads to no device. */
  lemma OpeningFindsNothing(k: State, size: nat, name: string)
    requires Wf(k) && LibraryGroups(k.groups) && |Active(k.groups)| <= GROUP_COUNT && GoodName(name)
    requires Needed(Entries(k.list, k.groups)) + 2 <= size && forall a | a in Active(k.groups) :: k.groups[a].name != name
    ensures OpenLookup(Shown(Entries(k.list, k.groups), size), name) == None
  {
    ListingOf(k, size);
    GoodNames(name);
    hide Shown, Entries, OpenLookup, LibraryLookup, Plain, NamesDiffer, LibraryGroups, Wf, GoodName;
    ListingIsRead(k, size, name);
    LookupFindsNothing(Entries(k.list, k.groups), size, name);
  }

  lemma GoodNames(name: string)
    requires GoodName(name)
    ensures IsName(name)
  {
  }
}
