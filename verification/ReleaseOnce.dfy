/** `release_event` on its own: whatever the order of the callers, the event is freed once, by the
    last of them, and no caller comes after that. */
module ReleaseOnce {
  import opened Kernel

  datatype Call = Registered(deny: bool) | Anonymous

  function CountRegistered(calls: seq<Call>): nat {
    if calls == [] then 0 else (if calls[0].Registered? then 1 else 0) + CountRegistered(calls[1..])
  }

  function CountAnonymous(calls: seq<Call>): nat {
    if calls == [] then 0 else (if calls[0].Anonymous? then 1 else 0) + CountAnonymous(calls[1..])
  }

  /** The calls made one after the other, for as long as the event exists. */
  function After(events: map<Addr, Event>, e: Addr, calls: seq<Call>): map<Addr, Event> {
    if calls == [] || e !in events then events
    else After(Release(events, e, calls[0].Registered?, calls[0].Registered? && calls[0].deny), e, calls[1..])
  }

  predicate Denies(calls: seq<Call>) { exists i :: 0 <= i < |calls| && calls[i] == Registered(true) }

  /** As many registered releases as the event is assigned, and the anonymous one if it is still to
      come: every proper prefix leaves the event alive, with the verdict so far; the whole frees it. */
  lemma {:induction false} FreedByTheLastCall(events: map<Addr, Event>, e: Addr, calls: seq<Call>, k: nat)
    requires e in events && calls != [] && k < |calls|
    requires events[e].assignedCount == CountRegistered(calls)
    requires CountAnonymous(calls) == if events[e].deprecated then 0 else 1
    ensures e in After(events, e, calls[..k])
    ensures After(events, e, calls[..k])[e].deny == (events[e].deny || Denies(calls[..k]))
    ensures After(events, e, calls) == events - {e}
  {
    var first := calls[0];
    var events' := Release(events, e, first.Registered?, first.Registered? && first.deny);
    if |calls| == 1 {
      assert CountRegistered(calls[1..]) == 0 && CountAnonymous(calls[1..]) == 0;
      assert calls[..k] == [];
      assert e !in events';
    } else {
      SomeCallLeft(calls[1..]);
      assert e in events';
      if k == 0 {
        FreedByTheLastCall(events', e, calls[1..], 0);
        assert calls[..0] == [];
      } else {
        FreedByTheLastCall(events', e, calls[1..], k - 1);
        assert calls[..k][1..] == calls[1..][..k - 1];
        assert Denies(calls[..k]) <==> first == Registered(true) || Denies(calls[1..][..k - 1]) by { DeniesSplits(calls[..k]); }
      }
    }
  }

  lemma {:induction false} SomeCallLeft(calls: seq<Call>)
    requires calls != []
    ensures CountRegistered(calls) + CountAnonymous(calls) > 0
  {}

  lemma DeniesSplits(calls: seq<Call>)
    requires calls != []
    ensures Denies(calls) <==> calls[0] == Registered(true) || Denies(calls[1..])
  {
  }
}
