/** The order of the todo lists, and the ids given to events. */
module KeepsQueues {
  import opened Kernel
  import opened Protocol
  import opened Invariant
  import opened KeepsCounts

  predicate Handling(threads: map<Tid, Thread>, t: Tid) {
    t in threads && (threads[t].GetClaimed? || threads[t].RetRepost?)
  }

  /** Same order of posting, same claims; new histories are blank. */
  predicate SameOrder(hist: map<Addr, Hist>, hist': map<Addr, Hist>) {
    && (forall e | e in hist :: e in hist' && hist'[e].seqno == hist[e].seqno && hist'[e].claimed == hist[e].claimed)
    && (forall e | e in hist' && e !in hist :: hist'[e].seqno == 0 && hist'[e].claimed == {})
  }

  /** Steps that at most empty a todo list or shorten a working list. */
  lemma QueueFrame(groups: map<Addr, Group>, groups': map<Addr, Group>, threads: map<Tid, Thread>, threads': map<Tid, Thread>,
                   hist: map<Addr, Hist>, hist': map<Addr, Hist>, posts: nat, t: Tid)
    requires QueueInv(groups, threads, hist, posts) && SameOthers(threads, threads', t) && SameOrder(hist, hist')
    requires forall a | a in groups' :: groups'[a].todo == [] || (a in groups && groups'[a].todo == groups[a].todo)
    requires forall a | a in groups' :: forall e | e in groups'[a].working :: a in groups && e in groups[a].working
    requires Handling(threads', t) ==> Claimed(hist, threads'[t].e, threads'[t].a)
    ensures QueueInv(groups', threads', hist', posts)
  {
    forall a | a in groups'
      ensures TodoOk(groups'[a].todo, a, hist')
      ensures forall e | e in groups'[a].working :: Claimed(hist', e, a)
      ensures forall e | e in groups'[a].todo :: e in hist' && hist'[e].seqno > 0
    {
      if a in groups { assert TodoOk(groups[a].todo, a, hist); }
    }
    forall u | Handling(threads', u) ensures Claimed(hist', threads'[u].e, threads'[u].a) {
      if u != t { assert Handling(threads, u) && Claimed(hist, threads[u].e, threads[u].a); }
    }
  }

  /** A fresh event goes behind everything there is. */
  lemma QueuePost(groups: map<Addr, Group>, groups': map<Addr, Group>, threads: map<Tid, Thread>, threads': map<Tid, Thread>,
                  hist: map<Addr, Hist>, hist': map<Addr, Hist>, posts: nat, t: Tid, e: Addr)
    requires QueueInv(groups, threads, hist, posts) && SameOthers(threads, threads', t) && !Handling(threads', t)
    requires e in hist && hist[e].seqno == 0
    requires e in hist' && hist' == hist[e := hist'[e]] && hist'[e].seqno == posts + 1 && hist'[e].claimed == hist[e].claimed
    requires groups'.Keys == groups.Keys
    requires forall a | a in groups :: groups'[a].working == groups[a].working
                                    && (groups'[a].todo == groups[a].todo || groups'[a].todo == groups[a].todo + [e])
    ensures QueueInv(groups', threads', hist', posts + 1)
  {
    forall a | a in groups'
      ensures TodoOk(groups'[a].todo, a, hist')
      ensures forall f | f in groups'[a].working :: Claimed(hist', f, a)
      ensures forall f | f in groups'[a].todo :: f in hist' && hist'[f].seqno > 0
    {
      var todo, todo' := groups[a].todo, groups'[a].todo;
      assert TodoOk(todo, a, hist);
      forall i, j | 0 <= i < j < |todo'|
        ensures Claimed(hist', todo'[i], a)
             || (!Claimed(hist', todo'[j], a) && todo'[i] in hist' && todo'[j] in hist' && hist'[todo'[i]].seqno < hist'[todo'[j]].seqno)
      {
        assert todo'[i] == todo[i] && todo[i] in hist && todo[i] != e;
      }
    }
    forall u | Handling(threads', u) ensures Claimed(hist', threads'[u].e, threads'[u].a) {
      assert Handling(threads, u) && Claimed(hist, threads[u].e, threads[u].a);
    }
  }

  lemma QueueClaim(groups: map<Addr, Group>, threads: map<Tid, Thread>, hist: map<Addr, Hist>, posts: nat, t: Tid, a: Addr, g: Group)
    requires QueueInv(groups, threads, hist, posts) && a in groups && groups[a].todo != [] && NoDup(groups[a].todo)
    requires groups[a].todo[0] in hist
    requires g.todo == groups[a].todo[1..] && g.working == [groups[a].todo[0]] + groups[a].working
    ensures var e := groups[a].todo[0];
      QueueInv(groups[a := g], threads[t := GetClaimed(a, e)], hist[e := hist[e].(claimed := hist[e].claimed + {a})], posts)
  {
    var e := groups[a].todo[0];
    var hist' := hist[e := hist[e].(claimed := hist[e].claimed + {a})];
    var threads' := threads[t := GetClaimed(a, e)];
    assert e in groups[a].todo;
    forall f, b | f != e || b != a ensures Claimed(hist', f, b) == Claimed(hist, f, b) {}
    forall b | b in groups && b != a ensures TodoOk(groups[b].todo, b, hist') {
      assert TodoOk(groups[b].todo, b, hist);
    }
    TailInOrder(groups[a].todo, a, e, hist, hist');
    hide TodoOk;
    forall u | Handling(threads', u) ensures Claimed(hist', threads'[u].e, threads'[u].a) {
      if u != t { assert Handling(threads, u) && Claimed(hist, threads[u].e, threads[u].a); }
    }
  }

  lemma TailInOrder(todo: seq<Addr>, a: Addr, e: Addr, hist: map<Addr, Hist>, hist': map<Addr, Hist>)
    requires TodoOk(todo, a, hist) && NoDup(todo) && todo != [] && todo[0] == e && e in hist
    requires hist' == hist[e := hist[e].(claimed := hist[e].claimed + {a})]
    ensures TodoOk(todo[1..], a, hist')
  {
  }

  lemma QueueUnclaim(groups: map<Addr, Group>, threads: map<Tid, Thread>, threads': map<Tid, Thread>, hist: map<Addr, Hist>,
                     posts: nat, t: Tid, a: Addr, e: Addr, g: Group)
    requires QueueInv(groups, threads, hist, posts) && SameOthers(threads, threads', t) && !Handling(threads', t)
    requires a in groups && Claimed(hist, e, a) && NoDup(groups[a].todo) && NoDup(groups[a].working) && groups[a].Holds(e)
    requires g.todo == [e] + Without(groups[a].todo, e) && g.working == Without(groups[a].working, e)
    ensures QueueInv(groups[a := g], threads', hist, posts)
  {
    hide TodoOk;
    RestInOrder(groups[a].todo, a, e, hist);
    ReturnedInFront(Without(groups[a].todo, e), a, e, hist);
    assert hist[e].seqno > 0;
    forall u | Handling(threads', u) ensures Claimed(hist, threads'[u].e, threads'[u].a) {
      assert Handling(threads, u);
    }
  }

  lemma ReturnedInFront(rest: seq<Addr>, a: Addr, e: Addr, hist: map<Addr, Hist>)
    requires TodoOk(rest, a, hist) && Claimed(hist, e, a)
    ensures TodoOk([e] + rest, a, hist)
  {
  }

  lemma RestInOrder(todo: seq<Addr>, a: Addr, e: Addr, hist: map<Addr, Hist>)
    requires TodoOk(todo, a, hist)
    ensures TodoOk(Without(todo, e), a, hist)
  {
  }

  lemma IdFrame(events: map<Addr, Event>, events': map<Addr, Event>, hist: map<Addr, Hist>, hist': map<Addr, Hist>, lastId: int, posts: nat)
    requires IdInv(events, hist, lastId, posts)
    requires forall e | e in events' && e in hist' && hist'[e].seqno > 0 ::
               e in events && e in hist && events'[e].id == events[e].id && hist'[e].seqno == hist[e].seqno
    ensures IdInv(events', hist', lastId, posts)
  {}

  lemma IdPost(events: map<Addr, Event>, events': map<Addr, Event>, hist: map<Addr, Hist>, hist': map<Addr, Hist>,
               lastId: int, posts: nat, e: Addr)
    requires IdInv(events, hist, lastId, posts)
    requires e in events' && e in hist' && events' == events[e := events'[e]] && hist' == hist[e := hist'[e]] && hist'[e].seqno == posts + 1
    requires -0x8000_0000 <= lastId < 0x8000_0000 && events'[e].id == AsUnsignedLong(NextId(lastId))
    ensures IdInv(events', hist', NextId(lastId), posts + 1)
  {
  }
}
