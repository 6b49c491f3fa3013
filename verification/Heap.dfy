/** The simulator's binary heap over the order key. A key depends on the clock, so the keys an
    entry caches go stale; both published remedies are here, lazy revalidation and the rebuild. */
module Heap {
  import opened Priority
  import opened Sequences

  datatype Entry = Entry(ticket: Features, key: Key)

  datatype Popped = Nothing | Next(ticket: Features)

  function Tickets(s: seq<Entry>): seq<Features> { Map((e: Entry) => e.ticket, s) }

  function Keys(s: seq<Entry>): seq<Key> { Map((e: Entry) => e.key, s) }

  function Parent(i: nat): int { (i - 1) / 2 }

  ghost predicate Edge(s: seq<Entry>, c: nat)
    requires 0 < c < |s|
  {
    Before(s[Parent(c)].key, s[c].key)
  }

  ghost predicate IsHeap(s: seq<Entry>) {
    forall c :: 0 < c < |s| ==> Edge(s, c)
  }

  /** Only the edges whose parent is at `low` or later: what the rebuild has restored so far. */
  ghost predicate IsHeapFrom(s: seq<Entry>, low: nat) {
    forall c :: 0 < c < |s| && Parent(c) >= low ==> Edge(s, c)
  }

  ghost predicate Fresh(e: Entry, now: int, w: Weights) { e.key == QueueKey(e.ticket, now, w) }

  ghost predicate AllFresh(s: seq<Entry>, now: int, w: Weights) {
    forall i {:trigger Fresh(s[i], now, w)} :: 0 <= i < |s| ==> Fresh(s[i], now, w)
  }

  /** No cached key is ahead of the current one, as when every key was taken at `now` or earlier. */
  ghost predicate CachedBy(s: seq<Entry>, now: int, w: Weights) {
    forall i :: 0 <= i < |s| ==> Before(QueueKey(s[i].ticket, now, w), s[i].key)
  }

  ghost predicate FirstAmong(k: Key, s: seq<Entry>) {
    forall i :: 0 <= i < |s| ==> Before(k, s[i].key)
  }

  lemma OrderLaws()
    ensures forall a :: Before(a, a)
    ensures forall a, b :: CompareKeys(a, b) < 0 || Before(b, a)
    ensures forall a, b, c :: Before(a, b) && Before(b, c) ==> Before(a, c)
  {
    forall a ensures Before(a, a) { KeyOrderIsTotal(a, a, a); }
    forall a, b ensures CompareKeys(a, b) < 0 || Before(b, a) { KeyOrderIsTotal(a, b, b); }
    forall a, b, c | Before(a, b) && Before(b, c) ensures Before(a, c) { KeyOrderIsTotal(a, b, c); }
  }

  lemma {:induction false} RootIsFirst(s: seq<Entry>, i: nat)
    requires IsHeap(s) && i < |s|
    ensures Before(s[0].key, s[i].key)
  {
    if i == 0 {
      KeyOrderIsTotal(s[0].key, s[0].key, s[0].key);
    } else {
      RootIsFirst(s, Parent(i));
      assert Edge(s, i);
      KeyOrderIsTotal(s[0].key, s[Parent(i)].key, s[i].key);
    }
  }

  lemma RootFirst(s: seq<Entry>)
    requires IsHeap(s) && s != []
    ensures FirstAmong(s[0].key, s)
  {
    forall i | 0 <= i < |s| ensures Before(s[0].key, s[i].key) { RootIsFirst(s, i); }
  }

  /** What a sift down from `start` has established when it stands at `index`. */
  ghost predicate Sinking(was: seq<Entry>, s: seq<Entry>, start: nat, index: nat) {
    && start <= index <= |s| == |was|
    && multiset(s) == multiset(was)
    && (forall i :: 0 <= i < start ==> s[i] == was[i])
    && (forall c :: 0 < c < |s| && Parent(c) >= start && Parent(c) != index ==> Edge(s, c))
    && (forall c :: 0 < c < |s| && Parent(c) == index && index > start ==>
          Before(s[Parent(index)].key, s[c].key))
  }

  /** The comparisons of one sift step: the left child, then the right child against the better. */
  function Least(s: seq<Entry>, index: nat): nat
    requires index <= |s|
  {
    var l, r := 2 * index + 1, 2 * index + 2;
    var b := if l < |s| && CompareKeys(s[l].key, s[index].key) < 0 then l else index;
    if r < |s| && CompareKeys(s[r].key, s[b].key) < 0 then r else b
  }

  lemma LeastIsFirst(s: seq<Entry>, index: nat)
    requires index <= |s|
    ensures var b := Least(s, index);
            && (b == index || (index < b < |s| && Parent(b) == index && Before(s[b].key, s[index].key)))
            && (forall c :: 0 < c < |s| && Parent(c) == index ==> Before(s[b].key, s[c].key))
  {
    OrderLaws();
    var l, r := 2 * index + 1, 2 * index + 2;
    if r < |s| { KeyOrderIsTotal(s[r].key, s[l].key, s[index].key); }
    forall c | 0 < c < |s| && Parent(c) == index ensures Before(s[Least(s, index)].key, s[c].key) {
      assert c == 2 * index + 1 || c == 2 * index + 2;
    }
  }

  lemma Settled(was: seq<Entry>, s: seq<Entry>, start: nat, index: nat)
    requires Sinking(was, s, start, index)
    requires 2 * index + 1 < |s| ==> Before(s[index].key, s[2 * index + 1].key)
    requires 2 * index + 2 < |s| ==> Before(s[index].key, s[2 * index + 2].key)
    ensures IsHeapFrom(s, start)
  {
    forall c | 0 < c < |s| && Parent(c) >= start ensures Edge(s, c) {
      if Parent(c) == index { assert c == 2 * index + 1 || c == 2 * index + 2; }
    }
  }

  /** The edge above `c` once `index` and `best` have changed places. */
  lemma EdgeAfterSwap(s: seq<Entry>, start: nat, index: nat, best: nat, c: nat)
    requires start <= index < best < |s| && Parent(best) == index
    requires Before(s[best].key, s[index].key)
    requires forall d :: 0 < d < |s| && Parent(d) >= start && Parent(d) != index ==> Edge(s, d)
    requires forall d :: 0 < d < |s| && Parent(d) == index ==> Before(s[best].key, s[d].key)
    requires index > start ==> Before(s[Parent(index)].key, s[best].key)
    requires 0 < c < |s| && Parent(c) >= start && Parent(c) != best
    ensures Edge(s[index := s[best]][best := s[index]], c)
  {
    var t := s[index := s[best]][best := s[index]];
    if Parent(c) == index {
      assert c != best ==> t[c] == s[c];
    } else if c == index {
      assert t[Parent(c)] == s[Parent(c)];
    } else {
      assert Edge(s, c) && t[c] == s[c] && t[Parent(c)] == s[Parent(c)];
    }
  }

  lemma DownStep(was: seq<Entry>, s: seq<Entry>, start: nat, index: nat, best: nat)
    requires Sinking(was, s, start, index) && index < best < |s| && Parent(best) == index
    requires Before(s[best].key, s[index].key)
    requires forall c :: 0 < c < |s| && Parent(c) == index ==> Before(s[best].key, s[c].key)
    ensures Sinking(was, s[index := s[best]][best := s[index]], start, best)
  {
    SwapPermutes(s, index, best);
    var t := s[index := s[best]][best := s[index]];
    forall c | 0 < c < |t| && Parent(c) >= start && Parent(c) != best ensures Edge(t, c) {
      EdgeAfterSwap(s, start, index, best, c);
    }
    forall c | 0 < c < |t| && Parent(c) == best ensures Before(t[index].key, t[c].key) {
      assert Edge(s, c) && t[c] == s[c];
    }
  }

  // ----- how far a sift can travel -----

  /** Levels below node `i` in a heap of `n` nodes, following left children. */
  function Height(i: nat, n: nat): nat
    decreases n - i
  {
    if 2 * i + 1 < n then 1 + Height(2 * i + 1, n) else 0
  }

  lemma {:induction false} HeightFalls(i: nat, j: nat, n: nat)
    requires i <= j
    ensures Height(i, n) >= Height(j, n)
    decreases n - i
  {
    if 2 * j + 1 < n { HeightFalls(2 * i + 1, 2 * j + 1, n); }
  }

  lemma ChildIsLower(i: nat, c: nat, n: nat)
    requires i < c < n && Parent(c) == i
    ensures Height(c, n) + 1 <= Height(i, n)
  {
    HeightFalls(2 * i + 1, c, n);
  }

  /** All the levels a rebuild can travel below the nodes from `low` on. */
  function Travel(low: nat, n: nat): nat
    decreases n - low
  {
    if low >= n then 0 else Height(low, n) + Travel(low + 1, n)
  }

  /** The same levels counted once more over the nodes from `from` to `to`. */
  function Levels(from: nat, to: nat, n: nat): nat
    decreases if from < to then to - from else 0
  {
    if from >= to || from >= n then 0 else 1 + Height(from, n) + Levels(from + 1, to, n)
  }

  lemma {:induction false} LevelsExtend(from: nat, to: nat, n: nat)
    requires from <= to
    ensures Levels(from, to + 1, n) == Levels(from, to, n) + (if to < n then 1 + Height(to, n) else 0)
    decreases if from < to then to - from else 0
  {
    if from < to { LevelsExtend(from + 1, to, n); }
  }

  /** Moving the window past node `low` takes in its two children. */
  lemma LevelsOfChildren(low: nat, n: nat)
    requires low < n
    ensures var l, r := 2 * low + 1, 2 * low + 2;
      Levels(low + 1, 2 * low + 3, n) + 1 + Height(low, n)
      == Levels(low, 2 * low + 1, n) + (if l < n then 1 + Height(l, n) else 0) + (if r < n then 1 + Height(r, n) else 0)
  {
    LevelsExtend(low + 1, 2 * low + 1, n);
    LevelsExtend(low + 1, 2 * low + 2, n);
  }

  /** Building bottom-up is linear: the levels to travel, plus those still owed by the roots of the
      part already built, never exceed twice the nodes seen. */
  lemma {:induction false} TravelIsLinear(low: nat, n: nat)
    requires low <= n
    ensures Travel(low, n) + Levels(low, 2 * low + 1, n) <= 2 * (n - low)
    decreases n - low
  {
    if low < n {
      TravelIsLinear(low + 1, n);
      LevelsOfChildren(low, n);
      if 2 * low + 2 < n { HeightFalls(2 * low + 2, 4 * low + 3, n); }
    }
  }

  class QueueHeap {
    var entries: seq<Entry>
    const weights: Weights

    constructor (weights: Weights)
      ensures entries == [] && this.weights == weights
    {
      entries := [];
      this.weights := weights;
    }

    method Swap(i: nat, j: nat)
      requires i < |entries| && j < |entries|
      modifies this`entries
      ensures entries == old(entries)[i := old(entries)[j]][j := old(entries)[i]]
      ensures multiset(entries) == multiset(old(entries))
    {
      SwapPermutes(entries, i, j);
      entries := entries[i := entries[j]][j := entries[i]];
    }

    /** Repairs the one edge above `start`. */
    method SiftUp(start: nat)
      requires start < |entries|
      requires forall c :: 0 < c < |entries| && c != start ==> Edge(entries, c)
      requires forall c :: 0 < c < |entries| && Parent(c) == start && start > 0 ==>
                 Before(entries[Parent(start)].key, entries[c].key)
      modifies this`entries
      ensures IsHeap(entries) && multiset(entries) == multiset(old(entries))
    {
      var index := start;
      OrderLaws();
      while index > 0
        invariant index < |entries| && multiset(entries) == multiset(old(entries))
        invariant forall c :: 0 < c < |entries| && c != index ==> Edge(entries, c)
        invariant forall c :: 0 < c < |entries| && Parent(c) == index && index > 0 ==>
                    Before(entries[Parent(index)].key, entries[c].key)
      {
        var parent := (index - 1) / 2;
        if CompareKeys(entries[index].key, entries[parent].key) < 0 {
          ghost var s := entries;
          Swap(index, parent);
          forall c | 0 < c < |entries| && c != parent ensures Edge(entries, c) {
            assert c != index ==> Edge(s, c);
          }
          forall c | 0 < c < |entries| && Parent(c) == parent && parent > 0
            ensures Before(entries[Parent(parent)].key, entries[c].key)
          {
            assert Edge(s, parent);
            assert c != index ==> Edge(s, c);
          }
          index := parent;
        } else {
          return;
        }
      }
    }

    /** Repairs the edges below `start`, in at most as many swaps as there are levels there. */
    method SiftDown(start: nat) returns (ghost swaps: nat)
      requires start <= |entries| && IsHeapFrom(entries, start + 1)
      modifies this`entries
      ensures IsHeapFrom(entries, start) && multiset(entries) == multiset(old(entries))
      ensures |entries| == |old(entries)| && forall i :: 0 <= i < start ==> entries[i] == old(entries[i])
      ensures swaps <= Height(start, |entries|)
    {
      var index := start;
      swaps := 0;
      ghost var was := entries;
      while true
        invariant Sinking(was, entries, start, index)
        invariant swaps + Height(index, |entries|) <= Height(start, |entries|)
        decreases |entries| - index
      {
        var best := Least(entries, index);
        LeastIsFirst(entries, index);
        if best == index {
          Settled(was, entries, start, index);
          return;
        }
        DownStep(was, entries, start, index, best);
        Swap(index, best);
        ChildIsLower(index, best, |entries|);
        swaps := swaps + 1;
        index := best;
      }
    }

    method PopRoot() returns (root: Entry)
      requires IsHeap(entries) && entries != []
      modifies this`entries
      ensures root == old(entries)[0] && FirstAmong(root.key, old(entries))
      ensures IsHeap(entries) && multiset(old(entries)) == multiset(entries) + multiset{root}
    {
      RootFirst(entries);
      root := entries[0];
      ghost var was := entries;
      var last := entries[|entries| - 1];
      entries := entries[..|entries| - 1];
      assert was == entries + [last];
      if entries != [] {
        RemoveFirst(was);
        forall c | 0 < c < |entries| && Parent(c) >= 1 ensures Edge(entries[0 := last], c) {
          assert Edge(was, c);
        }
        entries := entries[0 := last];
        ghost var swaps := SiftDown(0);
      }
    }

    method PushEntry(entry: Entry)
      requires IsHeap(entries)
      modifies this`entries
      ensures IsHeap(entries) && multiset(entries) == multiset(old(entries)) + multiset{entry}
    {
      ghost var was := entries;
      entries := entries + [entry];
      forall c | 0 < c < |entries| && c != |entries| - 1 ensures Edge(entries, c) {
        assert Edge(was, c);
      }
      SiftUp(|entries| - 1);
    }

    method Push(ticket: Features, now: int)
      requires IsHeap(entries)
      modifies this`entries
      ensures IsHeap(entries)
      ensures multiset(entries) == multiset(old(entries)) + multiset{Entry(ticket, QueueKey(ticket, now, weights))}
    {
      PushEntry(Entry(ticket, QueueKey(ticket, now, weights)));
    }

    /** Lazy revalidation. However stale the cached keys are it settles, no entry being put back twice: the
        bound on the steps is never what ends the loop, so the failure after it cannot be reached. */
    method PopNext(now: int) returns (r: Popped, ghost rekeyed: nat)
      requires IsHeap(entries)
      modifies this`entries
      ensures IsHeap(entries)
      ensures rekeyed <= |old(entries)|
      ensures r.Nothing? <==> old(entries) == []
      ensures r.Nothing? ==> entries == []
      ensures r.Next? ==> multiset(Tickets(old(entries))) == multiset(Tickets(entries)) + multiset{r.ticket}
      ensures r.Next? ==> FirstAmong(QueueKey(r.ticket, now, weights), entries)
      ensures forall e :: e in entries ==> e in old(entries) || Fresh(e, now, weights)
      ensures r.Next? && CachedBy(old(entries), now, weights) ==>
                r.ticket == old(entries)[0].ticket &&
                multiset(old(entries)) == multiset(entries) + multiset{old(entries)[0]}
    {
      r, rekeyed := Nothing, 0;
      ghost var was := entries;
      ghost var stale := multiset(entries);
      var bound := |entries| * 2 + 2;
      var step := 0;
      while step < bound
        invariant r.Nothing? && rekeyed == step && Rekeying(was, entries, stale, step, now, weights)
      {
        if entries == [] { return; }
        ghost var before := entries;
        var candidate := PopRoot();
        var revalidated := QueueKey(candidate.ticket, now, weights);
        ghost var rest := entries;
        if entries == [] || CompareKeys(revalidated, entries[0].key) <= 0 {
          Answers(was, before, stale, step, rest, now, weights);
          return Next(candidate.ticket), step;
        }
        BehindMeansStale(before, rest, now, weights);
        PushEntry(Entry(candidate.ticket, revalidated));
        PutBack(was, before, stale, step, rest, entries, Entry(candidate.ticket, revalidated), now, weights);
        stale := stale - multiset{candidate};
        step := step + 1;
        rekeyed := step;
      }
      assert false;
    }

    method Rekey(now: int)
      modifies this`entries
      ensures AllFresh(entries, now, weights) && Tickets(entries) == Tickets(old(entries))
    {
      var i := 0;
      while i < |entries|
        invariant 0 <= i <= |entries| == |old(entries)|
        invariant forall j :: 0 <= j < i ==> Fresh(entries[j], now, weights)
        invariant Tickets(entries) == Tickets(old(entries))
      {
        var t := entries[i].ticket;
        assert Tickets(entries)[i] == t;
        entries := entries[i := Entry(t, QueueKey(t, now, weights))];
        i := i + 1;
      }
    }

    /** From the last parent back to the root, in a number of swaps linear in the size. */
    method Heapify() returns (ghost swaps: nat)
      modifies this`entries
      ensures IsHeap(entries) && multiset(entries) == multiset(old(entries)) && |entries| == |old(entries)|
      ensures swaps <= 2 * |entries|
    {
      ghost var n := |entries|;
      var index := |entries| / 2 - 1;
      swaps := 0;
      while index >= 0
        invariant -1 <= index < n && |entries| == n && IsHeapFrom(entries, index + 1)
        invariant multiset(entries) == multiset(old(entries))
        invariant swaps <= Travel(index + 1, n)
      {
        ghost var more := SiftDown(index);
        swaps := swaps + more;
        index := index - 1;
      }
      TravelIsLinear(0, n);
    }

    /** The sweep: every key is taken again at `now` and the heap is restored bottom-up. */
    method Rebuild(now: int) returns (ghost swaps: nat)
      modifies this`entries
      ensures IsHeap(entries) && AllFresh(entries, now, weights)
      ensures multiset(Tickets(entries)) == multiset(Tickets(old(entries)))
      ensures swaps <= 2 * |entries|
    {
      Rekey(now);
      ghost var keyed := entries;
      swaps := Heapify();
      MapPermutes((e: Entry) => e.ticket, entries, keyed);
      FreshPermutes(entries, keyed, now, weights);
    }
  }

  lemma RemoveFirst(s: seq<Entry>)
    requires |s| > 1
    ensures multiset(s) == multiset(s[..|s| - 1][0 := s[|s| - 1]]) + multiset{s[0]}
  {
    var t := s[..|s| - 1];
    assert s == t + [s[|s| - 1]];
  }

  lemma TicketsMinus(s: seq<Entry>, t: seq<Entry>, e: Entry)
    requires multiset(s) == multiset(t) + multiset{e}
    ensures multiset(Tickets(s)) == multiset(Tickets(t)) + multiset{e.ticket}
  {
    var f := (x: Entry) => x.ticket;
    MapPermutes(f, s, t + [e]);
    MapConcat(f, t, [e]);
    assert Map(f, [e]) == [e.ticket];
  }

  lemma FirstExtends(a: Key, b: Key, s: seq<Entry>)
    requires Before(a, b) && FirstAmong(b, s)
    ensures FirstAmong(a, s)
  {
    OrderLaws();
  }

  /** Where lazy revalidation stands after `step` entries went back with a fresh key: `stale` are
      the entries it has not touched yet. */
  ghost predicate Rekeying(was: seq<Entry>, s: seq<Entry>, stale: multiset<Entry>, step: nat, now: int, w: Weights) {
    && step + |stale| <= |was|
    && IsHeap(s)
    && stale <= multiset(s)
    && (forall e :: e in multiset(s) - stale ==> Fresh(e, now, w))
    && (forall e :: e in s ==> e in was || Fresh(e, now, w))
    && multiset(Tickets(s)) == multiset(Tickets(was))
    && (CachedBy(was, now, w) ==> step == 0)
    && (step == 0 ==> s == was)
    && (s == [] <==> was == [])
  }

  /** The root is not put back when its key was current, nor when it can only have improved. */
  lemma BehindMeansStale(s: seq<Entry>, rest: seq<Entry>, now: int, w: Weights)
    requires s != [] && rest != [] && FirstAmong(s[0].key, s)
    requires multiset(s) == multiset(rest) + multiset{s[0]}
    requires CompareKeys(QueueKey(s[0].ticket, now, w), rest[0].key) > 0
    ensures !Fresh(s[0], now, w) && !CachedBy(s, now, w)
  {
    assert rest[0] in multiset(s);
    assert Before(s[0].key, rest[0].key);
    OrderLaws();
  }

  lemma PutBack(was: seq<Entry>, s: seq<Entry>, stale: multiset<Entry>, step: nat, rest: seq<Entry>,
                next: seq<Entry>, again: Entry, now: int, w: Weights)
    requires Rekeying(was, s, stale, step, now, w) && s != []
    requires !Fresh(s[0], now, w) && !CachedBy(was, now, w)
    requires multiset(s) == multiset(rest) + multiset{s[0]} && multiset(next) == multiset(rest) + multiset{again}
    requires IsHeap(next) && Fresh(again, now, w) && again.ticket == s[0].ticket
    ensures Rekeying(was, next, stale - multiset{s[0]}, step + 1, now, w)
  {
    assert s[0] in stale;
    TicketsMinus(s, rest, s[0]);
    TicketsMinus(next, rest, again);
    MembersAfterPutBack(was, s, stale, rest, next, again, now, w);
  }

  lemma MembersAfterPutBack(was: seq<Entry>, s: seq<Entry>, stale: multiset<Entry>, rest: seq<Entry>,
                            next: seq<Entry>, again: Entry, now: int, w: Weights)
    requires s != [] && stale <= multiset(s) && s[0] in stale && Fresh(again, now, w)
    requires forall e :: e in multiset(s) - stale ==> Fresh(e, now, w)
    requires forall e :: e in s ==> e in was || Fresh(e, now, w)
    requires multiset(s) == multiset(rest) + multiset{s[0]} && multiset(next) == multiset(rest) + multiset{again}
    ensures stale - multiset{s[0]} <= multiset(next)
    ensures forall e :: e in multiset(next) - (stale - multiset{s[0]}) ==> Fresh(e, now, w)
    ensures forall e :: e in next ==> e in was || Fresh(e, now, w)
    ensures next != []
  {
    forall e | e in multiset(next) - (stale - multiset{s[0]}) ensures Fresh(e, now, w) {
      assert e == again || e in multiset(s) - stale;
    }
    forall e | e in next ensures e in was || Fresh(e, now, w) {
      assert e in multiset(next);
      assert e == again || e in multiset(s);
    }
    assert |multiset(next)| > 0;
  }

  lemma Answers(was: seq<Entry>, s: seq<Entry>, stale: multiset<Entry>, step: nat, rest: seq<Entry>, now: int,
                w: Weights)
    requires Rekeying(was, s, stale, step, now, w) && s != [] && IsHeap(rest)
    requires multiset(s) == multiset(rest) + multiset{s[0]}
    requires rest != [] ==> Before(QueueKey(s[0].ticket, now, w), rest[0].key)
    ensures multiset(Tickets(was)) == multiset(Tickets(rest)) + multiset{s[0].ticket}
    ensures FirstAmong(QueueKey(s[0].ticket, now, w), rest)
    ensures forall e :: e in rest ==> e in was || Fresh(e, now, w)
  {
    TicketsMinus(s, rest, s[0]);
    forall e | e in rest ensures e in was || Fresh(e, now, w) {
      assert e in multiset(rest);
      assert e in multiset(s);
    }
    if rest != [] {
      RootFirst(rest);
      FirstExtends(QueueKey(s[0].ticket, now, w), rest[0].key, rest);
    }
  }

  lemma FreshPermutes(s: seq<Entry>, t: seq<Entry>, now: int, w: Weights)
    requires multiset(s) == multiset(t) && AllFresh(t, now, w)
    ensures AllFresh(s, now, w)
  {
    forall i | 0 <= i < |s| ensures Fresh(s[i], now, w) {
      assert s[i] in multiset(t);
    }
  }
}
