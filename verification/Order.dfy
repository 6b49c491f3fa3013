/** The queue as three mechanisms order it: a sort by the comparator, a sort by the stored columns,
    and the heap drained at one instant. */
module Order {
  import opened Priority
  import opened Collation
  import opened Sequences
  import opened Heap

  function Keyed(tickets: seq<Features>, now: int, w: Weights): seq<Entry> {
    Map((t: Features) => Entry(t, QueueKey(t, now, w)), tickets)
  }

  function Ids(tickets: seq<Features>): seq<seq<nat>> { Map((t: Features) => t.id, tickets) }

  function KeyIds(keys: seq<Key>): seq<seq<nat>> { Map((k: Key) => k.id, keys) }

  predicate ByKey(a: Entry, b: Entry) { Before(a.key, b.key) }

  function OrderQueue(tickets: seq<Features>, now: int, w: Weights): seq<Features> {
    Tickets(Sort(ByKey, Keyed(tickets, now, w)))
  }

  datatype Ordering = Ordered(ids: seq<seq<nat>>) | KeyDoesNotFit

  predicate ByColumn(a: Entry, b: Entry) {
    StoredCollationKey(a.key).Encoded? && StoredCollationKey(b.key).Encoded? && CompareStoredRows(a.key, b.key) <= 0
  }

  /** A lone key is never compared, so nothing tries to encode it. */
  function StoredOrder(tickets: seq<Features>, now: int, w: Weights): Ordering {
    var keyed := Keyed(tickets, now, w);
    if |keyed| >= 2 && exists i :: 0 <= i < |keyed| && !StoredCollationKey(keyed[i].key).Encoded? then KeyDoesNotFit
    else Ordered(Ids(Tickets(Sort(ByColumn, keyed))))
  }

  ghost predicate Sorted(keys: seq<Key>) {
    forall i, j :: 0 <= i < j < |keys| ==> Before(keys[i], keys[j])
  }

  lemma SortedCons(e: Entry, s: seq<Entry>)
    requires Sorted(Keys(s)) && FirstAmong(e.key, s)
    ensures Sorted(Keys([e] + s))
  {
    var r := Keys([e] + s);
    forall i, j | 0 <= i < j < |r| ensures Before(r[i], r[j]) {
      assert r[j] == Keys(s)[j - 1];
      if i > 0 { assert r[i] == Keys(s)[i - 1]; }
    }
  }

  lemma SortedTail(s: seq<Entry>)
    requires s != [] && Sorted(Keys(s))
    ensures Sorted(Keys(s[1..])) && FirstAmong(s[0].key, s[1..])
  {
    var k := Keys(s);
    assert Keys(s[1..]) == k[1..];
    forall i | 0 <= i < |s[1..]| ensures Before(s[0].key, s[1..][i].key) {
      assert Before(k[0], k[i + 1]);
    }
  }

  lemma FirstWithOneMore(k: Key, s: seq<Entry>, e: Entry, r: seq<Entry>)
    requires FirstAmong(k, s) && Before(k, e.key) && multiset(r) == multiset(s) + multiset{e}
    ensures FirstAmong(k, r)
  {
    forall i | 0 <= i < |r| ensures Before(k, r[i].key) {
      assert r[i] in multiset(s) + multiset{e};
    }
  }

  lemma {:induction false} InsertSorts(e: Entry, s: seq<Entry>)
    requires Sorted(Keys(s))
    ensures Sorted(Keys(Insert(ByKey, e, s)))
    ensures multiset(Insert(ByKey, e, s)) == multiset(s) + multiset{e}
  {
    if s == [] {
      assert Insert(ByKey, e, s) == [e];
    } else {
      assert s == [s[0]] + s[1..];
      SortedTail(s);
      KeyOrderIsTotal(e.key, s[0].key, s[0].key);
      if Before(e.key, s[0].key) {
        FirstExtends(e.key, s[0].key, s[1..]);
        SortedCons(e, s);
      } else {
        InsertSorts(e, s[1..]);
        FirstWithOneMore(s[0].key, s[1..], e, Insert(ByKey, e, s[1..]));
        SortedCons(s[0], Insert(ByKey, e, s[1..]));
      }
    }
  }

  lemma {:induction false} SortSorts(s: seq<Entry>)
    ensures Sorted(Keys(Sort(ByKey, s))) && multiset(Sort(ByKey, s)) == multiset(s)
  {
    if s != [] {
      assert s == [s[0]] + s[1..];
      SortSorts(s[1..]);
      InsertSorts(s[0], Sort(ByKey, s[1..]));
    }
  }

  lemma HeadsAgree(a: seq<Key>, b: seq<Key>)
    requires a != [] && b != [] && Sorted(a) && Sorted(b) && multiset(a) == multiset(b)
    ensures a[0] == b[0]
  {
    assert a[0] in multiset(b) && b[0] in multiset(a);
    HeadOfSorted(a, b[0]);
    HeadOfSorted(b, a[0]);
    KeyOrderIsTotal(a[0], b[0], b[0]);
  }

  /** A total order leaves one arrangement: whatever sorted the keys, the result is the same. */
  lemma {:induction false} SortedUnique(a: seq<Key>, b: seq<Key>)
    requires Sorted(a) && Sorted(b) && multiset(a) == multiset(b)
    ensures a == b
    decreases |a|
  {
    PermutedLength(a, b);
    if a != [] {
      HeadsAgree(a, b);
      TailsPermute(a, b);
      TailSorted(a);
      TailSorted(b);
      SortedUnique(a[1..], b[1..]);
      assert a == [a[0]] + a[1..] && b == [b[0]] + b[1..];
    }
  }

  lemma TailSorted(a: seq<Key>)
    requires a != [] && Sorted(a)
    ensures Sorted(a[1..])
  {
    forall i, j | 0 <= i < j < |a| - 1 ensures Before(a[1..][i], a[1..][j]) { assert Before(a[i + 1], a[j + 1]); }
  }

  lemma HeadOfSorted(a: seq<Key>, k: Key)
    requires Sorted(a) && k in a
    ensures Before(a[0], k)
  {
    KeyOrderIsTotal(k, k, k);
  }

  // ----- the sorted column agrees with the comparator -----

  /** Whenever the stored columns can hold the keys, both readings of the order give one queue. */
  lemma StoredOrderIsTheQueue(tickets: seq<Features>, now: int, w: Weights)
    requires StoredOrder(tickets, now, w).Ordered?
    ensures StoredOrder(tickets, now, w).ids == Ids(OrderQueue(tickets, now, w))
  {
    var keyed := Keyed(tickets, now, w);
    forall i, j | 0 <= i < |keyed| && 0 <= j < |keyed| && i != j
      ensures ByColumn(keyed[i], keyed[j]) == ByKey(keyed[i], keyed[j])
    {
      CollationAgreesWithComparator(keyed[i].key, keyed[j].key);
    }
    SortAgrees(ByColumn, ByKey, keyed);
  }

  // ----- the heap drained at one instant -----

  lemma KeysMinus(s: seq<Entry>, t: seq<Entry>)
    requires multiset(s) == multiset(t)
    ensures multiset(Keys(s)) == multiset(Keys(t))
  {
    MapPermutes((e: Entry) => e.key, s, t);
  }

  lemma FreshIds(s: seq<Entry>, now: int, w: Weights)
    requires AllFresh(s, now, w)
    ensures Ids(Tickets(s)) == KeyIds(Keys(s))
  {
    forall i | 0 <= i < |s| ensures Ids(Tickets(s))[i] == KeyIds(Keys(s))[i] {
      assert Fresh(s[i], now, w);
    }
  }

  /** Any sorted arrangement of the same current keys names the tickets in the queue's order. */
  lemma DrainedIsTheQueue(popped: seq<Entry>, tickets: seq<Features>, now: int, w: Weights)
    requires multiset(popped) == multiset(Keyed(tickets, now, w)) && Sorted(Keys(popped))
    ensures Ids(Tickets(popped)) == Ids(OrderQueue(tickets, now, w))
  {
    var keyed := Keyed(tickets, now, w);
    var sorted := Sort(ByKey, keyed);
    SortSorts(keyed);
    KeysMinus(popped, sorted);
    SortedUnique(Keys(popped), Keys(sorted));
    assert AllFresh(keyed, now, w);
    FreshPermutes(popped, keyed, now, w);
    FreshPermutes(sorted, keyed, now, w);
    FreshIds(popped, now, w);
    FreshIds(sorted, now, w);
  }

  lemma FreshIsCached(s: seq<Entry>, now: int, w: Weights)
    requires AllFresh(s, now, w)
    ensures CachedBy(s, now, w)
  {
    forall i | 0 <= i < |s| ensures Before(QueueKey(s[i].ticket, now, w), s[i].key) {
      assert Fresh(s[i], now, w);
      KeyOrderIsTotal(s[i].key, s[i].key, s[i].key);
    }
  }

  /** Appending what a current heap gives up keeps the drained part sorted. */
  lemma PopExtends(popped: seq<Entry>, was: seq<Entry>, rest: seq<Entry>)
    requires was != [] && Sorted(Keys(popped))
    requires forall i :: 0 <= i < |popped| ==> FirstAmong(popped[i].key, was)
    requires multiset(was) == multiset(rest) + multiset{was[0]} && FirstAmong(was[0].key, rest)
    ensures Sorted(Keys(popped + [was[0]]))
    ensures forall i :: 0 <= i < |popped| + 1 ==> FirstAmong((popped + [was[0]])[i].key, rest)
  {
    var p := popped + [was[0]];
    forall i, j | 0 <= i < j < |p| ensures Before(Keys(p)[i], Keys(p)[j]) {
      if j == |popped| { assert FirstAmong(popped[i].key, was); }
      else { assert Before(Keys(popped)[i], Keys(popped)[j]); }
    }
    forall i, j | 0 <= i < |popped| && 0 <= j < |rest| ensures Before(popped[i].key, rest[j].key) {
      assert rest[j] in multiset(was);
      var k :| 0 <= k < |was| && was[k] == rest[j];
      assert FirstAmong(popped[i].key, was);
    }
  }

  /** A drain under way: what was popped is sorted and comes before what the heap still holds. */
  ghost predicate Draining(popped: seq<Entry>, left: seq<Entry>, keyed: seq<Entry>, now: int, w: Weights) {
    && IsHeap(left) && AllFresh(left, now, w)
    && multiset(popped) + multiset(left) == multiset(keyed)
    && Sorted(Keys(popped))
    && (forall i :: 0 <= i < |popped| ==> FirstAmong(popped[i].key, left))
  }

  lemma DrainStep(popped: seq<Entry>, was: seq<Entry>, rest: seq<Entry>, keyed: seq<Entry>, now: int, w: Weights)
    requires Draining(popped, was, keyed, now, w) && was != [] && IsHeap(rest)
    requires multiset(was) == multiset(rest) + multiset{was[0]}
    requires FirstAmong(QueueKey(was[0].ticket, now, w), rest)
    ensures Draining(popped + [was[0]], rest, keyed, now, w)
    ensures |rest| < |was|
  {
    assert multiset(was) == multiset(rest + [was[0]]);
    PermutedLength(was, rest + [was[0]]);
    assert Fresh(was[0], now, w);
    PopExtends(popped, was, rest);
    RestFresh(was, rest, now, w);
  }

  method FillHeap(tickets: seq<Features>, now: int, w: Weights) returns (heap: QueueHeap)
    ensures fresh(heap) && heap.weights == w && IsHeap(heap.entries)
    ensures multiset(heap.entries) == multiset(Keyed(tickets, now, w))
  {
    heap := new QueueHeap(w);
    var i := 0;
    while i < |tickets|
      invariant 0 <= i <= |tickets| && IsHeap(heap.entries)
      invariant multiset(heap.entries) == multiset(Keyed(tickets[..i], now, w))
    {
      heap.Push(tickets[i], now);
      assert tickets[..i + 1] == tickets[..i] + [tickets[i]];
      assert Keyed(tickets[..i + 1], now, w)
          == Keyed(tickets[..i], now, w) + [Entry(tickets[i], QueueKey(tickets[i], now, w))];
      i := i + 1;
    }
    assert tickets[..i] == tickets;
  }

  /** Fill a heap at one instant, then take its head until it is empty. */
  method HeapOrder(tickets: seq<Features>, now: int, w: Weights) returns (order: seq<seq<nat>>)
    ensures order == Ids(OrderQueue(tickets, now, w))
  {
    var heap := FillHeap(tickets, now, w);
    ghost var keyed := Keyed(tickets, now, w);
    order := [];
    ghost var popped: seq<Entry> := [];
    FreshPermutes(heap.entries, keyed, now, w);
    while true
      invariant Draining(popped, heap.entries, keyed, now, w) && order == Ids(Tickets(popped))
      decreases |heap.entries|
    {
      ghost var was := heap.entries;
      FreshIsCached(was, now, w);
      var next;
      ghost var rekeyed;
      next, rekeyed := heap.PopNext(now);
      if next.Nothing? { break; }
      DrainStep(popped, was, heap.entries, keyed, now, w);
      IdsExtend(popped, was[0]);
      popped := popped + [was[0]];
      order := order + [next.ticket.id];
    }
    DrainedIsTheQueue(popped, tickets, now, w);
  }

  lemma IdsExtend(s: seq<Entry>, e: Entry)
    ensures Ids(Tickets(s + [e])) == Ids(Tickets(s)) + [e.ticket.id]
  {
    assert Tickets(s + [e]) == Tickets(s) + [e.ticket];
  }

  lemma RestFresh(was: seq<Entry>, rest: seq<Entry>, now: int, w: Weights)
    requires AllFresh(was, now, w) && multiset(rest) <= multiset(was)
    ensures AllFresh(rest, now, w)
  {
    forall i | 0 <= i < |rest| ensures Fresh(rest[i], now, w) {
      assert rest[i] in multiset(was);
    }
  }

  // ----- what lazy revalidation does not give -----

  /** Keys taken no later than `now` are never ahead of the current ones, so on such a heap lazy
      revalidation never puts an entry back: `PopNext` answers with the cached root. */
  lemma CachedEarlier(s: seq<Entry>, taken: seq<int>, now: int, w: Weights)
    requires ValidWeights(w) && |taken| == |s|
    requires forall i :: 0 <= i < |s| ==> taken[i] <= now && s[i].key == QueueKey(s[i].ticket, taken[i], w)
    ensures CachedBy(s, now, w)
  {
    forall i | 0 <= i < |s| ensures Before(QueueKey(s[i].ticket, now, w), s[i].key) {
      KeysOnlyImprove(s[i].ticket, taken[i], now, w);
    }
  }

  lemma KeptSinceIsCached(s: seq<Entry>, taken: int, now: int, w: Weights)
    requires ValidWeights(w) && taken <= now && AllFresh(s, taken, w)
    ensures CachedBy(s, now, w)
  {
    forall i | 0 <= i < |s| ensures s[i].key == QueueKey(s[i].ticket, taken, w) { assert Fresh(s[i], taken, w); }
    CachedEarlier(s, seq(|s|, _ => taken), now, w);
  }

  lemma FirstAmongRest(k: Key, s: seq<Entry>, rest: seq<Entry>)
    requires FirstAmong(k, s) && multiset(rest) <= multiset(s)
    ensures FirstAmong(k, rest)
  {
    forall i | 0 <= i < |rest| ensures Before(k, rest[i].key) { assert rest[i] in multiset(s); }
  }

  /** Fill a heap at one instant and take its head lazily at a later one until it is empty: what comes out
      is the queue as it stood when the keys were taken. */
  method LazyOrder(tickets: seq<Features>, taken: int, now: int, w: Weights) returns (order: seq<seq<nat>>)
    requires ValidWeights(w) && taken <= now
    ensures order == Ids(OrderQueue(tickets, taken, w))
  {
    var heap := FillHeap(tickets, taken, w);
    ghost var keyed := Keyed(tickets, taken, w);
    order := [];
    ghost var popped: seq<Entry> := [];
    FreshPermutes(heap.entries, keyed, taken, w);
    while true
      invariant Draining(popped, heap.entries, keyed, taken, w) && order == Ids(Tickets(popped))
      decreases |heap.entries|
    {
      ghost var was := heap.entries;
      KeptSinceIsCached(was, taken, now, w);
      var next;
      ghost var rekeyed;
      next, rekeyed := heap.PopNext(now);
      if next.Nothing? { break; }
      RootFirst(was);
      FirstAmongRest(was[0].key, was, heap.entries);
      assert Fresh(was[0], taken, w);
      DrainStep(popped, was, heap.entries, keyed, taken, w);
      IdsExtend(popped, was[0]);
      popped := popped + [was[0]];
      order := order + [next.ticket.id];
    }
    DrainedIsTheQueue(popped, tickets, taken, w);
  }

  /** The ticket the queue serves first. */
  function Head(tickets: seq<Features>, now: int, w: Weights): (t: Features)
    requires tickets != []
    ensures t in tickets && forall u :: u in tickets ==> Before(QueueKey(t, now, w), QueueKey(u, now, w))
  {
    HeadIsFirst(tickets, now, w);
    OrderQueue(tickets, now, w)[0]
  }

  lemma HeadIsFirst(tickets: seq<Features>, now: int, w: Weights)
    requires tickets != []
    ensures var q := OrderQueue(tickets, now, w);
      && q != [] && q[0] in tickets
      && forall u :: u in tickets ==> Before(QueueKey(q[0], now, w), QueueKey(u, now, w))
  {
    var keyed := Keyed(tickets, now, w);
    var sorted := Sort(ByKey, keyed);
    SortSorts(keyed);
    PermutedLength(sorted, keyed);
    assert sorted[0] in multiset(keyed);
    forall u | u in tickets ensures Before(sorted[0].key, QueueKey(u, now, w)) {
      var i :| 0 <= i < |tickets| && tickets[i] == u;
      assert keyed[i] in multiset(sorted);
      var j :| 0 <= j < |sorted| && sorted[j] == keyed[i];
      assert Keys(sorted)[j] == QueueKey(u, now, w);
      HeadOfSorted(Keys(sorted), QueueKey(u, now, w));
    }
  }

  /** Until a rebuild, a ticket that has breached since the keys were taken is passed over for one that
      has not: the queue would serve a breached one. */
  lemma LazyPopPassesOverBreach(tickets: seq<Features>, late: Features, taken: int, now: int, w: Weights)
    requires late in tickets && Breached(late, now) && !Breached(Head(tickets, taken, w), now)
    ensures Breached(Head(tickets, now, w), now) && Head(tickets, now, w) != Head(tickets, taken, w)
  {
    assert Before(QueueKey(Head(tickets, now, w), now, w), QueueKey(late, now, w));
  }

  /** Tickets that are in by `now` and were given some time. */
  predicate InHand(tickets: seq<Features>, now: int) {
    forall i :: 0 <= i < |tickets| ==> tickets[i].createdAt <= now && tickets[i].createdAt < tickets[i].slaDueAt
  }

  const LONG: int := 10_000_000

  /** As pressing as a ticket can be, opened long ago and due at `now`. */
  function Pressing(taken: int, now: int): Features {
    Features([1], Sev4, Scored(-1.0), Premium, Band5, now - LONG * (now - taken), now)
  }

  /** As slight as a ticket can be, and due when the keys were taken. */
  function Slight(taken: int): Features { Features([2], Sev1, Scored(1.0), Standard, Band1, taken - 1, taken) }

  lemma Quotient(x: real, y: real, q: real)
    requires y > 0.0 && x == q * y
    ensures x / y == q
  {
  }

  lemma PressingUrgency(taken: int, now: int)
    requires taken < now
    ensures NormalisedUrgency(Pressing(taken, now), taken) == 0.9999999
  {
    var d := now - taken;
    var elapsed, window := taken - Pressing(taken, now).createdAt, LONG * d;
    assert elapsed == (LONG - 1) * d;
    assert elapsed as real == 0.9999999 * window as real;
    Quotient(elapsed as real, window as real, 0.9999999);
  }

  /** Its stored priority is the highest there is, whatever the weights. */
  lemma PressingIsTop(taken: int, now: int, w: Weights)
    requires taken < now && ValidWeights(w)
    ensures QueueKey(Pressing(taken, now), taken, w).priority == PRIORITY_SCALE
  {
    var f := Pressing(taken, now);
    PressingUrgency(taken, now);
    StoredScoreFits(f, taken, w);
    assert Contribution(0.9999999, w.urgency) >= w.urgency - 0.0000001;
    assert Score(f, taken, w) >= WeightSum(w) - 0.0000001;
  }

  lemma HeadOfTwo(a: Features, b: Features, now: int, w: Weights)
    requires a.id != b.id
    ensures Head([a, b], now, w) == if Before(QueueKey(a, now, w), QueueKey(b, now, w)) then a else b
  {
    var h := Head([a, b], now, w);
    KeyOrderIsTotal(QueueKey(a, now, w), QueueKey(b, now, w), QueueKey(b, now, w));
    assert h == a || h == b;
  }

  /** The pressing ticket is ahead when the keys are taken, and the slight one by `now`. */
  lemma PassedOver(taken: int, now: int, w: Weights)
    requires taken < now && ValidWeights(w)
    ensures InHand([Pressing(taken, now), Slight(taken)], taken)
    ensures Head([Pressing(taken, now), Slight(taken)], taken, w) != Head([Pressing(taken, now), Slight(taken)], now, w)
  {
    var a, b := Pressing(taken, now), Slight(taken);
    PressingIsTop(taken, now, w);
    StoredScoreFits(b, taken, w);
    HeadOfTwo(a, b, taken, w);
    LazyPopPassesOverBreach([a, b], b, taken, now, w);
  }

  /** So lazy revalidation serves the head of the queue, of every set of tickets, exactly when no time has
      passed since the keys were taken, for any weights. */
  lemma LazyPopIsCurrentExactlyAtOnce(taken: int, now: int, w: Weights)
    requires ValidWeights(w) && taken <= now
    ensures (forall tickets :: tickets != [] && InHand(tickets, taken) ==>
        Head(tickets, taken, w) == Head(tickets, now, w))
            <==> taken == now
  {
    if taken < now { PassedOver(taken, now, w); }
  }
}
