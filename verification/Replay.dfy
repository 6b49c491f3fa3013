/** The replay itself: arrivals enter the heap at their instant, agents take the head as they free
    up. Its loops carry out exactly one complete run of the tick machine. */
module Replay {
  import opened Priority
  import opened Sequences
  import opened Heap
  import opened Order
  import opened Schedule
  import opened Drain

  datatype Result =
    | NeedsAnAgent
    | Replayed(served: seq<Service>, unserved: seq<seq<nat>>, ticks: nat)

  /** What a drain popped is the head of the order over what it started with. */
  lemma DrainedIsHead(popped: seq<Entry>, left: seq<Entry>, start: seq<Entry>, now: int, w: Weights)
    requires Draining(popped, left, start, now, w) && AllFresh(start, now, w)
    ensures IsHead(Tickets(popped), multiset(Tickets(start)), now, w)
    ensures multiset(Tickets(left)) == multiset(Tickets(start)) - multiset(Tickets(popped))
  {
    var batch := Tickets(popped);
    MapPermutes((e: Entry) => e.ticket, popped + left, start);
    assert Tickets(popped + left) == batch + Tickets(left);
    RestFresh(start, popped, now, w);
    forall i | 0 <= i < |batch| ensures QueueKey(batch[i], now, w) == Keys(popped)[i] {
      assert Fresh(popped[i], now, w);
    }
    forall i, j | 0 <= i < j < |batch| ensures Precedes(batch[i], batch[j], now, w) {
      assert Before(Keys(popped)[i], Keys(popped)[j]);
    }
    forall i, t | 0 <= i < |batch| && t in multiset(Tickets(start)) - multiset(batch)
      ensures Precedes(batch[i], t, now, w)
    {
      assert t in Tickets(left);
      var j :| 0 <= j < |left| && Tickets(left)[j] == t;
      assert Fresh(left[j], now, w) && FirstAmong(popped[i].key, left);
    }
  }

  lemma AdmittedNext(s: seq<Entry>, was: seq<Entry>, t: Features, key: Key, start: multiset<Features>,
                     arrivals: seq<Features>, from: nat, a: nat)
    requires from <= a < |arrivals| && t == arrivals[a] && multiset(s) == multiset(was) + multiset{Entry(t, key)}
    requires multiset(Tickets(was)) == start + multiset(arrivals[from..a])
    ensures multiset(Tickets(s)) == start + multiset(arrivals[from..a + 1])
  {
    TicketsMinus(s, was, Entry(t, key));
    assert arrivals[from..a + 1] == arrivals[from..a] + [arrivals[a]];
  }

  method Admit(heap: QueueHeap, arrivals: seq<Features>, from: nat, now: int) returns (a: nat)
    requires from <= |arrivals| && IsHeap(heap.entries)
    modifies heap`entries
    ensures a == Admitted(arrivals, from, now) && IsHeap(heap.entries)
    ensures multiset(Tickets(heap.entries)) == multiset(Tickets(old(heap.entries))) + multiset(arrivals[from..a])
  {
    a := from;
    ghost var start := multiset(Tickets(heap.entries));
    while a < |arrivals| && arrivals[a].createdAt <= now
      invariant from <= a <= |arrivals| && IsHeap(heap.entries)
      invariant Admitted(arrivals, a, now) == Admitted(arrivals, from, now)
      invariant multiset(Tickets(heap.entries)) == start + multiset(arrivals[from..a])
    {
      ghost var was := heap.entries;
      heap.Push(arrivals[a], now);
      AdmittedNext(heap.entries, was, arrivals[a], QueueKey(arrivals[a], now, heap.weights), start, arrivals, from, a);
      a := a + 1;
    }
  }

  /** Where serving stands before agent number `agent` is looked at. */
  ghost predicate Serving(popped: seq<Entry>, left: seq<Entry>, start: seq<Entry>, busy: seq<Busy>, taken: seq<Busy>,
                          agent: nat, now: int, until: int, w: Weights) {
    forall k {:trigger Open(k)} :: Open(k) ==>
      && agent <= |taken| && AllFresh(start, now, w)
      && Draining(popped, left, start, now, w)
      && |popped| == IdleCount(taken[..agent], now) <= IdleCount(taken, now)
      && busy == Assign(taken[..agent], now, until, |popped|) + taken[agent..]
  }

  /** The next agent, found idle, is taken. */
  lemma TakeNext(busy: seq<Busy>, taken: seq<Busy>, agent: nat, now: int, until: int, k: nat)
    requires agent < |taken| && Idle(taken[agent], now) && k == IdleCount(taken[..agent], now)
    requires busy == Assign(taken[..agent], now, until, k) + taken[agent..]
    ensures IdleCount(taken[..agent + 1], now) == k + 1 <= IdleCount(taken, now)
    ensures busy[agent := Until(until)] == Assign(taken[..agent + 1], now, until, k + 1) + taken[agent + 1..]
  {
    IdleNext(taken, agent, now);
    AssignNext(taken[..agent], taken[agent], now, until);
  }

  lemma ServeNext(popped: seq<Entry>, was: seq<Entry>, rest: seq<Entry>, start: seq<Entry>, busy: seq<Busy>,
                  taken: seq<Busy>, agent: nat, now: int, until: int, w: Weights)
    requires Serving(popped, was, start, busy, taken, agent, now, until, w)
    requires agent < |taken| == |busy| && Idle(taken[agent], now) && was != [] && IsHeap(rest)
    requires multiset(was) == multiset(rest) + multiset{was[0]} && FirstAmong(QueueKey(was[0].ticket, now, w), rest)
    ensures Serving(popped + [was[0]], rest, start, busy[agent := Until(until)], taken, agent + 1, now, until, w)
  {
    assert Open(0);
    DrainStep(popped, was, rest, start, now, w);
    TakeNext(busy, taken, agent, now, until, |popped|);
  }

  lemma SkipNext(popped: seq<Entry>, left: seq<Entry>, start: seq<Entry>, busy: seq<Busy>, taken: seq<Busy>,
                 agent: nat, now: int, until: int, w: Weights)
    requires Serving(popped, left, start, busy, taken, agent, now, until, w)
    requires agent < |taken| && !Idle(taken[agent], now)
    ensures Serving(popped, left, start, busy, taken, agent + 1, now, until, w)
  {
    assert Open(0);
    IdleNext(taken, agent, now);
    AssignSplits(taken[..agent], [taken[agent]], now, until, |popped|);
  }

  lemma ServingEnds(popped: seq<Entry>, left: seq<Entry>, start: seq<Entry>, busy: seq<Busy>, taken: seq<Busy>,
                    agent: nat, now: int, until: int, k: nat, w: Weights)
    requires Serving(popped, left, start, busy, taken, agent, now, until, w)
    requires k == |popped| && (agent == |taken| || left == [])
    ensures k == Min(IdleCount(taken, now), |start|)
    ensures busy == Assign(taken, now, until, k)
  {
    assert Open(0);
    PermutedLength(popped + left, start);
    assert taken == taken[..agent] + taken[agent..];
    AssignSplits(taken[..agent], taken[agent..], now, until, |popped|);
    if agent == |taken| { assert taken[..agent] == taken; }
  }

  lemma TicketsExtend(s: seq<Entry>, e: Entry)
    ensures Tickets(s + [e]) == Tickets(s) + [e.ticket]
  {
  }

  lemma ServingStands(popped: seq<Entry>, left: seq<Entry>, start: seq<Entry>, busy: seq<Busy>, taken: seq<Busy>,
                      agent: nat, now: int, until: int, w: Weights)
    requires Serving(popped, left, start, busy, taken, agent, now, until, w) && agent < |busy| == |taken|
    ensures IsHeap(left) && AllFresh(left, now, w) && busy[agent] == taken[agent]
  {
    assert Open(0);
    assert |busy| - |taken[agent..]| == agent;
  }

  /** One agent's turn: an idle one takes the head of the heap. */
  method ServeAgent(heap: QueueHeap, ghost popped: seq<Entry>, ghost start: seq<Entry>, batch: seq<Features>,
                    busy: seq<Busy>, ghost taken: seq<Busy>, agent: nat, now: int, until: int)
    returns (more: seq<Features>, after: seq<Busy>, ghost taking: seq<Entry>)
    requires agent < |busy| == |taken| && |heap.entries| > 0 && batch == Tickets(popped)
    requires Serving(popped, heap.entries, start, busy, taken, agent, now, until, heap.weights)
    modifies heap`entries
    ensures |after| == |busy| && more == Tickets(taking)
    ensures Serving(taking, heap.entries, start, after, taken, agent + 1, now, until, heap.weights)
  {
    ServingStands(popped, heap.entries, start, busy, taken, agent, now, until, heap.weights);
    if Idle(busy[agent], now) {
      ghost var was := heap.entries;
      FreshIsCached(was, now, heap.weights);
      var next;
      ghost var rekeyed;
      next, rekeyed := heap.PopNext(now);
      ServeNext(popped, was, heap.entries, start, busy, taken, agent, now, until, heap.weights);
      TicketsExtend(popped, was[0]);
      taking := popped + [was[0]];
      more := batch + [next.ticket];
      after := busy[agent := Until(until)];
    } else {
      SkipNext(popped, heap.entries, start, busy, taken, agent, now, until, heap.weights);
      more, after, taking := batch, busy, popped;
    }
  }

  lemma ServingBegins(start: seq<Entry>, busy: seq<Busy>, now: int, until: int, w: Weights)
    requires IsHeap(start) && AllFresh(start, now, w)
    ensures Serving([], start, start, busy, busy, 0, now, until, w)
  {
    assert Open(0);
  }

  /** `batch` is the head of `queue`, as long as there are idle agents for it, and they are now taken. */
  ghost predicate Hands(queue: multiset<Features>, batch: seq<Features>, left: multiset<Features>,
                        busyUntil: seq<Busy>, busy: seq<Busy>, now: int, until: int, w: Weights) {
    forall k {:trigger Open(k)} :: Open(k) ==>
      && |batch| == Min(IdleCount(busyUntil, now), |queue|) && IsHead(batch, queue, now, w)
      && left == queue - multiset(batch) && busy == Assign(busyUntil, now, until, |batch|)
  }

  lemma AllHanded(popped: seq<Entry>, left: seq<Entry>, start: seq<Entry>, batch: seq<Features>, busy: seq<Busy>,
                  taken: seq<Busy>, agent: nat, now: int, until: int, w: Weights, queue: multiset<Features>,
                  rest: multiset<Features>)
    requires batch == Tickets(popped) && queue == multiset(Tickets(start)) && rest == multiset(Tickets(left))
    requires Serving(popped, left, start, busy, taken, agent, now, until, w)
    requires agent == |taken| || left == []
    ensures Hands(queue, batch, rest, taken, busy, now, until, w)
    ensures IsHeap(left)
  {
    assert Open(0);
    ServingEnds(popped, left, start, busy, taken, agent, now, until, |popped|, w);
    DrainedIsHead(popped, left, start, now, w);
    WaitingIsEmpty(start);
  }

  /** Agents are looked at in turn while anyone waits. */
  method ServeIdle(heap: QueueHeap, busyUntil: seq<Busy>, now: int, until: int)
    returns (batch: seq<Features>, busy: seq<Busy>, ghost popped: seq<Entry>, ghost reached: nat)
    requires IsHeap(heap.entries) && AllFresh(heap.entries, now, heap.weights)
    modifies heap`entries
    ensures batch == Tickets(popped) && (reached == |busyUntil| || heap.entries == [])
    ensures Serving(popped, heap.entries, old(heap.entries), busy, busyUntil, reached, now, until, heap.weights)
  {
    popped := [];
    busy := busyUntil;
    batch := [];
    var agent: nat := 0;
    ServingBegins(heap.entries, busy, now, until, heap.weights);
    while agent < |busyUntil| && |heap.entries| > 0
      invariant agent <= |busyUntil| == |busy| && batch == Tickets(popped)
      invariant Serving(popped, heap.entries, old(heap.entries), busy, busyUntil, agent, now, until, heap.weights)
    {
      batch, busy, popped := ServeAgent(heap, popped, old(heap.entries), batch, busy, busyUntil, agent, now, until);
      agent := agent + 1;
    }
    reached := agent;
  }

  lemma KeyedPermutes(batch: seq<Features>, left: seq<Features>, queue: seq<Features>, rest: seq<Entry>, now: int,
                      w: Weights)
    requires multiset(batch + left) == multiset(queue) && multiset(rest) == multiset(Keyed(left, now, w))
    ensures multiset(Keyed(batch, now, w) + rest) == multiset(Keyed(queue, now, w))
  {
    var key := (t: Features) => Entry(t, QueueKey(t, now, w));
    MapPermutes(key, batch + left, queue);
    MapConcat(key, batch, left);
  }

  /** The batch of a tick is the head of `orderQueue` over the queue it was taken from, id for id. */
  lemma BatchHeadsTheOrder(batch: seq<Features>, queue: seq<Features>, now: int, w: Weights)
    requires IsHead(batch, multiset(queue), now, w)
    ensures Ids(batch) <= Ids(OrderQueue(queue, now, w))
  {
    var left := Remaining(queue, batch);
    var rest := Sort(ByKey, Keyed(left, now, w));
    SortSorts(Keyed(left, now, w));
    KeyedPermutes(batch, left, queue, rest, now, w);
    HeadThenRest(batch, left, rest, now, w);
    DrainedIsTheQueue(Keyed(batch, now, w) + rest, queue, now, w);
    IdsOpen(batch, rest, now, w);
  }

  lemma IdsOpen(batch: seq<Features>, rest: seq<Entry>, now: int, w: Weights)
    ensures Ids(Tickets(Keyed(batch, now, w) + rest)) == Ids(batch) + Ids(Tickets(rest))
  {
  }

  lemma HeadThenRest(batch: seq<Features>, left: seq<Features>, rest: seq<Entry>, now: int, w: Weights)
    requires IsHead(batch, multiset(batch + left), now, w)
    requires Sorted(Keys(rest)) && multiset(rest) == multiset(Keyed(left, now, w))
    ensures Sorted(Keys(Keyed(batch, now, w) + rest))
  {
    var all := Keyed(batch, now, w) + rest;
    forall i, j | 0 <= i < j < |all| ensures Before(Keys(all)[i], Keys(all)[j]) {
      if j < |batch| {
        assert Precedes(batch[i], batch[j], now, w);
      } else if i < |batch| {
        var e := rest[j - |batch|];
        assert e in multiset(Keyed(left, now, w));
        var k :| 0 <= k < |left| && Keyed(left, now, w)[k] == e;
        assert left[k] in multiset(batch + left) - multiset(batch);
        assert Precedes(batch[i], left[k], now, w);
      } else {
        assert Before(Keys(rest)[i - |batch|], Keys(rest)[j - |batch|]);
      }
    }
  }

  lemma WaitingIsEmpty(entries: seq<Entry>)
    ensures multiset(Tickets(entries)) == multiset{} <==> |entries| == 0
    ensures |multiset(Tickets(entries))| == |entries|
  {
    assert |multiset(Tickets(entries))| == |entries|;
  }

  /** The loop's variables are the fields of the state. */
  ghost predicate Mirrors(s: State, now: int, arrived: nat, waiting: multiset<Features>, busy: seq<Busy>,
                          served: seq<Service>)
  {
    s.now == now && s.arrived == arrived && s.waiting == waiting && s.busy == busy && s.served == served
  }

  /** One tick of the state machine, as the loop's variables show it. */
  ghost predicate Ticked(p: Params, s: State, batch: seq<Features>, now: int, a: nat, left: multiset<Features>,
                         busy: seq<Busy>)
  {
    forall k {:trigger Open(k)} :: Open(k) ==>
      && IsBatch(p, s, batch)
      && Mirrors(After(p, s, batch), now + p.tickMs, a, left, busy, s.served + Served(batch, now))
  }

  lemma QueueIs(p: Params, s: State, now: int, arrived: nat, waiting: multiset<Features>, busyUntil: seq<Busy>, a: nat,
                queue: multiset<Features>)
    requires Mirrors(s, now, arrived, waiting, busyUntil, s.served) && arrived <= |p.arrivals|
    requires a == Admitted(p.arrivals, arrived, now) && queue == waiting + multiset(p.arrivals[arrived..a])
    ensures queue == QueueAt(p, s)
  {
  }

  lemma TickedTo(p: Params, s: State, now: int, arrived: nat, waiting: multiset<Features>, busyUntil: seq<Busy>,
                 batch: seq<Features>, a: nat, queue: multiset<Features>, left: multiset<Features>, busy: seq<Busy>)
    requires Mirrors(s, now, arrived, waiting, busyUntil, s.served) && arrived <= |p.arrivals|
    requires a == Admitted(p.arrivals, arrived, now) && queue == waiting + multiset(p.arrivals[arrived..a])
    requires Hands(queue, batch, left, busyUntil, busy, now, now + p.handleMs, p.weights)
    ensures Ticked(p, s, batch, now, a, left, busy)
  {
    QueueIs(p, s, now, arrived, waiting, busyUntil, a, queue);
    assert Open(0);
  }

  lemma NothingToServe(queue: multiset<Features>, batch: seq<Features>, busy: seq<Busy>, now: int, until: int,
                       w: Weights)
    requires queue == multiset{} && batch == []
    ensures Hands(queue, batch, queue, busy, busy, now, until, w)
  {
  }

  /** A sweep of the queue that is there, if any, and the service of its head. */
  method SweepAndServe(heap: QueueHeap, busyUntil: seq<Busy>, now: int, handleMs: int)
    returns (batch: seq<Features>, busy: seq<Busy>)
    requires IsHeap(heap.entries)
    modifies heap`entries
    ensures IsHeap(heap.entries)
    ensures Hands(multiset(Tickets(old(heap.entries))), batch, multiset(Tickets(heap.entries)), busyUntil, busy,
                  now, now + handleMs, heap.weights)
  {
    if |heap.entries| == 0 {
      WaitingIsEmpty(heap.entries);
      NothingToServe(multiset(Tickets(heap.entries)), [], busyUntil, now, now + handleMs, heap.weights);
      return [], busyUntil;
    }
    ghost var swaps := heap.Rebuild(now);
    ghost var start, popped, reached := heap.entries, [], 0;
    batch, busy, popped, reached := ServeIdle(heap, busyUntil, now, now + handleMs);
    AllHanded(popped, heap.entries, start, batch, busy, busyUntil, reached, now, now + handleMs, heap.weights,
              multiset(Tickets(old(heap.entries))), multiset(Tickets(heap.entries)));
  }

  /** Admit, sweep, serve. */
  method AdmitAndServe(heap: QueueHeap, busyUntil: seq<Busy>, p: Params, arrived: nat, now: int)
    returns (a: nat, batch: seq<Features>, busy: seq<Busy>, ghost queue: multiset<Features>)
    requires IsHeap(heap.entries) && heap.weights == p.weights && arrived <= |p.arrivals|
    modifies heap`entries
    ensures IsHeap(heap.entries) && a == Admitted(p.arrivals, arrived, now)
    ensures queue == multiset(Tickets(old(heap.entries))) + multiset(p.arrivals[arrived..a])
    ensures Hands(queue, batch, multiset(Tickets(heap.entries)), busyUntil, busy, now, now + p.handleMs, p.weights)
  {
    a := Admit(heap, p.arrivals, arrived, now);
    queue := multiset(Tickets(heap.entries));
    batch, busy := SweepAndServe(heap, busyUntil, now, p.handleMs);
  }

  /** The body of the loop takes the state machine one tick on. */
  method OneTick(heap: QueueHeap, busyUntil: seq<Busy>, p: Params, arrived: nat, now: int, ghost s: State)
    returns (a: nat, batch: seq<Features>, busy: seq<Busy>)
    requires IsHeap(heap.entries) && heap.weights == p.weights && arrived <= |p.arrivals|
    requires Mirrors(s, now, arrived, multiset(Tickets(heap.entries)), busyUntil, s.served)
    modifies heap`entries
    ensures IsHeap(heap.entries)
    ensures Ticked(p, s, batch, now, a, multiset(Tickets(heap.entries)), busy)
  {
    ghost var waiting := multiset(Tickets(heap.entries));
    ghost var queue;
    a, batch, busy, queue := AdmitAndServe(heap, busyUntil, p, arrived, now);
    TickedTo(p, s, now, arrived, waiting, busyUntil, batch, a, queue, multiset(Tickets(heap.entries)), busy);
  }

  /** A run so far, whose last state the loop's variables mirror. */
  ghost predicate Tracks(p: Params, run: seq<State>, now: int, arrived: nat, queue: seq<Entry>, busy: seq<Busy>,
                         served: seq<Service>)
  {
    && arrived <= |p.arrivals| && IsHeap(queue) && IsRun(p, run)
    && Mirrors(run[|run| - 1], now, arrived, multiset(Tickets(queue)), busy, served)
  }

  method Advance(heap: QueueHeap, busyUntil: seq<Busy>, p: Params, arrived: nat, now: int, ghost run: seq<State>,
                 ghost served: seq<Service>)
    returns (a: nat, batch: seq<Features>, busy: seq<Busy>, ghost further: seq<State>)
    requires heap.weights == p.weights && Tracks(p, run, now, arrived, heap.entries, busyUntil, served)
    requires Running(p, run[|run| - 1])
    modifies heap`entries
    ensures Tracks(p, further, now + p.tickMs, a, heap.entries, busy, served + Served(batch, now))
    ensures |further| == |run| + 1
  {
    ghost var s := run[|run| - 1];
    a, batch, busy := OneTick(heap, busyUntil, p, arrived, now, s);
    assert Open(0);
    TickTaken(p, run, s, batch);
    further := run + [After(p, s, batch)];
  }

  /** The loop over ticks. */
  method Drive(p: Params) returns (served: seq<Service>, left: seq<Features>, ticks: nat, ghost run: seq<State>)
    requires p.tickMs > 0 && p.agents >= 1 && p.arrivals != []
    ensures IsCompleteRun(p, run) && ticks == |run| - 1
    ensures served == run[|run| - 1].served && multiset(left) == run[|run| - 1].waiting
  {
    var heap := new QueueHeap(p.weights);
    var busyUntil: seq<Busy> := seq(p.agents, _ => Never);
    served := [];
    var arrivalIndex: nat := 0;
    ticks := 0;
    var now := p.arrivals[0].createdAt / p.tickMs * p.tickMs;
    var horizon := p.arrivals[|p.arrivals| - 1].createdAt + p.handleMs * |p.arrivals| + p.tickMs;
    run := [Init(p)];
    WaitingIsEmpty(heap.entries);
    while (arrivalIndex < |p.arrivals| || |heap.entries| > 0) && now <= horizon
      invariant Tracks(p, run, now, arrivalIndex, heap.entries, busyUntil, served) && ticks == |run| - 1
      decreases horizon - now
    {
      WaitingIsEmpty(heap.entries);
      var batch;
      arrivalIndex, batch, busyUntil, run := Advance(heap, busyUntil, p, arrivalIndex, now, run, served);
      served := served + Served(batch, now);
      ticks := ticks + 1;
      now := now + p.tickMs;
    }
    WaitingIsEmpty(heap.entries);
    left := Tickets(heap.entries);
  }

  /** With a tick of zero the first instant is no number, which no horizon is after: the loop is never
      entered, and the tickets are neither served nor reported. */
  method Replay(p: Params) returns (r: Result, ghost run: seq<State>)
    requires p.tickMs >= 0
    ensures r.NeedsAnAgent? <==> p.agents < 1
    ensures p.agents >= 1 && (p.arrivals == [] || p.tickMs == 0) ==> r == Replayed([], [], 0)
    ensures p.agents >= 1 && p.arrivals != [] && p.tickMs > 0 ==>
              IsCompleteRun(p, run) && r.ticks == |run| - 1 && r.served == run[|run| - 1].served
    ensures p.agents >= 1 && p.arrivals != [] && p.tickMs > 0 ==>
              exists left :: multiset(left) == run[|run| - 1].waiting && r.unserved == Ids(left)
    ensures Drainable(p) && p.handleMs >= 0 ==> (r.unserved == [] <==> Begin(p, |p.arrivals| - 1) <= Horizon(p))
  {
    run := [];
    if p.agents < 1 { return NeedsAnAgent, run; }
    if p.arrivals == [] || p.tickMs == 0 { return Replayed([], [], 0), run; }
    var served, left, ticks;
    served, left, ticks, run := Drive(p);
    if Drainable(p) && p.handleMs >= 0 { NobodyLeftExactlyInTime(p, run); }
    assert multiset(left) == multiset{} <==> left == [] by { assert |multiset(left)| == |left|; }
    r := Replayed(served, Ids(left), ticks);
  }

  lemma TickTaken(p: Params, run: seq<State>, s: State, batch: seq<Features>)
    requires IsRun(p, run) && run[|run| - 1] == s && Running(p, s) && IsBatch(p, s, batch)
    ensures IsRun(p, run + [After(p, s, batch)])
  {
    var more := run + [After(p, s, batch)];
    forall i | 0 <= i < |more| - 1 ensures Running(p, more[i]) && Tick(p, more[i], more[i + 1]) {
      if i < |run| - 1 { assert Tick(p, run[i], run[i + 1]); }
    }
  }
}
