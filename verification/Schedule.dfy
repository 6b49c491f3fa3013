/** A replay as a state machine over its ticks, and what every run of it keeps. */
module Schedule {
  import opened Priority
  import opened Sequences

  datatype Params = Params(arrivals: seq<Features>, weights: Weights, agents: nat, handleMs: int, tickMs: int)

  /** Until when an agent is taken; one that never served anything is free since ever. */
  datatype Busy = Never | Until(t: int)

  datatype Service = Service(ticket: Features, startedAt: int, waitMs: int, breachedAtService: bool)

  datatype State = State(now: int, arrived: nat, waiting: multiset<Features>, busy: seq<Busy>, served: seq<Service>)

  function Serve(t: Features, now: int): Service { Service(t, now, now - t.createdAt, now > t.slaDueAt) }

  function ServedTickets(s: seq<Service>): seq<Features> { Map((x: Service) => x.ticket, s) }

  predicate Idle(b: Busy, now: int) { b.Never? || b.t <= now }

  function IdleCount(busy: seq<Busy>, now: int): (c: nat)
    ensures c <= |busy|
  {
    if busy == [] then 0 else (if Idle(busy[0], now) then 1 else 0) + IdleCount(busy[1..], now)
  }

  /** The first `k` agents idle at `now` are taken until `until`. */
  function Assign(busy: seq<Busy>, now: int, until: int, k: nat): (r: seq<Busy>)
    ensures |r| == |busy|
  {
    seq(|busy|, i requires 0 <= i < |busy| =>
      if Idle(busy[i], now) && IdleCount(busy[..i], now) < k then Until(until) else busy[i])
  }

  /** How many arrivals are in by `now`, counting on from the first `from`: the stream is read in
      its own order and stops at the first instant still to come. */
  function Admitted(arrivals: seq<Features>, from: nat, now: int): (r: nat)
    requires from <= |arrivals|
    ensures from <= r <= |arrivals|
    ensures forall i :: from <= i < r ==> arrivals[i].createdAt <= now
    ensures r < |arrivals| ==> arrivals[r].createdAt > now
    decreases |arrivals| - from
  {
    if from < |arrivals| && arrivals[from].createdAt <= now then Admitted(arrivals, from + 1, now) else from
  }

  function Init(p: Params): State
    requires p.arrivals != [] && p.tickMs > 0
  {
    State(p.arrivals[0].createdAt / p.tickMs * p.tickMs, 0, multiset{}, seq(p.agents, _ => Never), [])
  }

  function LastArrival(p: Params): int
    requires p.arrivals != []
  {
    p.arrivals[|p.arrivals| - 1].createdAt
  }

  function Horizon(p: Params): int
    requires p.arrivals != []
  {
    LastArrival(p) + p.handleMs * |p.arrivals| + p.tickMs
  }

  predicate Done(p: Params, s: State) { s.arrived >= |p.arrivals| && s.waiting == multiset{} }

  predicate Running(p: Params, s: State)
    requires p.arrivals != []
  {
    !Done(p, s) && s.now <= Horizon(p)
  }

  predicate Precedes(a: Features, b: Features, now: int, w: Weights) {
    Before(QueueKey(a, now, w), QueueKey(b, now, w))
  }

  /** `batch` is what the order serves first out of `queue` at `now`. */
  ghost predicate IsHead(batch: seq<Features>, queue: multiset<Features>, now: int, w: Weights) {
    && multiset(batch) <= queue
    && (forall i, j {:trigger Precedes(batch[i], batch[j], now, w)} ::
          0 <= i < j < |batch| ==> Precedes(batch[i], batch[j], now, w))
    && (forall i, t {:trigger Precedes(batch[i], t, now, w)} ::
          0 <= i < |batch| && t in queue - multiset(batch) ==> Precedes(batch[i], t, now, w))
  }

  function Min(a: nat, b: nat): nat { if a < b then a else b }

  /** The queue a tick serves from: who was waiting and who has just come in. */
  function QueueAt(p: Params, s: State): multiset<Features>
    requires s.arrived <= |p.arrivals|
  {
    s.waiting + multiset(p.arrivals[s.arrived..Admitted(p.arrivals, s.arrived, s.now)])
  }

  function BatchSize(p: Params, s: State): nat
    requires s.arrived <= |p.arrivals|
  {
    Min(IdleCount(s.busy, s.now), |QueueAt(p, s)|)
  }

  /** The head of the order, as long as there are idle agents for it. */
  ghost predicate IsBatch(p: Params, s: State, batch: seq<Features>) {
    && s.arrived <= |p.arrivals|
    && |batch| == BatchSize(p, s)
    && IsHead(batch, QueueAt(p, s), s.now, p.weights)
  }

  function Served(batch: seq<Features>, now: int): seq<Service> { Map((t: Features) => Serve(t, now), batch) }

  function After(p: Params, s: State, batch: seq<Features>): State
    requires s.arrived <= |p.arrivals|
  {
    State(
      s.now + p.tickMs,
      Admitted(p.arrivals, s.arrived, s.now),
      QueueAt(p, s) - multiset(batch),
      Assign(s.busy, s.now, s.now + p.handleMs, |batch|),
      s.served + Served(batch, s.now))
  }

  /** One pass of the loop: admit, then give the head of the order to the agents that are idle. */
  ghost predicate Tick(p: Params, s: State, s': State) {
    exists batch :: IsBatch(p, s, batch) && s' == After(p, s, batch)
  }

  ghost predicate IsRun(p: Params, run: seq<State>) {
    && p.arrivals != [] && p.tickMs > 0
    && run != [] && run[0] == Init(p)
    && (forall i :: 0 <= i < |run| - 1 ==> Running(p, run[i]) && Tick(p, run[i], run[i + 1]))
  }

  ghost predicate IsCompleteRun(p: Params, run: seq<State>) {
    IsRun(p, run) && !Running(p, run[|run| - 1])
  }

  // ----- counting agents and services -----

  function BusyAfter(busy: seq<Busy>, x: int): (c: nat)
    ensures c <= |busy|
  {
    if busy == [] then 0 else (if Idle(busy[0], x) then 0 else 1) + BusyAfter(busy[1..], x)
  }

  /** Services begun by `x` and still held at `x`. */
  function Overlap(served: seq<Service>, handleMs: int, x: int): nat {
    if served == [] then 0
    else Overlap(served[..|served| - 1], handleMs, x) +
         var b := served[|served| - 1].startedAt; if b <= x < b + handleMs then 1 else 0
  }

  lemma {:induction false} IdleSplits(b: seq<Busy>, c: seq<Busy>, now: int)
    ensures IdleCount(b + c, now) == IdleCount(b, now) + IdleCount(c, now)
  {
    if b == [] {
      assert b + c == c;
    } else {
      assert (b + c)[1..] == b[1..] + c;
      IdleSplits(b[1..], c, now);
    }
  }

  lemma IdleNext(b: seq<Busy>, a: nat, now: int)
    requires a < |b|
    ensures b[..a + 1] == b[..a] + [b[a]]
    ensures IdleCount(b[..a + 1], now) == IdleCount(b[..a], now) + (if Idle(b[a], now) then 1 else 0)
    ensures IdleCount(b, now) >= IdleCount(b[..a + 1], now)
  {
    assert b[..a + 1] == b[..a] + [b[a]];
    IdleSplits(b[..a], [b[a]], now);
    assert b == b[..a + 1] + b[a + 1..];
    IdleSplits(b[..a + 1], b[a + 1..], now);
  }

  lemma AssignSplits(b: seq<Busy>, c: seq<Busy>, now: int, until: int, k: nat)
    requires k <= IdleCount(b, now)
    ensures Assign(b + c, now, until, k) == Assign(b, now, until, k) + c
  {
    var l, r := Assign(b + c, now, until, k), Assign(b, now, until, k) + c;
    forall i | 0 <= i < |b + c| ensures l[i] == r[i] {
      if i < |b| {
        assert (b + c)[..i] == b[..i];
      } else {
        assert (b + c)[..i] == b + c[..i - |b|];
        IdleSplits(b, c[..i - |b|], now);
      }
    }
  }

  lemma AssignNext(b: seq<Busy>, x: Busy, now: int, until: int)
    requires Idle(x, now)
    ensures Assign(b + [x], now, until, IdleCount(b, now) + 1)
        == Assign(b, now, until, IdleCount(b, now)) + [Until(until)]
  {
    var k := IdleCount(b, now);
    var l, r := Assign(b + [x], now, until, k + 1), Assign(b, now, until, k) + [Until(until)];
    forall i | 0 <= i < |b| + 1 ensures l[i] == r[i] {
      assert (b + [x])[..i] == b[..i];
      if i < |b| { IdleNext(b, i, now); } else { assert b[..i] == b; }
    }
  }

  lemma {:induction false} BusySplits(b: seq<Busy>, c: seq<Busy>, x: int)
    ensures BusyAfter(b + c, x) == BusyAfter(b, x) + BusyAfter(c, x)
  {
    if b == [] {
      assert b + c == c;
    } else {
      assert (b + c)[1..] == b[1..] + c;
      BusySplits(b[1..], c, x);
    }
  }

  lemma {:induction false} AssignCounts(busy: seq<Busy>, now: int, until: int, k: nat, x: int)
    requires k <= IdleCount(busy, now) && now <= x
    ensures BusyAfter(Assign(busy, now, until, k), x) == BusyAfter(busy, x) + (if until > x then k else 0)
  {
    if busy == [] {
      assert Assign(busy, now, until, k) == [];
    } else {
      var n := |busy| - 1;
      var b, y := busy[..n], busy[n];
      assert busy == b + [y];
      IdleSplits(b, [y], now);
      BusySplits(b, [y], x);
      if k <= IdleCount(b, now) {
        AssignSplits(b, [y], now, until, k);
        AssignCounts(b, now, until, k, x);
        BusySplits(Assign(b, now, until, k), [y], x);
      } else {
        AssignNext(b, y, now, until);
        AssignCounts(b, now, until, k - 1, x);
        BusySplits(Assign(b, now, until, k - 1), [Until(until)], x);
      }
    }
  }

  lemma {:induction false} OverlapGrows(served: seq<Service>, batch: seq<Features>, handleMs: int, now: int, x: int)
    ensures Overlap(served + Served(batch, now), handleMs, x) ==
            Overlap(served, handleMs, x) + (if now <= x < now + handleMs then |batch| else 0)
    decreases |batch|
  {
    var more := Served(batch, now);
    if batch == [] {
      assert served + more == served;
    } else {
      var n := |batch| - 1;
      OverlapGrows(served, batch[..n], handleMs, now, x);
      var all := served + more;
      assert all[..|all| - 1] == served + Served(batch[..n], now);
    }
  }

  // ----- what every tick keeps -----

  ghost predicate Conserved(p: Params, s: State) {
    && s.arrived <= |p.arrivals| && |s.busy| == p.agents
    && multiset(ServedTickets(s.served)) + s.waiting + multiset(p.arrivals[s.arrived..]) == multiset(p.arrivals)
  }

  ghost predicate InOrder(served: seq<Service>, latest: int) {
    && (forall j :: 0 <= j < |served| ==> served[j] == Serve(served[j].ticket, served[j].startedAt))
    && (forall j :: 0 <= j < |served| ==> served[j].ticket.createdAt <= served[j].startedAt <= latest)
    && (forall i, j :: 0 <= i < j < |served| ==> served[i].startedAt <= served[j].startedAt)
  }

  /** Everything begun lies before the tick to come, in order, and after the ticket came in. */
  ghost predicate Timely(p: Params, s: State) {
    && (forall t :: t in s.waiting ==> t.createdAt <= s.now - p.tickMs)
    && InOrder(s.served, s.now - p.tickMs)
  }

  /** Never more services at one instant than agents. */
  ghost predicate WithinCapacity(p: Params, s: State) {
    && (forall x :: s.now - p.tickMs <= x ==> Overlap(s.served, p.handleMs, x) <= BusyAfter(s.busy, x))
    && (forall x :: Overlap(s.served, p.handleMs, x) <= p.agents)
  }

  /** No one waits while an agent could serve. */
  ghost predicate WorkConserving(p: Params, s: State) {
    s.waiting != multiset{} ==> forall a :: 0 <= a < |s.busy| ==> !Idle(s.busy[a], s.now - p.tickMs)
  }

  lemma ServedAppend(s: seq<Service>, batch: seq<Features>, now: int)
    ensures ServedTickets(s + Served(batch, now)) == ServedTickets(s) + batch
  {
  }

  lemma ConservedStep(p: Params, s: State, batch: seq<Features>)
    requires Conserved(p, s) && multiset(batch) <= QueueAt(p, s)
    ensures Conserved(p, After(p, s, batch))
  {
    var a := Admitted(p.arrivals, s.arrived, s.now);
    ServedAppend(s.served, batch, s.now);
    assert p.arrivals[s.arrived..] == p.arrivals[s.arrived..a] + p.arrivals[a..];
  }

  lemma QueueIsIn(p: Params, s: State)
    requires Timely(p, s) && s.arrived <= |p.arrivals| && p.tickMs > 0
    ensures forall t :: t in QueueAt(p, s) ==> t.createdAt <= s.now
  {
    var a := Admitted(p.arrivals, s.arrived, s.now);
    forall t | t in QueueAt(p, s) ensures t.createdAt <= s.now {
      if t !in s.waiting { assert t in p.arrivals[s.arrived..a]; }
    }
  }

  lemma TimelyStep(p: Params, s: State, batch: seq<Features>)
    requires Timely(p, s) && s.arrived <= |p.arrivals| && multiset(batch) <= QueueAt(p, s) && p.tickMs > 0
    ensures Timely(p, After(p, s, batch))
  {
    QueueIsIn(p, s);
    forall j | 0 <= j < |batch| ensures batch[j].createdAt <= s.now {
      assert batch[j] in multiset(batch);
    }
    InOrderGrows(s.served, batch, s.now - p.tickMs, s.now);
  }

  lemma InOrderGrows(served: seq<Service>, batch: seq<Features>, latest: int, now: int)
    requires InOrder(served, latest) && latest <= now
    requires forall j :: 0 <= j < |batch| ==> batch[j].createdAt <= now
    ensures InOrder(served + Served(batch, now), now)
  {
    var all := served + Served(batch, now);
    forall j | 0 <= j < |all|
      ensures all[j] == Serve(all[j].ticket, all[j].startedAt) && all[j].ticket.createdAt <= all[j].startedAt <= now
      ensures j >= |served| ==> all[j].startedAt == now
    {
      if j >= |served| { assert all[j] == Serve(batch[j - |served|], now); }
    }
  }

  lemma CapacityStep(p: Params, s: State, batch: seq<Features>)
    requires s.arrived <= |p.arrivals| && |s.busy| == p.agents && p.tickMs > 0
    requires WithinCapacity(p, s) && |batch| <= IdleCount(s.busy, s.now)
    ensures WithinCapacity(p, After(p, s, batch))
  {
    var t := After(p, s, batch);
    forall x ensures Overlap(t.served, p.handleMs, x) <= p.agents
      ensures s.now <= x ==> Overlap(t.served, p.handleMs, x) <= BusyAfter(t.busy, x)
    {
      OverlapGrows(s.served, batch, p.handleMs, s.now, x);
      if s.now <= x { AssignCounts(s.busy, s.now, s.now + p.handleMs, |batch|, x); }
    }
  }

  lemma AllTaken(busy: seq<Busy>, now: int, until: int, a: nat)
    requires now < until && a < |busy|
    ensures !Idle(Assign(busy, now, until, IdleCount(busy, now))[a], now)
  {
    IdleNext(busy, a, now);
  }

  lemma WorkStep(p: Params, s: State, batch: seq<Features>)
    requires s.arrived <= |p.arrivals| && p.handleMs > 0
    requires |batch| == BatchSize(p, s) && multiset(batch) <= QueueAt(p, s)
    ensures WorkConserving(p, After(p, s, batch))
  {
    var t := After(p, s, batch);
    if t.waiting != multiset{} {
      assert |t.waiting| == |QueueAt(p, s)| - |batch|;
      assert |t.waiting| > 0;
      assert |batch| == IdleCount(s.busy, s.now);
      forall a | 0 <= a < |t.busy| ensures !Idle(t.busy[a], s.now) {
        AllTaken(s.busy, s.now, s.now + p.handleMs, a);
      }
    }
  }

  ghost predicate Kept(p: Params, s: State) {
    && Conserved(p, s) && Timely(p, s) && WithinCapacity(p, s)
    && (p.handleMs > 0 ==> WorkConserving(p, s))
  }

  lemma InitKeeps(p: Params)
    requires p.arrivals != [] && p.tickMs > 0
    ensures Kept(p, Init(p))
  {
    assert p.arrivals[0..] == p.arrivals;
    assert ServedTickets([]) == [];
  }

  lemma TickKeeps(p: Params, s: State, batch: seq<Features>)
    requires p.tickMs > 0 && Kept(p, s) && IsBatch(p, s, batch)
    ensures Kept(p, After(p, s, batch))
  {
    ConservedStep(p, s, batch);
    TimelyStep(p, s, batch);
    CapacityStep(p, s, batch);
    if p.handleMs > 0 { WorkStep(p, s, batch); }
  }

  /** The batch behind one step of a run. */
  lemma BatchOf(p: Params, run: seq<State>, i: nat) returns (batch: seq<Features>)
    requires IsRun(p, run) && i + 1 < |run|
    ensures IsBatch(p, run[i], batch) && run[i + 1] == After(p, run[i], batch)
  {
    assert Tick(p, run[i], run[i + 1]);
    batch :| IsBatch(p, run[i], batch) && run[i + 1] == After(p, run[i], batch);
  }

  lemma StepKeeps(p: Params, run: seq<State>, i: nat)
    requires IsRun(p, run) && i + 1 < |run| && Kept(p, run[i])
    ensures Kept(p, run[i + 1])
  {
    var batch := BatchOf(p, run, i);
    TickKeeps(p, run[i], batch);
  }

  /** In every state a replay reaches: the served, the waiting and those yet to come are the arrivals,
      each once; services are in order of time, none before its ticket; at no instant are there more
      of them than agents; and no ticket waits past a tick that found an agent idle. */
  lemma {:induction false} EveryStateKeeps(p: Params, run: seq<State>, i: nat)
    requires IsRun(p, run) && i < |run|
    ensures Kept(p, run[i])
  {
    if i == 0 {
      InitKeeps(p);
    } else {
      EveryStateKeeps(p, run, i - 1);
      StepKeeps(p, run, i - 1);
    }
  }

  /** Whoever is picked up precedes everyone still queued at that moment, so an unbreached ticket is
      never picked up while a breached one waits. */
  lemma BreachedFirst(p: Params, s: State, batch: seq<Features>, j: nat, t: Features)
    requires IsBatch(p, s, batch) && j < |batch|
    requires t in QueueAt(p, s) - multiset(batch[..j]) && Breached(t, s.now)
    ensures Precedes(batch[j], t, s.now, p.weights)
    ensures Breached(batch[j], s.now) && Served(batch, s.now)[j].breachedAtService
  {
    assert batch == batch[..j] + batch[j..];
    assert Precedes(batch[j], t, s.now, p.weights) by {
      if t in multiset(batch[j..]) {
        var k :| 0 <= k < |batch[j..]| && batch[j..][k] == t;
        assert batch[j + k] == t;
        if k == 0 {
          KeyOrderIsTotal(QueueKey(t, s.now, p.weights), QueueKey(t, s.now, p.weights), QueueKey(t, s.now, p.weights));
        }
        else { assert Precedes(batch[j], batch[j + k], s.now, p.weights); }
      } else {
        assert t in QueueAt(p, s) - multiset(batch);
      }
    }
  }
}
