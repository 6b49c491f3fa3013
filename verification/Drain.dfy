/** When each service of a replay begins, and hence exactly when the loop drains before its horizon. */
module Drain {
  import opened Priority
  import opened Sequences
  import opened Schedule

  ghost predicate SortedArrivals(arrivals: seq<Features>) {
    forall i, j :: 0 <= i < j < |arrivals| ==> arrivals[i].createdAt <= arrivals[j].createdAt
  }

  /** A stream in order, somebody to serve it and a clock that moves. */
  ghost predicate Drainable(p: Params) {
    p.arrivals != [] && p.tickMs > 0 && p.agents >= 1 && SortedArrivals(p.arrivals)
  }

  // ----- the tick grid -----

  function Multiple(q: int, tickMs: int): int { q * tickMs }

  ghost predicate OnGrid(t: int, tickMs: int) { exists q :: t == Multiple(q, tickMs) }

  /** The first instant of the tick grid at or after `t`. */
  function GridUp(t: int, tickMs: int): (r: int)
    requires tickMs > 0
  {
    Multiple((t + tickMs - 1) / tickMs, tickMs)
  }

  lemma DivisionBounds(x: int, d: int)
    requires d > 0
    ensures x / d * d <= x < x / d * d + d
  {
  }

  lemma GridUpBounds(t: int, tickMs: int)
    requires tickMs > 0
    ensures OnGrid(GridUp(t, tickMs), tickMs) && t <= GridUp(t, tickMs) < t + tickMs
  {
    DivisionBounds(t + tickMs - 1, tickMs);
  }

  lemma OrderedMultiples(q: int, r: int, d: int)
    requires d > 0 && q < r
    ensures Multiple(q, d) <= Multiple(r, d) - d
  {
    assert (r - 1 - q) * d >= 0;
    assert (r - 1 - q) * d == r * d - d - q * d;
  }

  lemma GridNext(a: int, b: int, tickMs: int)
    requires tickMs > 0 && OnGrid(a, tickMs) && OnGrid(b, tickMs) && a > b - tickMs
    ensures a >= b
  {
    var q :| a == Multiple(q, tickMs);
    var r :| b == Multiple(r, tickMs);
    if q < r { OrderedMultiples(q, r, tickMs); }
  }

  lemma GridSum(a: int, b: int, tickMs: int)
    requires OnGrid(a, tickMs) && OnGrid(b, tickMs)
    ensures OnGrid(a + b, tickMs)
  {
    var q :| a == Multiple(q, tickMs);
    var r :| b == Multiple(r, tickMs);
    assert q * tickMs + r * tickMs == (q + r) * tickMs;
    assert a + b == Multiple(q + r, tickMs);
  }

  lemma GridUnit(tickMs: int)
    ensures OnGrid(tickMs, tickMs)
  {
    assert tickMs == Multiple(1, tickMs);
  }

  /** On the grid, being at or after `t` is being at or after the first tick that is. */
  lemma GridUpIsFirst(t: int, x: int, tickMs: int)
    requires tickMs > 0 && OnGrid(x, tickMs)
    ensures t <= x <==> GridUp(t, tickMs) <= x
  {
    GridUpBounds(t, tickMs);
    if t <= x { GridNext(x, GridUp(t, tickMs), tickMs); }
  }

  // ----- when service number j begins -----

  /** What one service takes of an agent, who is looked at once a tick and on ticks only. */
  function Hold(p: Params): int
    requires p.tickMs > 0
  {
    GridUp(if p.handleMs < 1 then 1 else p.handleMs, p.tickMs)
  }

  /** The first tick that sees arrival number `j`, or the one at which the service `agents` before it
      ends, whichever comes later. */
  function Begin(p: Params, j: nat): int
    requires p.tickMs > 0 && p.agents >= 1 && j < |p.arrivals|
  {
    var seen := GridUp(p.arrivals[j].createdAt, p.tickMs);
    if j < p.agents then seen
    else
      var freed := Begin(p, j - p.agents) + Hold(p);
      if freed < seen then seen else freed
  }

  lemma {:induction false} BeginOnGrid(p: Params, j: nat)
    requires p.tickMs > 0 && p.agents >= 1 && j < |p.arrivals|
    ensures OnGrid(Begin(p, j), p.tickMs) && Begin(p, j) >= p.arrivals[j].createdAt
  {
    GridUpBounds(p.arrivals[j].createdAt, p.tickMs);
    if j >= p.agents {
      BeginOnGrid(p, j - p.agents);
      GridUpBounds(if p.handleMs < 1 then 1 else p.handleMs, p.tickMs);
      GridSum(Begin(p, j - p.agents), Hold(p), p.tickMs);
    }
  }

  // ----- the replay keeps to that timetable -----

  /** Everything that begins before the tick to come has begun, and at its time. */
  ghost predicate OnTime(p: Params, s: State)
    requires Drainable(p)
  {
    && OnGrid(s.now, p.tickMs) && s.arrived <= |p.arrivals| && |s.served| <= |p.arrivals|
    && (forall i :: 0 <= i < s.arrived ==> p.arrivals[i].createdAt <= s.now)
    && (s.arrived < |p.arrivals| ==> p.arrivals[s.arrived].createdAt > s.now - p.tickMs)
    && (forall j :: 0 <= j < |s.served| ==> s.served[j].startedAt == Begin(p, j))
    && (forall j :: |s.served| <= j < |p.arrivals| ==> Begin(p, j) >= s.now)
  }

  /** An agent is taken for every service still held, and for nothing else. */
  ghost predicate Manned(p: Params, s: State) {
    |s.busy| == p.agents && forall x :: s.now - p.tickMs <= x ==>
        Overlap(s.served, p.handleMs, x) == BusyAfter(s.busy, x)
  }

  lemma OnTimeInit(p: Params)
    requires Drainable(p)
    ensures OnTime(p, Init(p)) && Manned(p, Init(p))
  {
    var first := p.arrivals[0].createdAt;
    DivisionBounds(first, p.tickMs);
    assert Init(p).now == Multiple(first / p.tickMs, p.tickMs);
    forall j | 0 <= j < |p.arrivals| ensures Begin(p, j) >= Init(p).now { BeginOnGrid(p, j); }
    forall x ensures BusyAfter(Init(p).busy, x) == 0 { NobodyBusy(p.agents, x); }
  }

  lemma {:induction false} NobodyBusy(agents: nat, x: int)
    ensures BusyAfter(seq(agents, _ => Never), x) == 0
  {
    if agents > 0 {
      assert seq(agents, _ => Never)[1..] == seq(agents - 1, _ => Never);
      NobodyBusy(agents - 1, x);
    }
  }

  lemma {:induction false} IdleOrBusy(busy: seq<Busy>, now: int)
    ensures IdleCount(busy, now) + BusyAfter(busy, now) == |busy|
  {
    if busy != [] { IdleOrBusy(busy[1..], now); }
  }

  /** Services in order of time end in order: those still held are the latest. */
  lemma {:induction false} LatestAreHeld(served: seq<Service>, handleMs: int, now: int)
    requires forall i, j :: 0 <= i < j < |served| ==> served[i].startedAt <= served[j].startedAt
    requires forall j :: 0 <= j < |served| ==> served[j].startedAt <= now
    ensures var held := Overlap(served, handleMs, now);
      held <= |served| && forall j :: 0 <= j < |served| ==>
          (served[j].startedAt + handleMs > now <==> j >= |served| - held)
  {
    if served != [] {
      var n := |served| - 1;
      LatestAreHeld(served[..n], handleMs, now);
      if served[n].startedAt + handleMs <= now {
        forall j | 0 <= j < n
          ensures served[j].startedAt + handleMs <= now
        {
          assert served[j].startedAt <= served[n].startedAt;
        }
        if n > 0 { assert served[..n][n - 1].startedAt + handleMs <= now; }
      }
    }
  }

  /** Of a service begun at an earlier tick, the agent is free at a tick exactly a hold later. */
  lemma HeldUntil(p: Params, b: int, now: int)
    requires p.tickMs > 0 && OnGrid(b, p.tickMs) && OnGrid(now, p.tickMs) && b <= now - p.tickMs
    ensures b + p.handleMs <= now <==> b + Hold(p) <= now
  {
    var h := if p.handleMs < 1 then 1 else p.handleMs;
    GridUpBounds(h, p.tickMs);
    GridSum(b, Hold(p), p.tickMs);
    if b + p.handleMs <= now { GridNext(now, b + Hold(p), p.tickMs); }
  }

  /** How many agents a tick finds taken. */
  function Held(p: Params, s: State): nat { Overlap(s.served, p.handleMs, s.now) }

  /** By this tick the service `agents` before number `j` has ended, or there was none, exactly when an
      idle agent is left for `j`. */
  lemma FreedFor(p: Params, s: State, j: nat)
    requires Drainable(p) && OnTime(p, s) && Timely(p, s) && |s.served| <= j < |p.arrivals|
    requires Held(p, s) <= p.agents
    ensures j < p.agents || Begin(p, j - p.agents) + Hold(p) <= s.now <==> j - |s.served| < p.agents - Held(p, s)
  {
    LatestAreHeld(s.served, p.handleMs, s.now);
    if j >= p.agents {
      var i := j - p.agents;
      if i < |s.served| {
        BeginOnGrid(p, i);
        HeldUntil(p, Begin(p, i), s.now);
      } else {
        GridUpBounds(if p.handleMs < 1 then 1 else p.handleMs, p.tickMs);
      }
    }
  }

  /** The services still to begin whose turn is this tick are those that have arrived, as far as the
      idle agents go. */
  lemma BeginsNow(p: Params, s: State, j: nat)
    requires Drainable(p) && OnTime(p, s) && Timely(p, s) && |s.served| <= j < |p.arrivals|
    requires Held(p, s) <= p.agents
    ensures Begin(p, j) <= s.now <==>
            j < Admitted(p.arrivals, s.arrived, s.now) && j - |s.served| < p.agents - Held(p, s)
  {
    GridUpIsFirst(p.arrivals[j].createdAt, s.now, p.tickMs);
    assert p.arrivals[j].createdAt <= s.now <==> j < Admitted(p.arrivals, s.arrived, s.now);
    FreedFor(p, s, j);
  }

  lemma CountsAdd(p: Params, s: State)
    requires Conserved(p, s)
    ensures |s.served| + |s.waiting| == s.arrived
    ensures |QueueAt(p, s)| == Admitted(p.arrivals, s.arrived, s.now) - |s.served|
  {
    assert |multiset(ServedTickets(s.served)) + s.waiting + multiset(p.arrivals[s.arrived..])| == |p.arrivals|;
  }

  lemma BatchTakesWhoBegins(p: Params, s: State, batch: seq<Features>)
    requires Drainable(p) && Kept(p, s) && Manned(p, s) && |batch| == BatchSize(p, s)
    ensures Held(p, s) <= p.agents && |s.served| <= Admitted(p.arrivals, s.arrived, s.now)
    ensures |batch| == Min(p.agents - Held(p, s), Admitted(p.arrivals, s.arrived, s.now) - |s.served|)
  {
    CountsAdd(p, s);
    IdleOrBusy(s.busy, s.now);
  }

  lemma BeginsOrWaits(p: Params, s: State, batch: seq<Features>, j: nat)
    requires Drainable(p) && Kept(p, s) && OnTime(p, s) && Manned(p, s) && |batch| == BatchSize(p, s)
    requires |s.served| <= j < |p.arrivals|
    ensures if j < |s.served| + |batch| then Begin(p, j) == s.now else Begin(p, j) >= s.now + p.tickMs
  {
    BatchTakesWhoBegins(p, s, batch);
    BeginsNow(p, s, j);
    BeginOnGrid(p, j);
    GridUnit(p.tickMs);
    GridSum(s.now, p.tickMs, p.tickMs);
    if j >= |s.served| + |batch| { GridNext(Begin(p, j), s.now + p.tickMs, p.tickMs); }
  }

  lemma OnTimeStep(p: Params, s: State, batch: seq<Features>)
    requires Drainable(p) && Kept(p, s) && OnTime(p, s) && Manned(p, s) && |batch| == BatchSize(p, s)
    ensures OnTime(p, After(p, s, batch))
  {
    var t := After(p, s, batch);
    BatchTakesWhoBegins(p, s, batch);
    CountsAdd(p, s);
    GridUnit(p.tickMs);
    GridSum(s.now, p.tickMs, p.tickMs);
    forall j | |s.served| <= j < |p.arrivals|
      ensures if j < |s.served| + |batch| then Begin(p, j) == s.now else Begin(p, j) >= t.now
    {
      BeginsOrWaits(p, s, batch, j);
    }
  }

  lemma MannedStep(p: Params, s: State, batch: seq<Features>)
    requires p.tickMs > 0 && s.arrived <= |p.arrivals| && Manned(p, s) && |batch| <= IdleCount(s.busy, s.now)
    ensures Manned(p, After(p, s, batch))
  {
    var t := After(p, s, batch);
    forall x | s.now <= x ensures Overlap(t.served, p.handleMs, x) == BusyAfter(t.busy, x) {
      MannedAt(p, s, batch, x);
    }
  }

  lemma MannedAt(p: Params, s: State, batch: seq<Features>, x: int)
    requires |batch| <= IdleCount(s.busy, s.now) && s.now <= x
    requires Overlap(s.served, p.handleMs, x) == BusyAfter(s.busy, x)
    ensures Overlap(s.served + Served(batch, s.now), p.handleMs, x)
         == BusyAfter(Assign(s.busy, s.now, s.now + p.handleMs, |batch|), x)
  {
    OverlapGrows(s.served, batch, p.handleMs, s.now, x);
    AssignCounts(s.busy, s.now, s.now + p.handleMs, |batch|, x);
  }

  /** Both, folded. */
  ghost predicate Punctual(p: Params, s: State)
    requires Drainable(p)
  {
    forall k {:trigger Open(k)} :: Open(k) ==> OnTime(p, s) && Manned(p, s)
  }

  lemma PunctualTick(p: Params, run: seq<State>, i: nat)
    requires IsRun(p, run) && i + 1 < |run| && Drainable(p) && Punctual(p, run[i])
    ensures Punctual(p, run[i + 1])
  {
    assert Open(0);
    var batch := BatchOf(p, run, i);
    EveryStateKeeps(p, run, i);
    OnTimeStep(p, run[i], batch);
    MannedStep(p, run[i], batch);
  }

  lemma {:induction false} RunIsPunctual(p: Params, run: seq<State>, i: nat)
    requires Drainable(p) && IsRun(p, run) && i < |run|
    ensures Punctual(p, run[i])
  {
    if i == 0 {
      OnTimeInit(p);
    } else {
      RunIsPunctual(p, run, i - 1);
      PunctualTick(p, run, i - 1);
    }
  }

  lemma RunIsOnTime(p: Params, run: seq<State>, i: nat)
    requires Drainable(p) && IsRun(p, run) && i < |run|
    ensures OnTime(p, run[i]) && Manned(p, run[i])
  {
    RunIsPunctual(p, run, i);
    assert Open(0);
  }

  /** Service number `j` of any replay begins when the timetable says, whoever is served in it. */
  lemma ServicesKeepTheTimetable(p: Params, run: seq<State>, i: nat, j: nat)
    requires Drainable(p) && IsRun(p, run) && i < |run| && j < |p.arrivals|
    ensures j < |run[i].served| <==> Begin(p, j) < run[i].now
    ensures j < |run[i].served| ==> run[i].served[j].startedAt == Begin(p, j)
  {
    RunIsOnTime(p, run, i);
    EveryStateKeeps(p, run, i);
  }

  // ----- draining -----

  lemma AllServed(p: Params, s: State)
    requires Conserved(p, s)
    ensures |s.served| <= |p.arrivals| && (Done(p, s) <==> |s.served| == |p.arrivals|)
    ensures Done(p, s) ==> multiset(ServedTickets(s.served)) == multiset(p.arrivals)
  {
    CountsAdd(p, s);
    if Done(p, s) { assert p.arrivals[s.arrived..] == []; }
    if |s.served| == |p.arrivals| { assert |s.waiting| == 0; }
  }

  lemma LastTickRan(p: Params, run: seq<State>)
    requires IsRun(p, run) && Done(p, run[|run| - 1])
    ensures run[|run| - 1].now - p.tickMs <= Horizon(p)
  {
    var last := |run| - 1;
    if last > 0 {
      var batch := BatchOf(p, run, last - 1);
      assert Running(p, run[last - 1]);
    }
  }

  /** For any sorted stream, any number of agents and any tick, a replay leaves nobody unserved exactly
      when the last service begins by the horizon. */
  lemma DrainsExactlyInTime(p: Params, run: seq<State>)
    requires Drainable(p) && IsCompleteRun(p, run)
    ensures Done(p, run[|run| - 1]) <==> Begin(p, |p.arrivals| - 1) <= Horizon(p)
    ensures Done(p, run[|run| - 1]) ==> multiset(ServedTickets(run[|run| - 1].served)) == multiset(p.arrivals)
  {
    var last := |run| - 1;
    EveryStateKeeps(p, run, last);
    ServicesKeepTheTimetable(p, run, last, |p.arrivals| - 1);
    AllServed(p, run[last]);
    if Done(p, run[last]) {
      LastTickRan(p, run);
      var j := |p.arrivals| - 1;
      assert run[last].served[j].startedAt <= run[last].now - p.tickMs;
    }
  }

  /** Nobody is reported unserved exactly in that case: the last arrival is in by the horizon. */
  lemma NobodyLeftExactlyInTime(p: Params, run: seq<State>)
    requires Drainable(p) && IsCompleteRun(p, run) && p.handleMs >= 0
    ensures run[|run| - 1].waiting == multiset{} <==> Begin(p, |p.arrivals| - 1) <= Horizon(p)
  {
    DrainsExactlyInTime(p, run);
    RunIsOnTime(p, run, |run| - 1);
    var s := run[|run| - 1];
    assert p.handleMs * |p.arrivals| >= 0;
    assert forall i :: 0 <= i < |p.arrivals| ==> p.arrivals[i].createdAt <= LastArrival(p);
  }

  function LastTick(p: Params): int
    requires p.arrivals != [] && p.tickMs > 0
  {
    GridUp(LastArrival(p), p.tickMs)
  }

  function Rounds(j: nat, agents: nat): nat
    requires agents >= 1
  {
    j / agents
  }

  lemma OneRoundEarlier(j: nat, agents: nat)
    requires agents >= 1
    ensures j < agents ==> Rounds(j, agents) == 0
    ensures j >= agents ==> Rounds(j - agents, agents) == Rounds(j, agents) - 1
    ensures Rounds(j, agents) <= j
  {
    if j >= agents {
      DivisionBounds(j, agents);
      DivisionBounds(j - agents, agents);
      var q, r := j / agents, (j - agents) / agents;
      if r < q - 1 { OrderedMultiples(r, q - 1, agents); }
      if r > q - 1 { OrderedMultiples(q - 1, r, agents); }
    }
  }

  lemma OneMore(q: nat, d: int)
    requires q > 0 && d >= 0
    ensures 0 <= Multiple(q - 1, d) && Multiple(q - 1, d) + d == Multiple(q, d)
  {
    Distributes(q - 1, 1, 0, d);
  }

  lemma Distributes(a: int, b: int, c: int, d: int)
    ensures (a + b + c) * d == a * d + b * d + c * d
    ensures a >= 0 && d >= 0 ==> a * d >= 0
  {
  }

  /** A tick that divides the handling time leaves the horizon room for a hold per ticket. */
  lemma RoomForEach(rounds: nat, n: nat, handleMs: int)
    requires rounds < n && handleMs > 0
    ensures Multiple(rounds, handleMs) <= handleMs * n - handleMs
  {
    Distributes(n - 1 - rounds, 1, rounds, handleMs);
  }

  lemma GridUpGrows(x: int, y: int, tickMs: int)
    requires tickMs > 0 && x <= y
    ensures GridUp(x, tickMs) <= GridUp(y, tickMs)
  {
    GridUpBounds(y, tickMs);
    GridUpIsFirst(x, GridUp(y, tickMs), tickMs);
  }

  /** One hold for every round of the agents after the tick that saw the last arrival is enough; and it
      is what it takes when all arrive at once. */
  lemma {:induction false} BeginsWithinRounds(p: Params, j: nat)
    requires Drainable(p) && j < |p.arrivals|
    ensures Begin(p, j) <= LastTick(p) + Multiple(Rounds(j, p.agents), Hold(p))
    ensures p.arrivals[0].createdAt == LastArrival(p) ==>
        Begin(p, j) == LastTick(p) + Multiple(Rounds(j, p.agents), Hold(p))
  {
    OneRoundEarlier(j, p.agents);
    GridUpGrows(p.arrivals[j].createdAt, LastArrival(p), p.tickMs);
    GridUpBounds(if p.handleMs < 1 then 1 else p.handleMs, p.tickMs);
    var q := Rounds(j, p.agents);
    if j < p.agents {
      assert Multiple(0, Hold(p)) == 0;
    } else {
      BeginsWithinRounds(p, j - p.agents);
      OneMore(q, Hold(p));
    }
  }

  /** A tick that divides the handling time always leaves that room. */
  lemma DividingTickDrains(p: Params, run: seq<State>)
    requires Drainable(p) && IsCompleteRun(p, run) && p.handleMs > 0 && OnGrid(p.handleMs, p.tickMs)
    ensures Done(p, run[|run| - 1])
  {
    var n := |p.arrivals|;
    GridUpIsFirst(p.handleMs, p.handleMs, p.tickMs);
    GridUpBounds(p.handleMs, p.tickMs);
    GridUpBounds(LastArrival(p), p.tickMs);
    BeginsWithinRounds(p, n - 1);
    OneRoundEarlier(n - 1, p.agents);
    RoomForEach(Rounds(n - 1, p.agents), n, p.handleMs);
    DrainsExactlyInTime(p, run);
  }

  /** One that does not may not: three tickets at once, one agent, a handling time of 1 and a tick of 10.
      The last service would begin at 20, the horizon is 13, and somebody is left unserved. */
  lemma CoarseTickLeavesSomebody(t: Features, w: Weights, run: seq<State>)
    requires t.createdAt == 0 && IsCompleteRun(Params([t, t, t], w, 1, 1, 10), run)
    ensures Begin(Params([t, t, t], w, 1, 1, 10), 2) == 20 && Horizon(Params([t, t, t], w, 1, 1, 10)) == 13
    ensures !Done(Params([t, t, t], w, 1, 1, 10), run[|run| - 1])
  {
    var p := Params([t, t, t], w, 1, 1, 10);
    BeginsWithinRounds(p, 2);
    DrainsExactlyInTime(p, run);
  }
}
