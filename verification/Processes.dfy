/** Several processes spending over one chain: each knows its own reservations and, when it sums the chain,
    the rows of all. Sum and check are two steps, as they are within one process. */
module Processes {
  import opened Budget

  type World = seq<State>

  /** One step of one of the processes. */
  datatype Move = Move(p: nat, step: Step)

  function Act(s: State, step: Step): State { if step.Foreign? then s else Do(s, step) }

  /** What the others learn of a move: the row it wrote, if any. */
  function Hear(s: State, cost: int): State { if cost > 0 then Do(s, Foreign(cost)) else s }

  function Apply(w: World, m: Move): (v: World)
    ensures |v| == |w|
  {
    if m.p < |w| then
      var t := Act(w[m.p], m.step);
      seq(|w|, q requires 0 <= q < |w| => if q == m.p then t else Hear(w[q], t.recorded - w[m.p].recorded))
    else w
  }

  function Reached(cut: nat, processes: nat, moves: seq<Move>): (w: World)
    ensures |w| == processes
  {
    if moves == [] then seq(processes, _ => Start(cut))
    else Apply(Reached(cut, processes, moves[..|moves| - 1]), moves[|moves| - 1])
  }

  function Open(s: State): nat { Total(Pending, s.calls) }

  function Outstanding(w: World): nat {
    if w == [] then 0 else Outstanding(w[..|w| - 1]) + Open(w[|w| - 1])
  }

  /** What the chain carries and what may yet be added to it, by anyone. */
  function Committed(w: World): nat
    requires w != []
  {
    w[0].recorded + Outstanding(w)
  }

  // ----- what one process may do -----

  ghost predicate Sound(s: State, cut: nat) { Balanced(s) && s.cut == cut }

  lemma ActKeepsSound(s: State, step: Step, cut: nat)
    requires Sound(s, cut)
    ensures Sound(Act(s, step), cut) && s.recorded <= Act(s, step).recorded
    ensures !step.Land? && !step.LandUnheard? ==> Act(s, step).recorded == s.recorded
  {
    if !step.Foreign? { StepKeepsBalanced(s, step); }
  }

  /** The sum a check goes by saw everything that has settled since. */
  ghost predicate Current(s: State, i: nat) {
    i < |s.calls| && s.calls[i].stage.Summed? ==> Settled(s) <= s.calls[i].stage.mark
  }

  lemma CheckedWithinCut(s: State, i: nat)
    requires Balanced(s) && Current(s, i)
    ensures var t := Do(s, Check(i)); t.recorded == s.recorded && (t.recorded + Open(t) <= s.cut || Open(t) == Open(s))
  {
    if i < |s.calls| {
      Moves(s.calls, i, Do(s, Check(i)).calls[i]);
      assert Bounded(s.calls[i]);
      TotalsCompare(s.calls);
    }
  }

  lemma CallOnlyReturns(s: State, i: nat, step: Step)
    requires Balanced(s) && i < |s.calls| && !step.Check?
    ensures DoCall(s, i, step).recorded + Open(DoCall(s, i, step)) <= s.recorded + Open(s)
  {
    OtherMovesAreEven(s, i, step);
    TotalUpdate(Pending, s.calls, i, DoCall(s, i, step).calls[i]);
  }

  lemma OthersOnlyReturn(s: State, step: Step)
    requires Balanced(s) && !step.Check?
    ensures Act(s, step).recorded + Open(Act(s, step)) <= s.recorded + Open(s)
  {
    if step.Ask? {
      TotalAppend(Pending, s.calls, Call(step.projection, Asked));
    } else if !step.Foreign? && step.i < |s.calls| {
      CallOnlyReturns(s, step.i, step);
    }
  }

  lemma HearingIsSound(s: State, cost: int, cut: nat)
    requires Sound(s, cut) && cost >= 0
    ensures Sound(Hear(s, cost), cut) && Hear(s, cost).calls == s.calls && Hear(s, cost).recorded == s.recorded + cost
  {
  }

  // ----- and all of them together -----

  ghost predicate SharedChain(w: World, cut: nat) {
    forall p :: 0 <= p < |w| ==> Sound(w[p], cut) && w[p].recorded == w[0].recorded
  }

  /** No process has more than `most` out. */
  ghost predicate EachWithin(w: World, most: nat) { forall p :: 0 <= p < |w| ==> Open(w[p]) <= most }

  lemma {:induction false} OneChanges(w: World, v: World, p: nat)
    requires |v| == |w| && p < |w| && forall q :: 0 <= q < |w| && q != p ==> Open(v[q]) == Open(w[q])
    ensures Outstanding(v) + Open(w[p]) == Outstanding(w) + Open(v[p])
  {
    var n := |w| - 1;
    if p == n { SameOutstanding(w[..n], v[..n]); } else { OneChanges(w[..n], v[..n], p); }
  }

  lemma {:induction false} SameOutstanding(w: World, v: World)
    requires |v| == |w| && forall q :: 0 <= q < |w| ==> Open(v[q]) == Open(w[q])
    ensures Outstanding(v) == Outstanding(w)
  {
    if w != [] { SameOutstanding(w[..|w| - 1], v[..|w| - 1]); }
  }

  function Times(n: nat, most: nat): nat { n * most }

  lemma OneMore(n: nat, most: nat)
    requires n > 0
    ensures Times(n, most) == Times(n - 1, most) + most
  {
  }

  lemma {:induction false} AllWithin(w: World, most: nat)
    requires EachWithin(w, most)
    ensures Outstanding(w) <= Times(|w|, most)
  {
    if w != [] {
      OneMore(|w|, most);
      AllWithin(w[..|w| - 1], most);
    }
  }

  lemma {:induction false} OthersWithin(w: World, p: nat, most: nat)
    requires EachWithin(w, most) && p < |w|
    ensures Outstanding(w) <= Open(w[p]) + Times(|w| - 1, most)
  {
    var n := |w| - 1;
    if p == n {
      AllWithin(w[..n], most);
    } else {
      OneMore(n, most);
      OthersWithin(w[..n], p, most);
    }
  }

  lemma MoveKeepsChain(w: World, m: Move, cut: nat)
    requires SharedChain(w, cut) && m.p < |w|
    ensures SharedChain(Apply(w, m), cut) && Apply(w, m)[m.p] == Act(w[m.p], m.step)
    ensures forall q :: 0 <= q < |w| && q != m.p ==> Apply(w, m)[q].calls == w[q].calls
  {
    var t := Act(w[m.p], m.step);
    ActKeepsSound(w[m.p], m.step, cut);
    forall q | 0 <= q < |w| && q != m.p
      ensures Sound(Apply(w, m)[q], cut) && Apply(w, m)[q].calls == w[q].calls && Apply(w, m)[q].recorded == t.recorded
    {
      HearingIsSound(w[q], t.recorded - w[m.p].recorded, cut);
    }
  }

  lemma {:induction false} RunSharesChain(cut: nat, processes: nat, moves: seq<Move>)
    ensures SharedChain(Reached(cut, processes, moves), cut)
  {
    if moves != [] {
      var w, m := Reached(cut, processes, moves[..|moves| - 1]), moves[|moves| - 1];
      RunSharesChain(cut, processes, moves[..|moves| - 1]);
      if m.p < |w| { MoveKeepsChain(w, m, cut); }
    }
  }

  lemma {:induction false} NothingYet(cut: nat, processes: nat)
    ensures Outstanding(seq(processes, _ => Start(cut))) == 0
  {
    if processes > 0 {
      assert seq(processes, _ => Start(cut))[..processes - 1] == seq(processes - 1, _ => Start(cut));
      NothingYet(cut, processes - 1);
    }
  }

  // ----- sum and check under one lock -----

  /** Money settles, as process `p` sees it: its own reservation is released, or another's row lands. */
  predicate Settles(m: Move, p: nat) { if m.p == p then m.step.Release? else m.step.Land? || m.step.LandUnheard? }

  /** Something settled after call `i` of process `p` summed the chain. */
  ghost predicate OutOfDate(moves: seq<Move>, p: nat, i: nat) {
    exists a, b :: 0 <= a < b < |moves| && moves[a] == Move(p, Sum(i)) && Settles(moves[b], p)
  }

  /** Sum and check of one call under one lock, which releases and the rows of all processes take too. */
  ghost predicate Locked(moves: seq<Move>) {
    forall c :: 0 <= c < |moves| && moves[c].step.Check? ==> !OutOfDate(moves[..c], moves[c].p, moves[c].step.i)
  }

  /** Whoever has summed the chain did so in this run, and saw all that has settled unless out of date. */
  ghost predicate Marked(s: State, moves: seq<Move>, p: nat) {
    forall i :: 0 <= i < |s.calls| && s.calls[i].stage.Summed? ==>
      Move(p, Sum(i)) in moves && (OutOfDate(moves, p, i) || Settled(s) <= s.calls[i].stage.mark)
  }

  lemma OutOfDateGrows(moves: seq<Move>, m: Move, p: nat, i: nat)
    ensures OutOfDate(moves, p, i) || (Move(p, Sum(i)) in moves && Settles(m, p)) ==> OutOfDate(moves + [m], p, i)
  {
    var more := moves + [m];
    if OutOfDate(moves, p, i) {
      var a, b :| 0 <= a < b < |moves| && moves[a] == Move(p, Sum(i)) && Settles(moves[b], p);
      assert more[a] == Move(p, Sum(i)) && Settles(more[b], p);
    } else if Move(p, Sum(i)) in moves && Settles(m, p) {
      var a :| 0 <= a < |moves| && moves[a] == Move(p, Sum(i));
      assert more[a] == Move(p, Sum(i)) && Settles(more[|moves|], p);
    }
  }

  lemma ActIsMarked(s: State, moves: seq<Move>, p: nat, step: Step)
    requires Marked(s, moves, p)
    ensures Marked(Act(s, step), moves + [Move(p, step)], p)
  {
    var t, more := Act(s, step), moves + [Move(p, step)];
    if !step.Foreign? && !step.Release? { SettlesOnlyOnRelease(s, step); }
    forall i | 0 <= i < |t.calls| && t.calls[i].stage.Summed?
      ensures Move(p, Sum(i)) in more && (OutOfDate(more, p, i) || Settled(t) <= t.calls[i].stage.mark)
    {
      OutOfDateGrows(moves, Move(p, step), p, i);
      assert more[|moves|] == Move(p, step);
    }
  }

  lemma HearingIsMarked(s: State, moves: seq<Move>, p: nat, m: Move, cost: int)
    requires Marked(s, moves, p) && m.p != p && (cost > 0 ==> Settles(m, p))
    ensures Marked(Hear(s, cost), moves + [m], p)
  {
    var t := Hear(s, cost);
    forall i | 0 <= i < |t.calls| && t.calls[i].stage.Summed?
      ensures Move(p, Sum(i)) in moves + [m] && (OutOfDate(moves + [m], p, i) || Settled(t) <= t.calls[i].stage.mark)
    {
      OutOfDateGrows(moves, m, p, i);
    }
  }

  lemma MoveIsMarked(w: World, moves: seq<Move>, m: Move, cut: nat)
    requires SharedChain(w, cut) && forall p :: 0 <= p < |w| ==> Marked(w[p], moves, p)
    ensures forall p :: 0 <= p < |w| ==> Marked(Apply(w, m)[p], moves + [m], p)
  {
    forall p | 0 <= p < |w| ensures Marked(Apply(w, m)[p], moves + [m], p) {
      if m.p >= |w| {
        HearingIsMarked(w[p], moves, p, m, 0);
      } else {
        ActKeepsSound(w[m.p], m.step, cut);
        if p == m.p { ActIsMarked(w[p], moves, p, m.step); }
        else { HearingIsMarked(w[p], moves, p, m, Act(w[m.p], m.step).recorded - w[m.p].recorded); }
      }
    }
  }

  lemma {:induction false} RunIsMarked(cut: nat, processes: nat, moves: seq<Move>)
    ensures forall p :: 0 <= p < processes ==> Marked(Reached(cut, processes, moves)[p], moves, p)
  {
    if moves != [] {
      var n := |moves| - 1;
      RunIsMarked(cut, processes, moves[..n]);
      RunSharesChain(cut, processes, moves[..n]);
      MoveIsMarked(Reached(cut, processes, moves[..n]), moves[..n], moves[n], cut);
      assert moves == moves[..n] + [moves[n]];
    }
  }

  lemma LockedBefore(moves: seq<Move>, n: nat)
    requires Locked(moves) && n <= |moves|
    ensures Locked(moves[..n])
  {
    forall c | 0 <= c < n && moves[..n][c].step.Check?
      ensures !OutOfDate(moves[..n][..c], moves[..n][c].p, moves[..n][c].step.i)
    {
      assert moves[..n][..c] == moves[..c];
    }
  }

  /** Under the lock no check goes by an old sum. */
  lemma LockedMoveIsCurrent(cut: nat, processes: nat, moves: seq<Move>)
    requires Locked(moves) && moves != []
    ensures var m := moves[|moves| - 1];
      m.p < processes && m.step.Check? ==> Current(Reached(cut, processes, moves[..|moves| - 1])[m.p], m.step.i)
  {
    RunIsMarked(cut, processes, moves[..|moves| - 1]);
  }

  /** What one process can have out under the lock: no more than the cut. */
  lemma {:induction false} OpenWithinCut(cut: nat, processes: nat, moves: seq<Move>)
    requires Locked(moves)
    ensures EachWithin(Reached(cut, processes, moves), cut)
  {
    if moves != [] {
      var n := |moves| - 1;
      var w, m := Reached(cut, processes, moves[..n]), moves[n];
      LockedBefore(moves, n);
      OpenWithinCut(cut, processes, moves[..n]);
      RunSharesChain(cut, processes, moves[..n]);
      LockedMoveIsCurrent(cut, processes, moves);
      if m.p < |w| {
        MoveKeepsChain(w, m, cut);
        ActKeepsSound(w[m.p], m.step, cut);
        if m.step.Check? { CheckedWithinCut(w[m.p], m.step.i); } else { OthersOnlyReturn(w[m.p], m.step); }
      }
    }
  }

  lemma MoveKeepsBound(w: World, m: Move, cut: nat, most: nat)
    requires w != [] && SharedChain(w, cut) && Committed(w) <= cut + Times(|w| - 1, most)
    requires m.p < |w| && m.step.Check? ==> Current(w[m.p], m.step.i)
    requires EachWithin(Apply(w, m), most)
    ensures Committed(Apply(w, m)) <= cut + Times(|w| - 1, most)
  {
    if m.p < |w| {
      var v := Apply(w, m);
      MoveKeepsChain(w, m, cut);
      OneChanges(w, v, m.p);
      OthersWithin(v, m.p, most);
      if m.step.Check? { CheckedWithinCut(w[m.p], m.step.i); } else { OthersOnlyReturn(w[m.p], m.step); }
    }
  }

  /** At no moment does a process have more than `most` out. */
  ghost predicate AlwaysWithin(cut: nat, processes: nat, moves: seq<Move>, most: nat) {
    forall k :: 0 <= k <= |moves| ==> EachWithin(Reached(cut, processes, moves[..k]), most)
  }

  lemma AlwaysWithinBefore(cut: nat, processes: nat, moves: seq<Move>, most: nat, n: nat)
    requires AlwaysWithin(cut, processes, moves, most) && n <= |moves|
    ensures AlwaysWithin(cut, processes, moves[..n], most) && EachWithin(Reached(cut, processes, moves), most)
  {
    forall k | 0 <= k <= n ensures EachWithin(Reached(cut, processes, moves[..n][..k]), most) {
      assert moves[..n][..k] == moves[..k];
    }
    assert moves[..|moves|] == moves;
  }

  /** Whatever a process can have out at one time, under the lock the cut is passed by no more than that for
      each of the other processes. */
  lemma {:induction false} OvershootIsWhatOthersHaveOut(cut: nat, processes: nat, moves: seq<Move>, most: nat)
    requires processes > 0 && Locked(moves) && AlwaysWithin(cut, processes, moves, most)
    ensures Committed(Reached(cut, processes, moves)) <= cut + Times(processes - 1, most)
  {
    if moves == [] {
      NothingYet(cut, processes);
    } else {
      var n := |moves| - 1;
      LockedBefore(moves, n);
      AlwaysWithinBefore(cut, processes, moves, most, n);
      OvershootIsWhatOthersHaveOut(cut, processes, moves[..n], most);
      RunSharesChain(cut, processes, moves[..n]);
      LockedMoveIsCurrent(cut, processes, moves);
      MoveKeepsBound(Reached(cut, processes, moves[..n]), moves[n], cut, most);
    }
  }

  /** In all, under the lock, each process can take the whole cut once. */
  lemma CommittedWithinCutEach(cut: nat, processes: nat, moves: seq<Move>)
    requires processes > 0 && Locked(moves)
    ensures Committed(Reached(cut, processes, moves)) <= Times(processes, cut)
  {
    forall k | 0 <= k <= |moves| ensures EachWithin(Reached(cut, processes, moves[..k]), cut) {
      LockedBefore(moves, k);
      OpenWithinCut(cut, processes, moves[..k]);
    }
    OvershootIsWhatOthersHaveOut(cut, processes, moves, cut);
    OneMore(processes, cut);
  }

  // ----- with few calls out -----

  function Out(c: Call): nat {
    match c.stage
    case Away | Answered(_) | Kept => 1
    case _ => 0
  }

  predicate NoneAbove(projections: seq<nat>, largest: nat) {
    forall i :: 0 <= i < |projections| ==> projections[i] <= largest
  }

  /** At most `out` calls out, none projected above `largest`. */
  ghost predicate Modest(s: State, out: nat, largest: nat) {
    Total(Out, s.calls) <= out && NoneAbove(ProjectionsOf(s.calls), largest)
  }

  predicate AsksWithin(moves: seq<Move>, largest: nat) {
    forall k :: 0 <= k < |moves| && moves[k].step.Ask? ==> moves[k].step.projection <= largest
  }

  /** A process lets a call past its check only with fewer than `out` calls out. */
  ghost predicate AllRestrained(cut: nat, processes: nat, moves: seq<Move>, out: nat) {
    forall k :: 0 <= k < |moves| && moves[k].p < processes && moves[k].step.Check? ==>
      Total(Out, Reached(cut, processes, moves[..k])[moves[k].p].calls) < out
  }

  lemma RestrainedBefore(cut: nat, processes: nat, moves: seq<Move>, out: nat, n: nat)
    requires AllRestrained(cut, processes, moves, out) && n <= |moves|
    ensures AllRestrained(cut, processes, moves[..n], out)
  {
    forall k | 0 <= k < n && moves[..n][k].p < processes && moves[..n][k].step.Check?
      ensures Total(Out, Reached(cut, processes, moves[..n][..k])[moves[..n][k].p].calls) < out
    {
      assert moves[..n][..k] == moves[..k];
    }
  }

  lemma {:induction false} OpenIsModest(calls: seq<Call>, largest: nat)
    requires NoneAbove(ProjectionsOf(calls), largest)
    ensures Total(Pending, calls) <= Times(Total(Out, calls), largest)
  {
    if calls != [] {
      var n := |calls| - 1;
      assert calls[n].projection == ProjectionsOf(calls)[n];
      assert ProjectionsOf(calls[..n]) == ProjectionsOf(calls)[..n];
      OpenIsModest(calls[..n], largest);
      if Out(calls[n]) == 1 { OneMore(Total(Out, calls), largest); }
    }
  }

  lemma TimesGrows(a: nat, b: nat, most: nat)
    requires a <= b
    ensures Times(a, most) <= Times(b, most)
  {
    assert (b - a) * most >= 0;
  }

  lemma CallOut(s: State, i: nat, step: Step)
    requires i < |s.calls|
    ensures Total(Out, DoCall(s, i, step).calls) <= Total(Out, s.calls) + if step.Check? then 1 else 0
  {
    AdmissionsFit(s, i, step);
    TotalUpdate(Out, s.calls, i, DoCall(s, i, step).calls[i]);
  }

  lemma ActIsModest(s: State, step: Step, out: nat, largest: nat)
    requires Modest(s, out, largest)
    requires step.Check? ==> Total(Out, s.calls) < out
    requires step.Ask? ==> step.projection <= largest
    ensures Modest(Act(s, step), out, largest)
  {
    AskStep(s, step);
    if step.Ask? {
      TotalAppend(Out, s.calls, Call(step.projection, Asked));
    } else if !step.Foreign? && step.i < |s.calls| {
      CallOut(s, step.i, step);
    }
  }

  lemma {:induction false} RunIsModest(cut: nat, processes: nat, moves: seq<Move>, out: nat, largest: nat)
    requires AllRestrained(cut, processes, moves, out) && AsksWithin(moves, largest)
    ensures forall p :: 0 <= p < processes ==> Modest(Reached(cut, processes, moves)[p], out, largest)
  {
    if moves != [] {
      var n := |moves| - 1;
      var w, m := Reached(cut, processes, moves[..n]), moves[n];
      RestrainedBefore(cut, processes, moves, out, n);
      RunIsModest(cut, processes, moves[..n], out, largest);
      RunSharesChain(cut, processes, moves[..n]);
      if m.p < |w| {
        MoveKeepsChain(w, m, cut);
        ActIsModest(w[m.p], m.step, out, largest);
      }
    }
  }

  lemma ModestIsWithin(w: World, out: nat, largest: nat)
    requires forall p :: 0 <= p < |w| ==> Modest(w[p], out, largest)
    ensures EachWithin(w, Times(out, largest))
  {
    forall p | 0 <= p < |w| ensures Open(w[p]) <= Times(out, largest) {
      OpenIsModest(w[p].calls, largest);
      TimesGrows(Total(Out, w[p].calls), out, largest);
    }
  }

  /** With at most `out` calls of a process out at a time, and under the lock, the cut is passed by no more
      than `out` times the largest projection for each of the other processes: as published when calls go
      one at a time. */
  lemma OvershootOfRestrainedProcesses(cut: nat, processes: nat, moves: seq<Move>, out: nat, largest: nat)
    requires processes > 0 && Locked(moves) && AllRestrained(cut, processes, moves, out) && AsksWithin(moves, largest)
    ensures Committed(Reached(cut, processes, moves)) <= cut + Times(processes - 1, Times(out, largest))
  {
    forall k | 0 <= k <= |moves| ensures EachWithin(Reached(cut, processes, moves[..k]), Times(out, largest)) {
      RestrainedBefore(cut, processes, moves, out, k);
      RunIsModest(cut, processes, moves[..k], out, largest);
      ModestIsWithin(Reached(cut, processes, moves[..k]), out, largest);
    }
    OvershootIsWhatOthersHaveOut(cut, processes, moves, Times(out, largest));
  }

  // ----- the worst run under the lock -----

  /** A process with `j` calls of one out. */
  function Holding(cut: nat, j: nat): State { State(cut, 0, j, seq(j, _ => Call(1, Away)), 0, 0, 0) }

  /** The same with one more call, at the given stage. */
  function HoldingAnd(cut: nat, j: nat, stage: Stage): State {
    State(cut, 0, j, seq(j, _ => Call(1, Away)) + [Call(1, stage)], 0, 0, 0)
  }

  /** Processes before `p` are full, and `p` is at `s`. */
  function Filling(cut: nat, processes: nat, p: nat, s: State): World {
    seq(processes, q => if q < p then Holding(cut, cut) else if q == p then s else Start(cut))
  }

  /** One process after another takes the cut in calls of one, and nothing comes back meanwhile. */
  function Fill(cut: nat, p: nat, j: nat): seq<Move>
    decreases p, j
  {
    if j > 0 then Fill(cut, p, j - 1) + [Move(p, Ask(1))] + [Move(p, Sum(j - 1))] + [Move(p, Check(j - 1))]
    else if p > 0 then Fill(cut, p - 1, cut) else []
  }

  lemma {:induction false} HoldingTotals(cut: nat, j: nat)
    ensures Total(Covered, Holding(cut, j).calls) == 0 && Open(Holding(cut, j)) == j
  {
    if j > 0 {
      assert Holding(cut, j).calls[..j - 1] == Holding(cut, j - 1).calls;
      HoldingTotals(cut, j - 1);
    }
  }

  lemma NothingSettled(cut: nat, j: nat, stage: Stage)
    requires stage.Asked? || stage.Summed?
    ensures Settled(HoldingAnd(cut, j, stage)) == 0
  {
    HoldingTotals(cut, j);
    TotalAppend(Covered, Holding(cut, j).calls, Call(1, stage));
  }

  lemma HeldAsks(cut: nat, j: nat)
    ensures Act(Holding(cut, j), Ask(1)) == HoldingAnd(cut, j, Asked)
  {
  }

  lemma HeldSums(cut: nat, j: nat)
    ensures Act(HoldingAnd(cut, j, Asked), Sum(j)) == HoldingAnd(cut, j, Summed(0, 0))
  {
    NothingSettled(cut, j, Asked);
    var s := HoldingAnd(cut, j, Asked);
    assert s.calls[j] == Call(1, Asked);
    assert s.calls[j := Call(1, Summed(0, 0))] == HoldingAnd(cut, j, Summed(0, 0)).calls;
  }

  lemma HeldChecks(cut: nat, j: nat)
    requires j < cut
    ensures Act(HoldingAnd(cut, j, Summed(0, 0)), Check(j)) == Holding(cut, j + 1)
  {
    NothingSettled(cut, j, Summed(0, 0));
    var s := HoldingAnd(cut, j, Summed(0, 0));
    assert s.calls[j] == Call(1, Summed(0, 0));
    assert s.calls[j := Call(1, Away)] == Holding(cut, j + 1).calls;
  }

  lemma FillingMoves(cut: nat, processes: nat, p: nat, s: State, step: Step)
    requires p < processes && Act(s, step).recorded == s.recorded
    ensures Apply(Filling(cut, processes, p, s), Move(p, step)) == Filling(cut, processes, p, Act(s, step))
  {
    var w := Apply(Filling(cut, processes, p, s), Move(p, step));
    assert Filling(cut, processes, p, s)[p] == s;
    assert forall q :: 0 <= q < processes && q != p ==> w[q] == Filling(cut, processes, p, s)[q];
  }

  lemma Extends(cut: nat, processes: nat, moves: seq<Move>, m: Move)
    ensures Reached(cut, processes, moves + [m]) == Apply(Reached(cut, processes, moves), m)
  {
    assert (moves + [m])[..|moves|] == moves;
  }

  lemma FillsOneMore(cut: nat, processes: nat, p: nat, j: nat, moves: seq<Move>)
    requires p < processes && j < cut && Reached(cut, processes, moves) == Filling(cut, processes, p, Holding(cut, j))
    ensures Reached(cut, processes, moves + [Move(p, Ask(1))] + [Move(p, Sum(j))] + [Move(p, Check(j))])
         == Filling(cut, processes, p, Holding(cut, j + 1))
  {
    HeldAsks(cut, j);
    HeldSums(cut, j);
    HeldChecks(cut, j);
    FillingMoves(cut, processes, p, Holding(cut, j), Ask(1));
    FillingMoves(cut, processes, p, HoldingAnd(cut, j, Asked), Sum(j));
    FillingMoves(cut, processes, p, HoldingAnd(cut, j, Summed(0, 0)), Check(j));
    Extends(cut, processes, moves, Move(p, Ask(1)));
    Extends(cut, processes, moves + [Move(p, Ask(1))], Move(p, Sum(j)));
    Extends(cut, processes, moves + [Move(p, Ask(1))] + [Move(p, Sum(j))], Move(p, Check(j)));
  }

  lemma {:induction false} FillReaches(cut: nat, processes: nat, p: nat, j: nat)
    requires p < processes && j <= cut
    ensures Reached(cut, processes, Fill(cut, p, j)) == Filling(cut, processes, p, Holding(cut, j))
    decreases p, j
  {
    assert Holding(cut, 0).calls == [];
    assert Holding(cut, 0) == Start(cut);
    if j > 0 {
      FillReaches(cut, processes, p, j - 1);
      FillsOneMore(cut, processes, p, j - 1, Fill(cut, p, j - 1));
    } else if p > 0 {
      FillReaches(cut, processes, p - 1, cut);
      assert Filling(cut, processes, p - 1, Holding(cut, cut)) == Filling(cut, processes, p, Holding(cut, 0));
    } else {
      assert seq(processes, _ => Start(cut)) == Filling(cut, processes, 0, Holding(cut, 0));
    }
  }

  /** Calls of one are asked for, summed and checked, and nothing else happens. */
  predicate OnlyEnters(moves: seq<Move>) {
    forall k :: 0 <= k < |moves| ==>
      var step := moves[k].step; step == Ask(1) || step.Sum? || step.Check?
  }

  lemma {:induction false} FillOnlyEnters(cut: nat, p: nat, j: nat)
    ensures OnlyEnters(Fill(cut, p, j))
    decreases p, j
  {
    if j > 0 { FillOnlyEnters(cut, p, j - 1); } else if p > 0 { FillOnlyEnters(cut, p - 1, cut); }
  }

  lemma {:induction false} AllFull(cut: nat, w: World)
    requires forall q :: 0 <= q < |w| ==> w[q] == Holding(cut, cut)
    ensures Outstanding(w) == Times(|w|, cut)
  {
    if w != [] {
      AllFull(cut, w[..|w| - 1]);
      OneMore(|w|, cut);
      HoldingTotals(cut, cut);
    }
  }

  lemma EnteringIsLocked(moves: seq<Move>)
    requires OnlyEnters(moves)
    ensures Locked(moves) && AsksWithin(moves, 1)
  {
    forall c | 0 <= c < |moves| && moves[c].step.Check?
      ensures !OutOfDate(moves[..c], moves[c].p, moves[c].step.i)
    {
      assert forall b :: 0 <= b < c ==> moves[..c][b] == moves[b];
    }
  }

  lemma FullAmount(cut: nat, processes: nat)
    requires processes > 0
    ensures var w := Filling(cut, processes, processes - 1, Holding(cut, cut)); Committed(w) == Times(processes, cut)
  {
    AllFull(cut, Filling(cut, processes, processes - 1, Holding(cut, cut)));
  }

  /** The cut once for each process can be reached under the lock. */
  lemma FullWorld(cut: nat, processes: nat)
    requires processes > 0
    ensures var moves := Fill(cut, processes - 1, cut);
      Locked(moves) && AsksWithin(moves, 1) && Committed(Reached(cut, processes, moves)) == Times(processes, cut)
  {
    FillReaches(cut, processes, processes - 1, cut);
    FillOnlyEnters(cut, processes - 1, cut);
    EnteringIsLocked(Fill(cut, processes - 1, cut));
    FullAmount(cut, processes);
  }

  // ----- the published bound -----

  lemma ProductsGrow(n: nat, a: nat, b: nat)
    ensures a <= b ==> Times(n, a) <= Times(n, b)
    ensures n > 0 && a < b ==> Times(n, a) < Times(n, b)
  {
    assert Times(n, b) - Times(n, a) == n * (b - a);
  }

  function AllGranted(w: World): nat {
    if w == [] then 0 else AllGranted(w[..|w| - 1]) + Total(Granted, w[|w| - 1].calls)
  }

  lemma {:induction false} OneGranted(w: World, v: World, p: nat)
    requires |v| == |w| && p < |w| && forall q :: 0 <= q < |w| && q != p ==> v[q].calls == w[q].calls
    ensures AllGranted(v) + Total(Granted, w[p].calls) == AllGranted(w) + Total(Granted, v[p].calls)
  {
    var n := |w| - 1;
    if p == n { SameGranted(w[..n], v[..n]); } else { OneGranted(w[..n], v[..n], p); }
  }

  lemma {:induction false} SameGranted(w: World, v: World)
    requires |v| == |w| && forall q :: 0 <= q < |w| ==> v[q].calls == w[q].calls
    ensures AllGranted(v) == AllGranted(w)
  {
    if w != [] { SameGranted(w[..|w| - 1], v[..|w| - 1]); }
  }

  lemma {:induction false} NothingGranted(cut: nat, processes: nat)
    ensures AllGranted(seq(processes, _ => Start(cut))) == 0
  {
    if processes > 0 {
      assert seq(processes, _ => Start(cut))[..processes - 1] == seq(processes - 1, _ => Start(cut));
      NothingGranted(cut, processes - 1);
    }
  }

  /** Whatever the interleaving, no more is committed than was granted. */
  lemma {:induction false} CommitsWhatIsGranted(cut: nat, processes: nat, moves: seq<Move>)
    requires processes > 0
    ensures Committed(Reached(cut, processes, moves)) <= AllGranted(Reached(cut, processes, moves))
  {
    if moves == [] {
      NothingYet(cut, processes);
    } else {
      var n := |moves| - 1;
      var w, m := Reached(cut, processes, moves[..n]), moves[n];
      CommitsWhatIsGranted(cut, processes, moves[..n]);
      RunSharesChain(cut, processes, moves[..n]);
      if m.p < |w| {
        var v := Apply(w, m);
        MoveKeepsChain(w, m, cut);
        OneChanges(w, v, m.p);
        OneGranted(w, v, m.p);
        if !m.step.Foreign? { SpendStep(w[m.p], m.step); }
      }
    }
  }

  /** Every granted call fits the cut alone, and none was projected above `largest`. */
  ghost predicate Slight(s: State, largest: nat) { FitAlone(s) && NoneAbove(ProjectionsOf(s.calls), largest) }

  lemma ActIsSlight(s: State, step: Step, largest: nat)
    requires s.inFlight >= 0 && Slight(s, largest) && (step.Ask? ==> step.projection <= largest)
    ensures Slight(Act(s, step), largest)
  {
    FitStep(s, step);
    AskStep(s, step);
  }

  lemma {:induction false} RunIsSlight(cut: nat, processes: nat, moves: seq<Move>, largest: nat)
    requires AsksWithin(moves, largest)
    ensures forall p :: 0 <= p < processes ==> Slight(Reached(cut, processes, moves)[p], largest)
  {
    if moves != [] {
      var n := |moves| - 1;
      var w, m := Reached(cut, processes, moves[..n]), moves[n];
      RunIsSlight(cut, processes, moves[..n], largest);
      RunSharesChain(cut, processes, moves[..n]);
      if m.p < |w| {
        MoveKeepsChain(w, m, cut);
        ActIsSlight(w[m.p], m.step, largest);
      }
    }
  }

  lemma {:induction false} NoneGranted(calls: seq<Call>)
    requires forall i :: 0 <= i < |calls| ==> Granted(calls[i]) == 0
    ensures Total(Granted, calls) == 0
  {
    if calls != [] { NoneGranted(calls[..|calls| - 1]); }
  }

  lemma {:induction false} NothingGrantedAnywhere(w: World)
    requires forall p :: 0 <= p < |w| ==> Total(Granted, w[p].calls) == 0
    ensures AllGranted(w) == 0
  {
    if w != [] { NothingGrantedAnywhere(w[..|w| - 1]); }
  }

  /** Without projections, or without a cut, nothing is ever committed. */
  lemma NothingCommitted(cut: nat, processes: nat, moves: seq<Move>, largest: nat)
    requires processes > 0 && AsksWithin(moves, largest) && (largest == 0 || cut == 0)
    ensures Committed(Reached(cut, processes, moves)) == 0
  {
    var w := Reached(cut, processes, moves);
    RunIsSlight(cut, processes, moves, largest);
    RunSharesChain(cut, processes, moves);
    CommitsWhatIsGranted(cut, processes, moves);
    forall p | 0 <= p < |w| ensures Total(Granted, w[p].calls) == 0 {
      forall i | 0 <= i < |w[p].calls| ensures Granted(w[p].calls[i]) == 0 {
        assert w[p].calls[i].projection == ProjectionsOf(w[p].calls)[i];
      }
      NoneGranted(w[p].calls);
    }
    NothingGrantedAnywhere(w);
  }

  function Ones(n: nat): seq<nat> { seq(n, _ => 1) }

  function AtFirst(steps: seq<Step>): seq<Move> { seq(|steps|, k requires 0 <= k < |steps| => Move(0, steps[k])) }

  /** What the first process does alone, it does as if it were the only one. */
  lemma {:induction false} FirstAlone(cut: nat, processes: nat, steps: seq<Step>)
    requires processes > 0 && Own(steps)
    ensures Reached(cut, processes, AtFirst(steps))[0] == Reach(cut, steps)
  {
    if steps != [] {
      var n := |steps| - 1;
      FirstAlone(cut, processes, steps[..n]);
      assert AtFirst(steps)[..n] == AtFirst(steps[..n]);
    }
  }

  lemma {:induction false} OnesFit(n: nat, cut: nat)
    requires cut > 0
    ensures Fitting(Ones(n), cut) == n
  {
    if n > 0 {
      assert Ones(n)[..n - 1] == Ones(n - 1);
      OnesFit(n - 1, cut);
    }
  }

  lemma {:induction false} PrepareAsksForOne(n: nat)
    ensures AsksWithin(AtFirst(Prepare(Ones(n))), 1)
  {
    if n > 0 {
      assert Ones(n)[..n - 1] == Ones(n - 1);
      PrepareAsksForOne(n - 1);
      StillWithin(Prepare(Ones(n - 1)), [Ask(1)] + [Sum(n - 1)]);
      assert Prepare(Ones(n)) == Prepare(Ones(n - 1)) + ([Ask(1)] + [Sum(n - 1)]);
    }
  }

  lemma StillWithin(steps: seq<Step>, more: seq<Step>)
    requires AsksWithin(AtFirst(steps), 1) && forall k :: 0 <= k < |more| ==> more[k].Ask? ==> more[k].projection <= 1
    ensures AsksWithin(AtFirst(steps + more), 1)
  {
    var all := AtFirst(steps + more);
    forall k | 0 <= k < |all| && all[k].step.Ask? ensures all[k].step.projection <= 1 {
      if k < |steps| { assert AtFirst(steps)[k] == all[k]; } else { assert all[k].step == more[k - |steps|]; }
    }
  }

  lemma {:induction false} OneByOneAsksForOne(n: nat, k: nat)
    requires k <= n
    ensures AsksWithin(AtFirst(OneByOne(Ones(n), k)), 1)
  {
    if k == 0 {
      PrepareAsksForOne(n);
    } else {
      OneByOneAsksForOne(n, k - 1);
      var more := [Check(k - 1)] + [Answer(k - 1, 1)] + [Land(k - 1)] + [Release(k - 1)];
      StillWithin(OneByOne(Ones(n), k - 1), more);
      assert OneByOne(Ones(n), k) == OneByOne(Ones(n), k - 1) + more;
    }
  }

  /** One process alone commits any amount, in calls of one that all sum before any goes out. */
  lemma AnyAmount(cut: nat, processes: nat, n: nat)
    requires processes > 0 && cut > 0
    ensures var moves := AtFirst(OneByOne(Ones(n), n));
      AsksWithin(moves, 1) && Committed(Reached(cut, processes, moves)) >= n
  {
    OneByOneIsOwn(Ones(n), n);
    FirstAlone(cut, processes, OneByOne(Ones(n), n));
    AllServed(cut, Ones(n), n);
    assert Ones(n)[..n] == Ones(n);
    OnesFit(n, cut);
    OneByOneAsksForOne(n, n);
  }

  /** The published bound, one largest projection for each of the other processes, holds over all runs
      whose calls are within that projection exactly when nothing is projected or there is no cut: with sum
      and check apart, one process alone passes it. */
  lemma PublishedBoundHoldsExactlyWhen(cut: nat, processes: nat, largest: nat)
    requires processes > 0
    ensures (forall moves :: AsksWithin(moves, largest) ==>
              Committed(Reached(cut, processes, moves)) <= cut + Times(processes - 1, largest))
            <==> largest == 0 || cut == 0
  {
    if largest == 0 || cut == 0 {
      forall moves | AsksWithin(moves, largest)
        ensures Committed(Reached(cut, processes, moves)) <= cut + Times(processes - 1, largest)
      {
        NothingCommitted(cut, processes, moves, largest);
      }
    } else {
      var n := cut + Times(processes - 1, largest) + 1;
      AnyAmount(cut, processes, n);
      assert AsksWithin(AtFirst(OneByOne(Ones(n), n)), largest);
    }
  }

  lemma LockedBoundHolds(cut: nat, processes: nat, moves: seq<Move>, largest: nat)
    requires processes > 0 && Locked(moves) && AsksWithin(moves, largest)
    requires processes == 1 || largest == 0 || cut <= largest
    ensures Committed(Reached(cut, processes, moves)) <= cut + Times(processes - 1, largest)
  {
    if largest == 0 {
      NothingCommitted(cut, processes, moves, 0);
    } else {
      CommittedWithinCutEach(cut, processes, moves);
      OneMore(processes, cut);
      ProductsGrow(processes - 1, cut, largest);
      if processes == 1 { assert Times(0, cut) == 0; }
    }
  }

  /** Under the lock it holds exactly when there are no other processes, nothing is projected, or one
      largest call takes the cut: otherwise a process may have several calls out. */
  lemma LockedBoundHoldsExactlyWhen(cut: nat, processes: nat, largest: nat)
    requires processes > 0
    ensures (forall moves :: Locked(moves) && AsksWithin(moves, largest) ==>
              Committed(Reached(cut, processes, moves)) <= cut + Times(processes - 1, largest))
            <==> processes == 1 || largest == 0 || cut <= largest
  {
    if processes == 1 || largest == 0 || cut <= largest {
      forall moves | Locked(moves) && AsksWithin(moves, largest)
        ensures Committed(Reached(cut, processes, moves)) <= cut + Times(processes - 1, largest)
      {
        LockedBoundHolds(cut, processes, moves, largest);
      }
    } else {
      FullWorld(cut, processes);
      OneMore(processes, cut);
      ProductsGrow(processes - 1, largest, cut);
      assert AsksWithin(Fill(cut, processes - 1, cut), largest);
    }
  }
}
