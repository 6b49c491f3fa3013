/** The spending ceiling over calls that overlap: each sums the chain, waits, checks and reserves, goes
    out, and gives its reservation back only when its row is in the chain. All amounts are millionths. */
module Budget {

  // ----- one call -----

  /** Where a call stands between two of its awaits. `mark` is bookkeeping of the model: what had settled
      when the sum was read. */
  datatype Stage =
    | Asked
    | Summed(spent: nat, mark: nat)
    | Refused
    | Away
    | Answered(cost: nat)
    | Landed(cost: nat)
    | Kept
    | KeptLanded(cost: nat)
    | Released

  datatype Call = Call(projection: nat, stage: Stage)

  /** What the call still holds of the process's in-flight figure. */
  function Reserved(c: Call): nat {
    match c.stage
    case Away | Answered(_) | Landed(_) | Kept | KeptLanded(_) => c.projection
    case _ => 0
  }

  /** What it may yet cost: reserved, and no row of it in the chain. */
  function Pending(c: Call): nat {
    match c.stage
    case Away | Answered(_) | Kept => c.projection
    case _ => 0
  }

  /** What the chain carries of it while the reservation still stands. */
  function Covered(c: Call): nat {
    match c.stage
    case Landed(cost) => cost
    case KeptLanded(cost) => cost
    case _ => 0
  }

  function Total(f: Call -> nat, calls: seq<Call>): nat {
    if calls == [] then 0 else Total(f, calls[..|calls| - 1]) + f(calls[|calls| - 1])
  }

  lemma {:induction false} TotalUpdate(f: Call -> nat, calls: seq<Call>, i: nat, c: Call)
    requires i < |calls|
    ensures Total(f, calls[i := c]) + f(calls[i]) == Total(f, calls) + f(c)
  {
    var n := |calls| - 1;
    if i == n {
      assert calls[i := c][..n] == calls[..n];
    } else {
      TotalUpdate(f, calls[..n], i, c);
      assert calls[i := c][..n] == calls[..n][i := c];
    }
  }

  lemma TotalAppend(f: Call -> nat, calls: seq<Call>, c: Call)
    ensures Total(f, calls + [c]) == Total(f, calls) + f(c)
  {
    assert (calls + [c])[..|calls|] == calls;
  }

  // ----- the process -----

  /** Three figures are the model's own: `billed` is what providers charged, which the process never
      sees; `leaked` the part of it charged on calls whose reservation was given back as failures;
      `over` what the latest admission overlooked, with what other processes have recorded since. */
  datatype State = State(cut: nat, recorded: nat, inFlight: int, calls: seq<Call>, billed: nat, leaked: nat, over: nat)

  datatype Step =
    | Ask(projection: nat)
    | Sum(i: nat)
    | Check(i: nat)
    | Answer(i: nat, cost: nat)
    | Fail(i: nat, charged: nat)
    | TimeOut(i: nat, charged: nat)
    | Discard(i: nat)
    | Land(i: nat)
    | LandUnheard(i: nat)
    | LoseRow(i: nat)
    | Release(i: nat)
    | Foreign(cost: nat)

  function Start(cut: nat): State { State(cut, 0, 0, [], 0, 0, 0) }

  /** Recorded money that no reservation stands for any more. */
  function Settled(s: State): int { s.recorded - Total(Covered, s.calls) }

  /** The ceiling: refuse at the cut, or when the projection would pass it. */
  predicate Admits(spent: int, inFlight: int, projection: nat, cut: nat) {
    spent + inFlight < cut && spent + inFlight + projection <= cut
  }

  function AtLeastZero(x: int): nat { if x < 0 then 0 else x }

  function Put(s: State, i: nat, stage: Stage): State
    requires i < |s.calls|
  {
    s.(calls := s.calls[i := s.calls[i].(stage := stage)])
  }

  function Reserve(s: State, i: nat): State
    requires i < |s.calls| && s.calls[i].stage.Summed?
  {
    Put(s, i, Away).(inFlight := s.inFlight + s.calls[i].projection,
                     over := AtLeastZero(Settled(s) - s.calls[i].stage.mark))
  }

  function GiveBack(s: State, i: nat): State
    requires i < |s.calls|
  {
    Put(s, i, Released).(inFlight := s.inFlight - s.calls[i].projection)
  }

  /** One step of call `i`. The environment is held to two things: an answer costs no more than was
      projected, and neither does anything charged on a call that timed out. A step the call is not at
      changes nothing. */
  function DoCall(s: State, i: nat, step: Step): State
    requires i < |s.calls|
  {
    var c := s.calls[i];
    match (c.stage, step)
    case (Asked, Sum(_)) => Put(s, i, Summed(s.recorded, AtLeastZero(Settled(s))))
    case (Summed(spent, _), Check(_)) =>
      if Admits(spent, s.inFlight, c.projection, s.cut) then Reserve(s, i) else Put(s, i, Refused)
    case (Away, Answer(_, cost)) =>
      if cost <= c.projection then Put(s, i, Answered(cost)).(billed := s.billed + cost) else s
    case (Away, Fail(_, charged)) => GiveBack(s, i).(billed := s.billed + charged, leaked := s.leaked + charged)
    case (Away, TimeOut(_, charged)) =>
      if charged <= c.projection then Put(s, i, Kept).(billed := s.billed + charged) else s
    case (Answered(_), Discard(_)) => Put(s, i, Kept)
    case (Answered(_), LoseRow(_)) => Put(s, i, Kept)
    case (Answered(cost), Land(_)) => Put(s, i, Landed(cost)).(recorded := s.recorded + cost)
    case (Answered(cost), LandUnheard(_)) => Put(s, i, KeptLanded(cost)).(recorded := s.recorded + cost)
    case (Landed(_), Release(_)) => GiveBack(s, i)
    case _ => s
  }

  function Do(s: State, step: Step): State {
    match step
    case Ask(projection) => s.(calls := s.calls + [Call(projection, Asked)])
    case Foreign(cost) => s.(recorded := s.recorded + cost, billed := s.billed + cost, over := s.over + cost)
    case _ => if step.i < |s.calls| then DoCall(s, step.i, step) else s
  }

  function Reach(cut: nat, steps: seq<Step>): State {
    if steps == [] then Start(cut) else Do(Reach(cut, steps[..|steps| - 1]), steps[|steps| - 1])
  }

  // ----- what every run keeps -----

  /** What it cost stays inside what it reserved, and a sum saw at least what had settled by then. */
  ghost predicate Bounded(c: Call) {
    match c.stage
    case Answered(cost) => cost <= c.projection
    case Landed(cost) => cost <= c.projection
    case KeptLanded(cost) => cost <= c.projection
    case Summed(spent, mark) => mark <= spent
    case _ => true
  }

  /** What it may have been charged that the chain does not carry. */
  function Owed(c: Call): nat {
    match c.stage
    case Answered(cost) => cost
    case Kept => c.projection
    case _ => 0
  }

  ghost predicate AllBounded(calls: seq<Call>) { forall i :: 0 <= i < |calls| ==> Bounded(calls[i]) }

  /** The in-flight figure is the reservations; the chain holds what they cover; the chain and what may
      yet reach it stay within the cut but for what was overlooked; and nothing is billed unseen. */
  ghost predicate Balanced(s: State) {
    && AllBounded(s.calls)
    && s.inFlight == Total(Reserved, s.calls)
    && Settled(s) >= 0
    && s.recorded + Total(Pending, s.calls) <= s.cut + s.over
    && s.billed <= s.recorded + Total(Owed, s.calls) + s.leaked
  }

  lemma {:induction false} TotalsCompare(calls: seq<Call>)
    requires AllBounded(calls)
    ensures Total(Covered, calls) + Total(Pending, calls) <= Total(Reserved, calls)
    ensures Total(Owed, calls) <= Total(Pending, calls)
  {
    if calls != [] {
      var n := |calls| - 1;
      assert Bounded(calls[n]);
      TotalsCompare(calls[..n]);
    }
  }

  /** Every total after one call has moved to another stage. */
  lemma Moves(calls: seq<Call>, i: nat, c: Call)
    requires i < |calls|
    ensures var after := calls[i := c];
      && Total(Reserved, after) + Reserved(calls[i]) == Total(Reserved, calls) + Reserved(c)
      && Total(Covered, after) + Covered(calls[i]) == Total(Covered, calls) + Covered(c)
      && Total(Pending, after) + Pending(calls[i]) == Total(Pending, calls) + Pending(c)
      && Total(Owed, after) + Owed(calls[i]) == Total(Owed, calls) + Owed(c)
  {
    TotalUpdate(Reserved, calls, i, c);
    TotalUpdate(Covered, calls, i, c);
    TotalUpdate(Pending, calls, i, c);
    TotalUpdate(Owed, calls, i, c);
  }

  lemma Joins(calls: seq<Call>, c: Call)
    ensures var after := calls + [c];
      && Total(Reserved, after) == Total(Reserved, calls) + Reserved(c)
      && Total(Covered, after) == Total(Covered, calls) + Covered(c)
      && Total(Pending, after) == Total(Pending, calls) + Pending(c)
      && Total(Owed, after) == Total(Owed, calls) + Owed(c)
  {
    TotalAppend(Reserved, calls, c);
    TotalAppend(Covered, calls, c);
    TotalAppend(Pending, calls, c);
    TotalAppend(Owed, calls, c);
  }

  /** An admission: what the check could not see is what settled since its sum. */
  lemma ReserveKeepsBalanced(s: State, i: nat)
    requires Balanced(s) && i < |s.calls| && s.calls[i].stage.Summed?
    requires Admits(s.calls[i].stage.spent, s.inFlight, s.calls[i].projection, s.cut)
    ensures Balanced(Reserve(s, i))
  {
    var c := s.calls[i];
    assert Bounded(c);
    TotalsCompare(s.calls);
    Moves(s.calls, i, c.(stage := Away));
  }

  /** A move that shifts the books evenly: the reservation is what the stage says, the chain covers no
      less and nothing is spent that was not pending, or billed that is not owed. */
  lemma EvenMoveKeepsBalanced(s: State, i: nat, t: State)
    requires Balanced(s) && i < |s.calls| == |t.calls| && t.calls == s.calls[i := t.calls[i]]
    requires t.cut == s.cut && t.over == s.over && Bounded(t.calls[i])
    requires t.inFlight - s.inFlight == Reserved(t.calls[i]) - Reserved(s.calls[i])
    requires t.recorded - s.recorded >= Covered(t.calls[i]) - Covered(s.calls[i])
    requires t.recorded - s.recorded + Pending(t.calls[i]) <= Pending(s.calls[i])
    requires t.billed - s.billed <= t.recorded - s.recorded + Owed(t.calls[i]) - Owed(s.calls[i]) + t.leaked - s.leaked
    ensures Balanced(t)
  {
    Moves(s.calls, i, t.calls[i]);
  }

  predicate Admitting(s: State, i: nat, step: Step)
    requires i < |s.calls|
  {
    s.calls[i].stage.Summed? && step.Check? && Admits(s.calls[i].stage.spent, s.inFlight, s.calls[i].projection, s.cut)
  }

  lemma OtherMovesAreEven(s: State, i: nat, step: Step)
    requires Balanced(s) && i < |s.calls| && !Admitting(s, i, step)
    ensures var t := DoCall(s, i, step);
      && |t.calls| == |s.calls| && t.calls == s.calls[i := t.calls[i]] && Bounded(t.calls[i])
      && t.cut == s.cut && t.over == s.over
      && t.inFlight - s.inFlight == Reserved(t.calls[i]) - Reserved(s.calls[i])
      && t.recorded - s.recorded >= Covered(t.calls[i]) - Covered(s.calls[i])
      && t.recorded - s.recorded + Pending(t.calls[i]) <= Pending(s.calls[i])
      && t.billed - s.billed <= t.recorded - s.recorded + Owed(t.calls[i]) - Owed(s.calls[i]) + t.leaked - s.leaked
  {
    assert Bounded(s.calls[i]);
  }

  lemma CallKeepsBalanced(s: State, i: nat, step: Step)
    requires Balanced(s) && i < |s.calls|
    ensures Balanced(DoCall(s, i, step))
  {
    if Admitting(s, i, step) {
      ReserveKeepsBalanced(s, i);
    } else {
      OtherMovesAreEven(s, i, step);
      EvenMoveKeepsBalanced(s, i, DoCall(s, i, step));
    }
  }

  lemma StepKeepsBalanced(s: State, step: Step)
    requires Balanced(s)
    ensures Balanced(Do(s, step))
  {
    match step {
      case Ask(projection) => Joins(s.calls, Call(projection, Asked));
      case Foreign(cost) =>
      case _ => if step.i < |s.calls| { CallKeepsBalanced(s, step.i, step); }
    }
  }

  /** Through timeouts, refused responses, lost rows and failed appends, over any interleaving: the chain
      and everything that may still reach it exceed the cut by no more than the latest admission
      overlooked and others wrote since, and nothing is billed that is neither recorded nor reserved
      but what was charged on calls given back as failures. */
  lemma {:induction false} EveryRunIsBalanced(cut: nat, steps: seq<Step>)
    ensures Balanced(Reach(cut, steps)) && Reach(cut, steps).cut == cut
    ensures var s := Reach(cut, steps);
      s.recorded + Total(Pending, s.calls) <= cut + s.over && s.billed <= s.recorded + s.inFlight + s.leaked
  {
    if steps != [] {
      EveryRunIsBalanced(cut, steps[..|steps| - 1]);
      StepKeepsBalanced(Reach(cut, steps[..|steps| - 1]), steps[|steps| - 1]);
    }
    TotalsCompare(Reach(cut, steps).calls);
  }

  // ----- when nothing is overlooked -----

  /** The step is no other process's, and admits no call on a sum older than a settlement. */
  predicate Sees(s: State, step: Step) {
    && !step.Foreign?
    && (step.Check? && step.i < |s.calls| && s.calls[step.i].stage.Summed? ==> Settled(s) <= s.calls[step.i].stage.mark)
  }

  lemma SeeingOverlooksNothing(s: State, step: Step)
    requires Sees(s, step) && s.over == 0
    ensures Do(s, step).over == 0
  {
  }

  predicate Own(steps: seq<Step>) { forall k :: 0 <= k < |steps| ==> !steps[k].Foreign? }

  /** A reservation was released after call `i` summed the chain. */
  ghost predicate Stale(steps: seq<Step>, i: nat) {
    exists a, b :: 0 <= a < b < |steps| && steps[a] == Sum(i) && steps[b].Release?
  }

  /** Sum and check of one call under one lock, and releases under it too. */
  ghost predicate Locked(steps: seq<Step>) {
    forall c :: 0 <= c < |steps| && steps[c].Check? ==> !Stale(steps[..c], steps[c].i)
  }

  /** Whoever has summed the chain did so in this run, and saw all that has settled unless something was
      released since. */
  ghost predicate Marked(s: State, steps: seq<Step>) {
    forall i :: 0 <= i < |s.calls| && s.calls[i].stage.Summed? ==>
      Sum(i) in steps && (Stale(steps, i) || Settled(s) <= s.calls[i].stage.mark)
  }

  lemma CallSettlesOnlyOnRelease(s: State, i: nat, step: Step)
    requires i < |s.calls| && !step.Release?
    ensures Settled(DoCall(s, i, step)) <= Settled(s)
  {
    TotalUpdate(Covered, s.calls, i, DoCall(s, i, step).calls[i]);
  }

  lemma SettlesOnlyOnRelease(s: State, step: Step)
    requires !step.Foreign? && !step.Release?
    ensures Settled(Do(s, step)) <= Settled(s)
  {
    if step.Ask? {
      TotalAppend(Covered, s.calls, Call(step.projection, Asked));
    } else if step.i < |s.calls| {
      CallSettlesOnlyOnRelease(s, step.i, step);
    }
  }

  lemma StaleGrows(steps: seq<Step>, step: Step, i: nat)
    ensures Stale(steps, i) || (Sum(i) in steps && step.Release?) ==> Stale(steps + [step], i)
  {
    var more := steps + [step];
    if Stale(steps, i) {
      var a, b :| 0 <= a < b < |steps| && steps[a] == Sum(i) && steps[b].Release?;
      assert more[a] == Sum(i) && more[b].Release?;
    } else if Sum(i) in steps && step.Release? {
      var a :| 0 <= a < |steps| && steps[a] == Sum(i);
      assert more[a] == Sum(i) && more[|steps|].Release?;
    }
  }

  lemma MarkedStep(s: State, steps: seq<Step>, step: Step)
    requires Marked(s, steps) && !step.Foreign?
    ensures Marked(Do(s, step), steps + [step])
  {
    var t := Do(s, step);
    if !step.Release? { SettlesOnlyOnRelease(s, step); }
    forall i | 0 <= i < |t.calls| && t.calls[i].stage.Summed?
      ensures Sum(i) in steps + [step] && (Stale(steps + [step], i) || Settled(t) <= t.calls[i].stage.mark)
    {
      StaleGrows(steps, step, i);
      assert (steps + [step])[|steps|] == step;
    }
  }

  lemma LockedBefore(steps: seq<Step>, n: nat)
    requires Locked(steps) && n <= |steps|
    ensures Locked(steps[..n])
  {
    forall c | 0 <= c < n && steps[..n][c].Check? ensures !Stale(steps[..n][..c], steps[..n][c].i) {
      assert steps[..n][..c] == steps[..c];
    }
  }

  lemma {:induction false} LockedRunsOverlookNothing(cut: nat, steps: seq<Step>)
    requires Own(steps) && Locked(steps)
    ensures Marked(Reach(cut, steps), steps) && Reach(cut, steps).over == 0
  {
    if steps != [] {
      var n := |steps| - 1;
      LockedBefore(steps, n);
      LockedRunsOverlookNothing(cut, steps[..n]);
      SeeingOverlooksNothing(Reach(cut, steps[..n]), steps[n]);
      MarkedStep(Reach(cut, steps[..n]), steps[..n], steps[n]);
      assert steps == steps[..n] + [steps[n]];
    }
  }

  /** The ceiling as it is published, exact under any concurrency: it is so when no reservation is
      released between a call's sum and its check. */
  lemma LockedRunsKeepTheCut(cut: nat, steps: seq<Step>)
    requires Own(steps) && Locked(steps)
    ensures Reach(cut, steps).recorded + Total(Pending, Reach(cut, steps).calls) <= cut
  {
    LockedRunsOverlookNothing(cut, steps);
    EveryRunIsBalanced(cut, steps);
  }

  // ----- and without the lock -----

  /** The projections of the calls a run asks for, in order. */
  function Projections(steps: seq<Step>): seq<nat> {
    if steps == [] then []
    else
      var last := steps[|steps| - 1];
      Projections(steps[..|steps| - 1]) + if last.Ask? then [last.projection] else []
  }

  /** The sum of those that would be admitted alone. */
  function Fitting(projections: seq<nat>, cut: nat): nat {
    if projections == [] then 0
    else
      var last := projections[|projections| - 1];
      Fitting(projections[..|projections| - 1], cut) + if last <= cut then last else 0
  }

  function ProjectionsOf(calls: seq<Call>): seq<nat> {
    seq(|calls|, i requires 0 <= i < |calls| => calls[i].projection)
  }

  /** What was projected for a call once it is admitted, for good. */
  function Granted(c: Call): nat {
    match c.stage
    case Asked | Summed(_, _) | Refused => 0
    case _ => c.projection
  }

  ghost predicate FitAlone(s: State) {
    forall i :: 0 <= i < |s.calls| && Granted(s.calls[i]) > 0 ==> s.calls[i].projection <= s.cut
  }

  /** Only an admission changes what is granted, and it fits alone. */
  lemma AdmissionsFit(s: State, i: nat, step: Step)
    requires i < |s.calls|
    ensures var t := DoCall(s, i, step);
      && t.cut == s.cut && |t.calls| == |s.calls| && t.calls == s.calls[i := t.calls[i]]
      && (Admitting(s, i, step) ==> t == Reserve(s, i))
      && (!Admitting(s, i, step) ==> Granted(t.calls[i]) == Granted(s.calls[i]))
      && t.calls[i].projection == s.calls[i].projection
    ensures Admitting(s, i, step) && s.inFlight >= 0 ==> s.calls[i].projection <= s.cut
  {
  }

  lemma CallKeepsProjections(s: State, i: nat, step: Step)
    requires i < |s.calls|
    ensures ProjectionsOf(DoCall(s, i, step).calls) == ProjectionsOf(s.calls)
  {
    AdmissionsFit(s, i, step);
  }

  lemma AskStep(s: State, step: Step)
    ensures ProjectionsOf(Do(s, step).calls) == ProjectionsOf(s.calls) + if step.Ask? then [step.projection] else []
  {
    if !step.Ask? && !step.Foreign? && step.i < |s.calls| { CallKeepsProjections(s, step.i, step); }
  }

  lemma {:induction false} RunAsks(cut: nat, steps: seq<Step>)
    ensures ProjectionsOf(Reach(cut, steps).calls) == Projections(steps)
  {
    if steps != [] {
      var n := |steps| - 1;
      RunAsks(cut, steps[..n]);
      AskStep(Reach(cut, steps[..n]), steps[n]);
    }
  }

  lemma {:induction false} GrantedFit(calls: seq<Call>, cut: nat)
    requires forall i :: 0 <= i < |calls| && Granted(calls[i]) > 0 ==> calls[i].projection <= cut
    ensures Total(Granted, calls) <= Fitting(ProjectionsOf(calls), cut)
  {
    if calls != [] {
      var n := |calls| - 1;
      GrantedFit(calls[..n], cut);
      assert ProjectionsOf(calls)[..n] == ProjectionsOf(calls[..n]);
    }
  }

  /** What a call may take from the cut grows by no more than what is granted. */
  lemma SpendCall(s: State, i: nat, step: Step)
    requires Balanced(s) && i < |s.calls|
    ensures var t := DoCall(s, i, step);
      t.recorded + Total(Pending, t.calls) + Total(Granted, s.calls)
      <= s.recorded + Total(Pending, s.calls) + Total(Granted, t.calls)
  {
    var c := DoCall(s, i, step).calls[i];
    AdmissionsFit(s, i, step);
    TotalUpdate(Pending, s.calls, i, c);
    TotalUpdate(Granted, s.calls, i, c);
    if !Admitting(s, i, step) { OtherMovesAreEven(s, i, step); }
  }

  lemma AskSpendsNothing(s: State, projection: nat)
    ensures var t := Do(s, Ask(projection));
      && t.recorded == s.recorded && Total(Pending, t.calls) == Total(Pending, s.calls)
      && Total(Granted, t.calls) == Total(Granted, s.calls)
  {
    TotalAppend(Pending, s.calls, Call(projection, Asked));
    TotalAppend(Granted, s.calls, Call(projection, Asked));
  }

  lemma SpendStep(s: State, step: Step)
    requires Balanced(s) && !step.Foreign?
    ensures var t := Do(s, step);
      t.recorded + Total(Pending, t.calls) + Total(Granted, s.calls)
      <= s.recorded + Total(Pending, s.calls) + Total(Granted, t.calls)
  {
    if step.Ask? {
      AskSpendsNothing(s, step.projection);
    } else if step.i < |s.calls| {
      assert Do(s, step) == DoCall(s, step.i, step);
      SpendCall(s, step.i, step);
    } else {
      assert Do(s, step) == s;
    }
  }

  lemma FitStep(s: State, step: Step)
    requires s.inFlight >= 0 && FitAlone(s)
    ensures FitAlone(Do(s, step))
  {
    if !step.Ask? && !step.Foreign? && step.i < |s.calls| { AdmissionsFit(s, step.i, step); }
  }

  lemma {:induction false} SpendsWhatFits(cut: nat, steps: seq<Step>)
    requires Own(steps)
    ensures var s := Reach(cut, steps); FitAlone(s) && s.recorded + Total(Pending, s.calls) <= Total(Granted, s.calls)
  {
    if steps != [] {
      var n := |steps| - 1;
      SpendsWhatFits(cut, steps[..n]);
      EveryRunIsBalanced(cut, steps[..n]);
      SpendStep(Reach(cut, steps[..n]), steps[n]);
      FitStep(Reach(cut, steps[..n]), steps[n]);
    }
  }

  /** Every call is asked for and sums the chain before any goes out. */
  function Prepare(projections: seq<nat>): seq<Step> {
    if projections == [] then []
    else
      var n := |projections| - 1;
      Prepare(projections[..n]) + [Ask(projections[n])] + [Sum(n)]
  }

  /** Then they go one after another, each recorded at its projection and released before the next check. */
  function OneByOne(projections: seq<nat>, k: nat): seq<Step>
    requires k <= |projections|
  {
    if k == 0 then Prepare(projections)
    else
      var p := projections[k - 1];
      OneByOne(projections, k - 1) + [Check(k - 1)] + [Answer(k - 1, p)] + [Land(k - 1)] + [Release(k - 1)]
  }

  /** Nothing is in flight, calls from `k` on still hold a sum of nothing. */
  ghost predicate Waiting(s: State, cut: nat, projections: seq<nat>, k: nat) {
    && s.cut == cut && s.inFlight == 0 && ProjectionsOf(s.calls) == projections
    && forall i :: k <= i < |s.calls| ==> s.calls[i].stage.Summed? && s.calls[i].stage.spent == 0
  }

  lemma {:induction false} Prepared(cut: nat, projections: seq<nat>)
    ensures Own(Prepare(projections))
    ensures var s := Reach(cut, Prepare(projections)); Waiting(s, cut, projections, 0) && s.recorded == 0
  {
    if projections != [] {
      var n := |projections| - 1;
      var before := Prepare(projections[..n]);
      Prepared(cut, projections[..n]);
      assert |Reach(cut, before).calls| == n by { assert |ProjectionsOf(Reach(cut, before).calls)| == n; }
      Extend(cut, before, Reach(cut, before), Ask(projections[n]), Do(Reach(cut, before), Ask(projections[n])));
      var asked := before + [Ask(projections[n])];
      Extend(cut, asked, Reach(cut, asked), Sum(n), Do(Reach(cut, asked), Sum(n)));
    }
  }

  lemma OneServed(s: State, cut: nat, projections: seq<nat>, k: nat)
    requires Waiting(s, cut, projections, k) && k < |projections| && cut > 0
    ensures var p := projections[k]; var t := Do(Do(Do(Do(s, Check(k)), Answer(k, p)), Land(k)), Release(k));
      Waiting(t, cut, projections, k + 1) && t.recorded == s.recorded + if p <= cut then p else 0
  {
    var p := projections[k];
    assert |s.calls| == |projections| by { assert |ProjectionsOf(s.calls)| == |s.calls|; }
    assert s.calls[k].projection == ProjectionsOf(s.calls)[k];
    var t1 := Do(s, Check(k));
    if p <= cut {
      assert t1.calls[k] == Call(p, Away);
      var t2 := Do(t1, Answer(k, p));
      assert t2.calls[k] == Call(p, Answered(p));
      var t3 := Do(t2, Land(k));
      assert t3.calls[k] == Call(p, Landed(p));
    } else {
      assert t1.calls[k] == Call(p, Refused);
    }
  }

  lemma FittingNext(projections: seq<nat>, k: nat, cut: nat)
    requires 0 < k <= |projections|
    ensures Fitting(projections[..k], cut)
         == Fitting(projections[..k - 1], cut) + if projections[k - 1] <= cut then projections[k - 1] else 0
  {
    assert projections[..k][..k - 1] == projections[..k - 1];
  }

  lemma {:induction false} OneByOneIsOwn(projections: seq<nat>, k: nat)
    requires k <= |projections|
    ensures Own(OneByOne(projections, k))
  {
    if k == 0 { Prepared(0, projections); } else { OneByOneIsOwn(projections, k - 1); }
  }

  lemma ServesNext(cut: nat, projections: seq<nat>, k: nat)
    requires k < |projections| && cut > 0 && Waiting(Reach(cut, OneByOne(projections, k)), cut, projections, k)
    ensures Waiting(Reach(cut, OneByOne(projections, k + 1)), cut, projections, k + 1)
    ensures Reach(cut, OneByOne(projections, k + 1)).recorded
         == Reach(cut, OneByOne(projections, k)).recorded + if projections[k] <= cut then projections[k] else 0
  {
    FourSteps(cut, OneByOne(projections, k), Check(k), Answer(k, projections[k]), Land(k), Release(k));
    OneServed(Reach(cut, OneByOne(projections, k)), cut, projections, k);
  }

  lemma {:induction false} AllServed(cut: nat, projections: seq<nat>, k: nat)
    requires k <= |projections| && cut > 0
    ensures var s := Reach(cut, OneByOne(projections, k));
      Waiting(s, cut, projections, k) && s.recorded == Fitting(projections[..k], cut)
  {
    if k == 0 {
      Prepared(cut, projections);
    } else {
      AllServed(cut, projections, k - 1);
      ServesNext(cut, projections, k - 1);
      FittingNext(projections, k, cut);
    }
  }

  lemma {:induction false} NothingFitsNothing(projections: seq<nat>)
    ensures Fitting(projections, 0) == 0
  {
    if projections != [] { NothingFitsNothing(projections[..|projections| - 1]); }
  }

  /** Over calls of these projections the ceiling is kept, whatever the interleaving. */
  ghost predicate CeilingHolds(cut: nat, projections: seq<nat>) {
    forall steps :: Own(steps) && Projections(steps) == projections ==>
      Reach(cut, steps).recorded + Total(Pending, Reach(cut, steps).calls) <= cut
  }

  /** Without the lock the ceiling holds of a set of calls exactly when all that fit alone fit together:
      in the worst interleaving it stops nothing that would be admitted by itself. */
  lemma CeilingHoldsExactlyWhenAllFit(cut: nat, projections: seq<nat>)
    ensures CeilingHolds(cut, projections) <==> Fitting(projections, cut) <= cut
  {
    if Fitting(projections, cut) <= cut {
      forall steps | Own(steps) && Projections(steps) == projections
        ensures Reach(cut, steps).recorded + Total(Pending, Reach(cut, steps).calls) <= cut
      {
        EveryRunIsBalanced(cut, steps);
        SpendsWhatFits(cut, steps);
        RunAsks(cut, steps);
        GrantedFit(Reach(cut, steps).calls, cut);
      }
    } else {
      if cut == 0 { NothingFitsNothing(projections); }
      var n := |projections|;
      AllServed(cut, projections, n);
      OneByOneIsOwn(projections, n);
      RunAsks(cut, OneByOne(projections, n));
      assert projections[..n] == projections;
    }
  }

  lemma Extend(cut: nat, steps: seq<Step>, s: State, step: Step, t: State)
    requires Reach(cut, steps) == s && Do(s, step) == t
    ensures Reach(cut, steps + [step]) == t
  {
    assert (steps + [step])[..|steps|] == steps;
  }

  function TwoCalls(a: Stage, b: Stage): seq<Call> { [Call(6, a), Call(5, b)] }

  /** Both are asked for, and the first goes out. */
  function FirstLeaves(): seq<Step> { [] + [Ask(6)] + [Ask(5)] + [Sum(0)] + [Check(0)] }

  /** The second sums the chain, and only then is the first recorded and released. */
  function FirstLands(): seq<Step> { FirstLeaves() + [Sum(1)] + [Answer(0, 6)] + [Land(0)] + [Release(0)] }

  lemma FourSteps(cut: nat, steps: seq<Step>, a: Step, b: Step, c: Step, d: Step)
    ensures Reach(cut, steps + [a] + [b] + [c] + [d]) == Do(Do(Do(Do(Reach(cut, steps), a), b), c), d)
  {
    Extend(cut, steps, Reach(cut, steps), a, Do(Reach(cut, steps), a));
    var one := steps + [a];
    Extend(cut, one, Reach(cut, one), b, Do(Reach(cut, one), b));
    var two := one + [b];
    Extend(cut, two, Reach(cut, two), c, Do(Reach(cut, two), c));
    var three := two + [c];
    Extend(cut, three, Reach(cut, three), d, Do(Reach(cut, three), d));
  }

  lemma AfterFirstLeaves()
    ensures Reach(10, FirstLeaves()) == State(10, 0, 6, TwoCalls(Away, Asked), 0, 0, 0)
  {
    FourSteps(10, [], Ask(6), Ask(5), Sum(0), Check(0));
    var s2 := Do(Do(Start(10), Ask(6)), Ask(5));
    assert s2 == State(10, 0, 0, TwoCalls(Asked, Asked), 0, 0, 0);
    Pair(Call(6, Asked), Call(5, Asked));
    assert Do(s2, Sum(0)) == State(10, 0, 0, TwoCalls(Summed(0, 0), Asked), 0, 0, 0);
    Pair(Call(6, Summed(0, 0)), Call(5, Asked));
  }

  lemma SecondSums()
    ensures Do(State(10, 0, 6, TwoCalls(Away, Asked), 0, 0, 0), Sum(1))
         == State(10, 0, 6, TwoCalls(Away, Summed(0, 0)), 0, 0, 0)
  {
    Pair(Call(6, Away), Call(5, Asked));
  }

  lemma FirstAnswersAndLands()
    ensures Do(Do(State(10, 0, 6, TwoCalls(Away, Summed(0, 0)), 0, 0, 0), Answer(0, 6)), Land(0))
         == State(10, 6, 6, TwoCalls(Landed(6), Summed(0, 0)), 6, 0, 0)
  {
    var s := Do(State(10, 0, 6, TwoCalls(Away, Summed(0, 0)), 0, 0, 0), Answer(0, 6));
    assert s == State(10, 0, 6, TwoCalls(Answered(6), Summed(0, 0)), 6, 0, 0);
  }

  lemma FirstReleases()
    ensures Do(State(10, 6, 6, TwoCalls(Landed(6), Summed(0, 0)), 6, 0, 0), Release(0))
         == State(10, 6, 0, TwoCalls(Released, Summed(0, 0)), 6, 0, 0)
  {
  }

  lemma AfterFirstLands()
    ensures Reach(10, FirstLands()) == State(10, 6, 0, TwoCalls(Released, Summed(0, 0)), 6, 0, 0)
  {
    AfterFirstLeaves();
    FourSteps(10, FirstLeaves(), Sum(1), Answer(0, 6), Land(0), Release(0));
    SecondSums();
    FirstAnswersAndLands();
    FirstReleases();
  }

  /** Two calls in one process, the first recorded and released between the second's sum and its check:
      a cut of ten carries eleven. */
  lemma StaleSumPassesTheCut()
    ensures var s := Reach(10, FirstLands() + [Check(1)]); s.recorded + Total(Pending, s.calls) == 11
  {
    AfterFirstLands();
    Pair(Call(6, Released), Call(5, Summed(0, 0)));
    Extend(10, FirstLands(), State(10, 6, 0, TwoCalls(Released, Summed(0, 0)), 6, 0, 0), Check(1),
           State(10, 6, 5, TwoCalls(Released, Away), 6, 0, 6));
    Pair(Call(6, Released), Call(5, Away));
  }

  lemma Pair(a: Call, b: Call)
    ensures Total(Covered, [a, b]) == Covered(a) + Covered(b) && Total(Pending, [a, b]) == Pending(a) + Pending(b)
  {
    TotalAppend(Covered, [], a);
    TotalAppend(Covered, [a], b);
    TotalAppend(Pending, [], a);
    TotalAppend(Pending, [a], b);
    assert [] + [a] == [a] && [a] + [b] == [a, b];
  }

  // ----- charges nobody sees -----

  /** A call is asked for, admitted, and comes back a failure for which something was charged. */
  function ChargedFailure(charged: nat): seq<Step> { [] + [Ask(1)] + [Sum(0)] + [Check(0)] + [Fail(0, charged)] }

  /** A provider that generated, charged and then answered in a shape the gateway refuses counts as a
      failure: its reservation is given back, and the charge is in no figure. */
  lemma ChargedFailureIsUnseen(cut: nat, charged: nat)
    requires cut > 0
    ensures var s := Reach(cut, ChargedFailure(charged)); s.billed == s.recorded + s.inFlight + charged
  {
    FourSteps(cut, [], Ask(1), Sum(0), Check(0), Fail(0, charged));
    var s1 := Do(Start(cut), Ask(1));
    assert s1 == State(cut, 0, 0, [Call(1, Asked)], 0, 0, 0);
    Single(Call(1, Asked));
    var s2 := Do(s1, Sum(0));
    assert s2 == State(cut, 0, 0, [Call(1, Summed(0, 0))], 0, 0, 0);
    Single(Call(1, Summed(0, 0)));
    assert Do(s2, Check(0)) == State(cut, 0, 1, [Call(1, Away)], 0, 0, 0);
  }

  lemma Single(a: Call)
    ensures Total(Covered, [a]) == Covered(a)
  {
    TotalAppend(Covered, [], a);
    assert [] + [a] == [a];
  }

  /** No failure is charged more than `limit`. */
  predicate ChargesWithin(steps: seq<Step>, limit: nat) {
    forall k :: 0 <= k < |steps| && steps[k].Fail? ==> steps[k].charged <= limit
  }

  ghost predicate NeverOut(s: State) { forall i :: 0 <= i < |s.calls| ==> !s.calls[i].stage.Away? }

  lemma NobodyLeaves(s: State, step: Step)
    requires s.cut == 0 && NeverOut(s) && s.inFlight >= 0
    ensures NeverOut(Do(s, step)) && Do(s, step).leaked == s.leaked && Do(s, step).cut == 0
  {
  }

  lemma {:induction false} NothingLeaks(cut: nat, steps: seq<Step>, limit: nat)
    requires ChargesWithin(steps, limit) && (cut == 0 || limit == 0)
    ensures Reach(cut, steps).leaked == 0
    ensures cut == 0 ==> NeverOut(Reach(cut, steps))
  {
    if steps != [] {
      var n := |steps| - 1;
      var before := Reach(cut, steps[..n]);
      NothingLeaks(cut, steps[..n], limit);
      EveryRunIsBalanced(cut, steps[..n]);
      if cut == 0 { NobodyLeaves(before, steps[n]); } else { FreeStep(before, steps[n]); }
    }
  }

  lemma FreeStep(s: State, step: Step)
    requires step.Fail? ==> step.charged == 0
    ensures Do(s, step).leaked == s.leaked
  {
  }

  /** Billed stays within recorded and reserved, over every run whose failures charge at most `limit`,
      exactly when they charge nothing or no call can go out. */
  lemma NothingIsUnseenExactlyWhenFailuresAreFree(cut: nat, limit: nat)
    ensures (forall steps :: ChargesWithin(steps, limit) ==>
              Reach(cut, steps).billed <= Reach(cut, steps).recorded + Reach(cut, steps).inFlight)
            <==> cut == 0 || limit == 0
  {
    if cut == 0 || limit == 0 {
      forall steps | ChargesWithin(steps, limit)
        ensures Reach(cut, steps).billed <= Reach(cut, steps).recorded + Reach(cut, steps).inFlight
      {
        EveryRunIsBalanced(cut, steps);
        NothingLeaks(cut, steps, limit);
      }
    } else {
      ChargedFailureIsUnseen(cut, limit);
      assert ChargesWithin(ChargedFailure(limit), limit);
    }
  }
}
