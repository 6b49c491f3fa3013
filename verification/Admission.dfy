/** `wouldAdmit`: a set of calls asked about before the first is made. */
module Admission {
  import opened Budget
  import opened Money

  datatype Probe = Probe(model: string, systemLength: nat, userLength: nat, maxTokens: nat)

  datatype Answer = Admitted | PriceUnknown | Exhausted

  function Projected(prices: map<string, Price>, p: Probe): nat
    requires p.model in prices
  {
    ProjectedMicro(p.systemLength, p.userLength, p.maxTokens, prices[p.model].inputPer1k, prices[p.model].outputPer1k)
  }

  predicate Priced(prices: map<string, Price>, probes: seq<Probe>) {
    forall i :: 0 <= i < |probes| ==> probes[i].model in prices
  }

  function Projections(prices: map<string, Price>, probes: seq<Probe>): seq<nat>
    requires Priced(prices, probes)
  {
    seq(|probes|, i requires 0 <= i < |probes| => Projected(prices, probes[i]))
  }

  function UpTo(costs: seq<nat>, n: nat): nat
    requires n <= |costs|
  {
    if n == 0 then 0 else UpTo(costs, n - 1) + costs[n - 1]
  }

  /** The set fits as one call of the summed projection would. */
  method WouldAdmit(replay: bool, prices: map<string, Price>, probes: seq<Probe>, spent: nat, inFlight: nat, cut: nat)
    returns (answer: Answer)
    ensures replay ==> answer.Admitted?
    ensures !replay ==> (answer.PriceUnknown? <==> !Priced(prices, probes))
    ensures !replay && Priced(prices, probes) ==>
      (answer.Admitted? <==> Admits(spent, inFlight, UpTo(Projections(prices, probes), |probes|), cut))
  {
    if replay { return Admitted; }
    var projected: nat := 0;
    for i := 0 to |probes|
      invariant Priced(prices, probes[..i])
      invariant projected == UpTo(Projections(prices, probes[..i]), i)
    {
      if probes[i].model !in prices { return PriceUnknown; }
      assert probes[..i + 1] == probes[..i] + [probes[i]];
      UpToPrefix(Projections(prices, probes[..i]), Projections(prices, probes[..i + 1]), i);
      projected := projected + Projected(prices, probes[i]);
    }
    assert probes[..|probes|] == probes;
    var committed := spent + inFlight;
    if committed >= cut || committed + projected > cut { return Exhausted; }
    return Admitted;
  }

  lemma {:induction false} UpToPrefix(a: seq<nat>, b: seq<nat>, n: nat)
    requires n <= |a| && n <= |b| && a[..n] == b[..n]
    ensures UpTo(a, n) == UpTo(b, n)
  {
    if n > 0 {
      assert a[..n - 1] == a[..n][..n - 1] && b[..n - 1] == b[..n][..n - 1];
      assert a[n - 1] == a[..n][n - 1] && b[n - 1] == b[..n][n - 1];
      UpToPrefix(a, b, n - 1);
    }
  }

  // ----- then the calls are made, one after another -----

  /** What each call leaves committed once it is over: anything up to its projection. */
  ghost predicate Charges(projections: seq<nat>, charges: seq<nat>) {
    |charges| == |projections| && forall i :: 0 <= i < |charges| ==> charges[i] <= projections[i]
  }

  ghost predicate AllAdmitted(committed: nat, cut: nat, projections: seq<nat>, charges: seq<nat>)
    requires |charges| == |projections|
  {
    forall k :: 0 <= k < |projections| ==> Admits(committed + UpTo(charges, k), 0, projections[k], cut)
  }

  lemma {:induction false} ChargesStayUnder(projections: seq<nat>, charges: seq<nat>, n: nat)
    requires Charges(projections, charges) && n <= |charges|
    ensures UpTo(charges, n) <= UpTo(projections, n)
  {
    if n > 0 { ChargesStayUnder(projections, charges, n - 1); }
  }

  lemma {:induction false} UpToGrows(costs: seq<nat>, m: nat, n: nat)
    requires m <= n <= |costs|
    ensures UpTo(costs, m) <= UpTo(costs, n)
  {
    if m < n { UpToGrows(costs, m, n - 1); }
  }

  /** A call that projects nothing, reached when the calls before it may already have come to the cut. */
  predicate FreeCallAtTheCut(committed: nat, cut: nat, projections: seq<nat>) {
    exists k :: 0 <= k < |projections| && projections[k] == 0 && committed + UpTo(projections, k) == cut
  }

  lemma FittingSetsPass(committed: nat, cut: nat, projections: seq<nat>, charges: seq<nat>)
    requires Charges(projections, charges) && committed + UpTo(projections, |projections|) <= cut
    requires !FreeCallAtTheCut(committed, cut, projections)
    ensures AllAdmitted(committed, cut, projections, charges)
  {
    forall k | 0 <= k < |projections| ensures Admits(committed + UpTo(charges, k), 0, projections[k], cut) {
      ChargesStayUnder(projections, charges, k);
      UpToGrows(projections, k + 1, |projections|);
    }
  }

  /** Charged in full, the set shows both ways to be refused. */
  lemma ChargedInFull(committed: nat, cut: nat, projections: seq<nat>)
    requires projections != [] && AllAdmitted(committed, cut, projections, projections)
    ensures committed + UpTo(projections, |projections|) <= cut && !FreeCallAtTheCut(committed, cut, projections)
  {
    var n := |projections| - 1;
    assert Admits(committed + UpTo(projections, n), 0, projections[n], cut);
  }

  /** The calls of a set are admitted one by one, whatever each ends up costing, exactly when their
      projections fit together and no call is free and stands where the others may have reached the cut:
      the check refuses at the cut even what would cost nothing. */
  lemma SetsAreAdmittedExactlyWhen(committed: nat, cut: nat, projections: seq<nat>)
    ensures (forall charges :: Charges(projections, charges) ==> AllAdmitted(committed, cut, projections, charges))
            <==> projections == [] || (committed + UpTo(projections, |projections|) <= cut
                                       && !FreeCallAtTheCut(committed, cut, projections))
  {
    assert Charges(projections, projections);
    if projections != [] {
      if AllAdmitted(committed, cut, projections, projections) { ChargedInFull(committed, cut, projections); }
      forall charges | Charges(projections, charges) && committed + UpTo(projections, |projections|) <= cut
                       && !FreeCallAtTheCut(committed, cut, projections)
        ensures AllAdmitted(committed, cut, projections, charges)
      {
        FittingSetsPass(committed, cut, projections, charges);
      }
    }
  }

  lemma {:induction false} UpToCompares(a: seq<nat>, b: seq<nat>, n: nat)
    requires n <= |a| == |b| && forall k :: 0 <= k < |a| ==> a[k] <= b[k]
    ensures UpTo(a, n) <= UpTo(b, n)
  {
    if n > 0 { UpToCompares(a, b, n - 1); }
  }

  /** The set is asked about on the text the caller holds and made on the text that travels. Where no call
      grew on the way, a set that was passed is admitted exactly when it has no free call at the cut. */
  lemma PassedSetsAreAdmitted(committed: nat, cut: nat, held: seq<nat>, projections: seq<nat>)
    requires |held| == |projections| && forall k :: 0 <= k < |held| ==> projections[k] <= held[k]
    requires Admits(committed, 0, UpTo(held, |held|), cut)
    ensures (forall charges :: Charges(projections, charges) ==> AllAdmitted(committed, cut, projections, charges))
            <==> !FreeCallAtTheCut(committed, cut, projections)
  {
    UpToCompares(projections, held, |held|);
    SetsAreAdmittedExactlyWhen(committed, cut, projections);
  }

  /** Where one did, it need not be: a message of 40 characters projects the cut of 10 and is passed, and is
      refused at 13 when its markers have made it 50. */
  lemma GrownSetIsRefused()
    ensures var short, long := ProjectedMicro(0, 40, 0, 1000, 0), ProjectedMicro(0, 50, 0, 1000, 0);
      short == 10 && long == 13 && Admits(0, 0, short, 10) && !Admits(0, 0, long, 10)
  {
  }
}
