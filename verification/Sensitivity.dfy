/** Moving one weight and rebalancing the other three in whole hundredths. */
module Sensitivity {

  datatype Name = Severity | Negativity | Urgency | Tier

  const CENTS: int := 100

  /** The four weights as they are handed in. */
  datatype Weights = Weights(severity: real, negativity: real, urgency: real, tier: real)

  /** The four weights as they are handed out, in hundredths. */
  datatype Cents = Cents(severity: int, negativity: int, urgency: int, tier: int)

  function Of(w: Weights, n: Name): real {
    match n
    case Severity => w.severity
    case Negativity => w.negativity
    case Urgency => w.urgency
    case Tier => w.tier
  }

  function At(w: Cents, n: Name): int {
    match n
    case Severity => w.severity
    case Negativity => w.negativity
    case Urgency => w.urgency
    case Tier => w.tier
  }

  function Set(w: Cents, n: Name, cents: int): Cents {
    match n
    case Severity => w.(severity := cents)
    case Negativity => w.(negativity := cents)
    case Urgency => w.(urgency := cents)
    case Tier => w.(tier := cents)
  }

  predicate IsDistribution(w: Cents) {
    && w.severity >= 0 && w.negativity >= 0 && w.urgency >= 0 && w.tier >= 0
    && w.severity + w.negativity + w.urgency + w.tier == CENTS
  }

  /** `Refused` is the answer of null; `Invalid` the failure of the check on what is handed out. */
  datatype Perturbed = Refused | Invalid | Rebalanced(weights: Cents)

  /** The other three names, in the order they are listed. */
  function Others(name: Name): (o: seq<Name>)
    ensures |o| == 3 && o[0] != name && o[1] != name && o[2] != name
  {
    match name
    case Severity => [Negativity, Urgency, Tier]
    case Negativity => [Severity, Urgency, Tier]
    case Urgency => [Severity, Negativity, Tier]
    case Tier => [Severity, Negativity, Urgency]
  }

  lemma OtherIs(name: Name, n: Name)
    requires n != name
    ensures var o := Others(name); (n == o[0] || n == o[1] || n == o[2]) && n in o
  {
    match name {
      case Severity => assert Others(name)[0] == Negativity && Others(name)[1] == Urgency && Others(name)[2] == Tier;
      case Negativity => assert Others(name)[0] == Severity && Others(name)[1] == Urgency && Others(name)[2] == Tier;
      case Urgency => assert Others(name)[0] == Severity && Others(name)[1] == Negativity && Others(name)[2] == Tier;
      case Tier => assert Others(name)[0] == Severity && Others(name)[1] == Negativity && Others(name)[2] == Urgency;
    }
  }

  // ----- what each weight is given -----

  /** `Math.round`: halves go up. */
  function Round(x: real): int { (x + 0.5).Floor }

  function Hundredths(x: real): real { x * 100.0 }

  function Target(base: Weights, name: Name, delta: real): int { Round(Hundredths(Of(base, name) + delta)) }

  function Rest(base: Weights, name: Name): int { CENTS - Round(Hundredths(Of(base, name))) }

  /** How much of itself each other weight keeps. Nothing is spread over nothing. */
  function Scale(rest: int, left: int): real { if rest == 0 then 0.0 else left as real / rest as real }

  function Times(x: real, scale: real): real { x * scale }

  /** What weight `o` is given before the remainder is placed. */
  function Given(base: Weights, name: Name, target: int, o: Name): int {
    Round(Times(Hundredths(Of(base, o)), Scale(Rest(base, name), CENTS - target)))
  }

  function Drift(base: Weights, name: Name, target: int): int {
    var o := Others(name);
    CENTS - target - Given(base, name, target, o[0]) - Given(base, name, target, o[1]) - Given(base, name, target, o[2])
  }

  /** No other weight can bear the remainder. */
  predicate NoneBears(base: Weights, name: Name, target: int) {
    Drift(base, name, target) != 0
    && forall o :: o != name ==> Given(base, name, target, o) + Drift(base, name, target) < 0
  }

  // ----- largest first -----

  function ShareOf(cents: map<Name, int>, n: Name): int { if n in cents then cents[n] else 0 }

  ghost predicate Descending(cents: map<Name, int>, r: seq<Name>) {
    forall i, j :: 0 <= i < j < |r| ==> ShareOf(cents, r[i]) >= ShareOf(cents, r[j])
  }

  lemma PlacingDescends(cents: map<Name, int>, r: seq<Name>, n: Name, at: nat)
    requires Descending(cents, r) && at <= |r|
    requires forall k :: at <= k < |r| ==> ShareOf(cents, r[k]) < ShareOf(cents, n)
    requires at > 0 ==> ShareOf(cents, r[at - 1]) >= ShareOf(cents, n)
    ensures Descending(cents, r[..at] + [n] + r[at..])
  {
    var s := r[..at] + [n] + r[at..];
    forall k | 0 <= k < at ensures ShareOf(cents, r[k]) >= ShareOf(cents, n) {
      assert k == at - 1 || ShareOf(cents, r[k]) >= ShareOf(cents, r[at - 1]);
    }
    forall i, j | 0 <= i < j < |s| ensures ShareOf(cents, s[i]) >= ShareOf(cents, s[j]) {
      if j < at { assert s[i] == r[i] && s[j] == r[j]; }
      else if i < at < j { assert s[i] == r[i] && s[j] == r[j - 1]; }
      else if i > at { assert s[i] == r[i - 1] && s[j] == r[j - 1]; }
    }
  }

  lemma PlacingKeeps(r: seq<Name>, n: Name, at: nat)
    requires at <= |r|
    ensures forall x :: x in r[..at] + [n] + r[at..] <==> x in r || x == n
  {
    assert r == r[..at] + r[at..];
  }

  /** Behind every share at least as large, so equal shares keep their order. */
  method Placing(cents: map<Name, int>, r: seq<Name>, n: Name) returns (s: seq<Name>)
    requires Descending(cents, r)
    ensures Descending(cents, s) && |s| == |r| + 1 && forall x :: x in s <==> x in r || x == n
  {
    var at := |r|;
    while at > 0 && ShareOf(cents, r[at - 1]) < ShareOf(cents, n)
      invariant 0 <= at <= |r|
      invariant forall k :: at <= k < |r| ==> ShareOf(cents, r[k]) < ShareOf(cents, n)
    {
      at := at - 1;
    }
    PlacingDescends(cents, r, n, at);
    PlacingKeeps(r, n, at);
    s := r[..at] + [n] + r[at..];
  }

  method SortedByShare(cents: map<Name, int>, names: seq<Name>) returns (r: seq<Name>)
    ensures Descending(cents, r) && |r| == |names| && forall x :: x in r <==> x in names
  {
    r := [];
    for i := 0 to |names|
      invariant Descending(cents, r) && |r| == i && forall x :: x in r <==> x in names[..i]
    {
      r := Placing(cents, r, names[i]);
      assert names[..i + 1] == names[..i] + [names[i]];
    }
    assert names[..|names|] == names;
  }

  // ----- the perturbation -----

  ghost predicate Largest(base: Weights, name: Name, target: int, largest: Name) {
    largest != name && forall o :: o != name ==> Given(base, name, target, o) <= Given(base, name, target, largest)
  }

  /** The moved weight stands at its target; each of the others has its share, and `taker` the remainder. */
  ghost predicate Placed(base: Weights, name: Name, target: int, w: Cents, taker: Name) {
    && At(w, name) == target && taker != name
    && forall o :: o != name ==>
         At(w, o) == Given(base, name, target, o) + if o == taker then Drift(base, name, target) else 0
  }

  ghost predicate AreShares(base: Weights, name: Name, target: int, cents: map<Name, int>) {
    (forall o :: o in cents <==> o != name) && forall o :: o != name ==> cents[o] == Given(base, name, target, o)
  }

  method Spread(base: Weights, name: Name, target: int) returns (cents: map<Name, int>)
    ensures AreShares(base, name, target, cents)
  {
    var others := Others(name);
    cents := map[];
    for i := 0 to |others|
      invariant forall o :: o in cents <==> o in others[..i]
      invariant forall o :: o in cents ==> cents[o] == Given(base, name, target, o)
    {
      assert others[..i + 1] == others[..i] + [others[i]];
      cents := cents[others[i] := Given(base, name, target, others[i])];
    }
    assert others[..|others|] == others;
    forall o | o != name ensures o in cents { OtherIs(name, o); }
  }

  lemma FirstIsMost(cents: map<Name, int>, order: seq<Name>, i: nat)
    requires Descending(cents, order) && i < |order|
    ensures ShareOf(cents, order[0]) >= ShareOf(cents, order[i])
  {
  }

  /** The remainder goes to the first weight, largest first, that stays non-negative under it: to the first
      of all, or to none. */
  method PlaceRemainder(cents: map<Name, int>, order: seq<Name>, drift: int) returns (after: map<Name, int>, left: int)
    requires |order| > 0 && Descending(cents, order) && forall i :: 0 <= i < |order| ==> order[i] in cents
    ensures if drift == 0 || cents[order[0]] + drift >= 0 then
              left == 0 && after == cents[order[0] := cents[order[0]] + drift]
            else left == drift && after == cents
  {
    after, left := cents, drift;
    for i := 0 to |order|
      invariant if i > 0 && cents[order[0]] + drift >= 0 then
                  left == 0 && after == cents[order[0] := cents[order[0]] + drift]
                else left == drift && after == cents
    {
      if left == 0 { return; }
      FirstIsMost(cents, order, i);
      var adjusted := after[order[i]] + left;
      if adjusted >= 0 {
        after := after[order[i] := adjusted];
        left := 0;
      }
    }
  }

  /** Any weights may be handed in. The answer is null exactly when the moved weight would leave the range or
      no other can bear what rounding leaves over; otherwise the four sum to one hundred, each of the others
      is its rounded share but for the largest, which carries the remainder, and the check on them fails
      exactly when one is negative. */
  method Perturb(base: Weights, name: Name, delta: real) returns (r: Perturbed, ghost w: Cents, ghost taker: Name)
    ensures var target := Target(base, name, delta);
      && (r.Refused? <==> !(0 <= target <= CENTS) || NoneBears(base, name, target))
      && (!r.Refused? ==> Placed(base, name, target, w, taker) && Largest(base, name, target, taker))
      && (!r.Refused? ==> w.severity + w.negativity + w.urgency + w.tier == CENTS)
      && (r.Rebalanced? ==> r.weights == w && IsDistribution(w))
      && (r.Invalid? ==> exists n :: At(w, n) < 0)
  {
    w, taker := Cents(0, 0, 0, 0), Severity;
    var target := Target(base, name, delta);
    if target < 0 || target > CENTS { return Refused, w, taker; }
    var others := Others(name);
    var cents := Spread(base, name, target);
    ghost var shares := cents;
    var drift := CENTS - target - cents[others[0]] - cents[others[1]] - cents[others[2]];
    var order := SortedByShare(cents, others);
    taker := order[0];
    FirstTakes(base, name, target, cents, order);
    var left;
    cents, left := PlaceRemainder(cents, order, drift);
    if left != 0 { return Refused, w, taker; }
    var next := Gathered(name, target, cents);
    w := next;
    NextIsPlaced(base, name, target, shares, cents, taker, next);
    PlacedSums(base, name, target, next, taker);
    if !IsDistribution(next) {
      SomeNegative(next);
      return Invalid, w, taker;
    }
    r := Rebalanced(next);
  }

  /** The target and what the others hold, as one record. */
  function Gathered(name: Name, target: int, cents: map<Name, int>): Cents
    requires forall o :: o != name ==> o in cents
  {
    var o := Others(name);
    Set(Set(Set(Set(Cents(0, 0, 0, 0), name, target), o[0], cents[o[0]]), o[1], cents[o[1]]), o[2], cents[o[2]])
  }

  lemma SomeNegative(w: Cents)
    requires !IsDistribution(w) && w.severity + w.negativity + w.urgency + w.tier == CENTS
    ensures exists n :: At(w, n) < 0
  {
    assert At(w, Severity) < 0 || At(w, Negativity) < 0 || At(w, Urgency) < 0 || At(w, Tier) < 0;
  }

  lemma FirstTakes(base: Weights, name: Name, target: int, cents: map<Name, int>, order: seq<Name>)
    requires AreShares(base, name, target, cents)
    requires Descending(cents, order) && |order| == 3 && forall x :: x in order <==> x in Others(name)
    ensures Largest(base, name, target, order[0]) && forall i :: 0 <= i < |order| ==> order[i] in cents
    ensures NoneBears(base, name, target) <==>
      Drift(base, name, target) != 0 && cents[order[0]] + Drift(base, name, target) < 0
  {
    forall i | 0 <= i < |order| ensures order[i] in cents {
      assert order[i] in order && order[i] in Others(name);
    }
    FirstIsLargest(cents, order);
    forall o | o != name ensures Given(base, name, target, o) <= Given(base, name, target, order[0]) {
      OtherIs(name, o);
      assert o in order && ShareOf(cents, o) <= ShareOf(cents, order[0]);
    }
  }

  lemma FirstIsLargest(cents: map<Name, int>, order: seq<Name>)
    requires Descending(cents, order) && order != []
    ensures forall n :: n in order ==> ShareOf(cents, n) <= ShareOf(cents, order[0])
  {
    forall n | n in order ensures ShareOf(cents, n) <= ShareOf(cents, order[0]) {
      var i :| 0 <= i < |order| && order[i] == n;
    }
  }

  lemma SetAll(name: Name, target: int, a: int, b: int, c: int)
    ensures var o := Others(name);
      var w := Set(Set(Set(Set(Cents(0, 0, 0, 0), name, target), o[0], a), o[1], b), o[2], c);
      At(w, name) == target && At(w, o[0]) == a && At(w, o[1]) == b && At(w, o[2]) == c
  {
  }

  lemma NextIsPlaced(base: Weights, name: Name, target: int, shares: map<Name, int>, cents: map<Name, int>,
                     taker: Name, next: Cents)
    requires AreShares(base, name, target, shares) && taker != name
    requires cents == shares[taker := shares[taker] + Drift(base, name, target)]
    requires (forall o :: o != name ==> o in cents) && next == Gathered(name, target, cents)
    ensures Placed(base, name, target, next, taker)
  {
    var o := Others(name);
    SetAll(name, target, cents[o[0]], cents[o[1]], cents[o[2]]);
    forall n | n != name ensures At(next, n) == cents[n] { OtherIs(name, n); }
  }

  lemma PlacedSums(base: Weights, name: Name, target: int, w: Cents, taker: Name)
    requires Placed(base, name, target, w, taker)
    ensures w.severity + w.negativity + w.urgency + w.tier == CENTS
  {
    var o := Others(name);
    OtherIs(name, taker);
    assert At(w, o[0]) + At(w, o[1]) + At(w, o[2]) == CENTS - target;
  }

  // ----- shares and what rounding leaves over -----

  /** `Math.round(weight * left / rest)`: halves go up. Nothing is spread over nothing. */
  function Share(weight: nat, left: nat, rest: nat): nat {
    if rest == 0 then 0 else (2 * (weight * left) + rest) / (2 * rest)
  }

  lemma ShareIsNear(weight: nat, left: nat, rest: nat)
    requires rest > 0
    ensures 2 * (weight * left) - rest < 2 * (rest * Share(weight, left, rest)) <= 2 * (weight * left) + rest
  {
    var x, d := 2 * (weight * left) + rest, 2 * rest;
    assert x == d * (x / d) + x % d;
    assert d * (x / d) == 2 * (rest * (x / d));
  }

  lemma Distributes(k: int, a: int, b: int, c: int)
    ensures k * (a + b + c) == k * a + k * b + k * c
  {
  }

  /** Three shares of one whole, each rounded, miss it by less than two. */
  lemma DriftIsSmall(a: nat, b: nat, c: nat, left: nat)
    requires a + b + c > 0
    ensures var rest := a + b + c;
      -1 <= left - Share(a, left, rest) - Share(b, left, rest) - Share(c, left, rest) <= 1
  {
    var rest := a + b + c;
    var p, q, r := Share(a, left, rest), Share(b, left, rest), Share(c, left, rest);
    ShareIsNear(a, left, rest);
    ShareIsNear(b, left, rest);
    ShareIsNear(c, left, rest);
    Distributes(left, a, b, c);
    Distributes(rest, p, q, r);
    Missed(rest, left, p + q + r);
  }

  lemma Missed(rest: int, left: int, total: int)
    requires rest > 0 && 2 * (left * rest) - 3 * rest < 2 * (rest * total) <= 2 * (left * rest) + 3 * rest
    ensures -1 <= left - total <= 1
  {
    var miss := left - total;
    assert rest * miss == left * rest - rest * total;
    Steps(rest, miss);
  }

  lemma Steps(rest: int, miss: int)
    requires rest > 0
    ensures miss >= 2 ==> rest * miss >= 2 * rest
    ensures miss <= -2 ==> rest * miss <= -2 * rest
  {
  }

  // ----- weights held in hundredths -----

  /** `base` is the distribution `held`, carried as fractions of one. */
  ghost predicate Carries(base: Weights, held: Cents) {
    IsDistribution(held) && forall n :: Hundredths(Of(base, n)) == At(held, n) as real
  }

  lemma RoundWhole(k: int)
    ensures Round(k as real) == k
  {
  }

  /** A quotient times its divisor is what was divided, and nothing else is. */
  lemma Quotient(x: real, y: real, q: real)
    requires y > 0.0
    ensures x / y * y == x
    ensures q * y == x ==> x / y == q
  {
  }

  lemma {:induction false} ProductAsReal(a: int, b: nat)
    ensures (a * b) as real == a as real * b as real
  {
    if b > 0 {
      ProductAsReal(a, b - 1);
      assert a * b == a * (b - 1) + a;
      assert a as real * b as real == a as real * (b - 1) as real + a as real;
    }
  }

  lemma SignOfProduct(q: real, d: real)
    requires d > 0.0
    ensures (q * d > 0.0 <==> q > 0.0) && (q * d < 0.0 <==> q < 0.0)
  {
  }

  lemma Within(x: real, d: real)
    requires d > 0.0 && 0.0 <= x * d < d
    ensures 0.0 <= x < 1.0
  {
    SignOfProduct(x, d);
    SignOfProduct(1.0 - x, d);
    assert (1.0 - x) * d == d - x * d;
  }

  lemma QuotientWithin(n: real, d: real, k: real, m: real)
    requires d > 0.0 && n == k * d + m && 0.0 <= m < d
    ensures k <= n / d < k + 1.0
  {
    var x := n / d - k;
    Quotient(n, d, n / d);
    assert x * d == m;
    Within(x, d);
  }

  lemma FloorIs(q: real, k: int)
    requires k as real <= q < k as real + 1.0
    ensures q.Floor == k
  {
  }

  lemma FloorOfQuotient(n: int, d: nat)
    requires d > 0
    ensures (n as real / d as real).Floor == n / d
  {
    var k, m := n / d, n % d;
    assert n == k * d + m;
    ProductAsReal(k, d);
    QuotientWithin(n as real, d as real, k as real, m as real);
    FloorIs(n as real / d as real, k);
  }

  lemma HalfUp(w: real, l: real, r: real)
    requires r > 0.0
    ensures Times(w, l / r) + 0.5 == (2.0 * (w * l) + r) / (2.0 * r)
  {
    Quotient(l, r, l / r);
    assert w * (l / r) * r == w * l;
    assert (w * (l / r) + 0.5) * (2.0 * r) == 2.0 * (w * l) + r;
    Quotient(2.0 * (w * l) + r, 2.0 * r, w * (l / r) + 0.5);
  }

  lemma HalfUpInWholes(weight: nat, left: nat, rest: nat, n: nat, d: nat)
    requires rest > 0 && n == 2 * (weight * left) + rest && d == 2 * rest
    ensures Times(weight as real, Scale(rest, left)) + 0.5 == n as real / d as real
  {
    var w, l, r := weight as real, left as real, rest as real;
    ProductAsReal(weight, left);
    HalfUp(w, l, r);
    assert Scale(rest, left) == l / r;
    assert n as real == 2.0 * (w * l) + r && d as real == 2.0 * r;
  }

  /** On whole hundredths the real share is the share of integers. */
  lemma ShareIsRounded(weight: nat, left: nat, rest: nat)
    ensures Round(Times(weight as real, Scale(rest, left))) == Share(weight, left, rest)
  {
    if rest > 0 {
      var n, d := 2 * (weight * left) + rest, 2 * rest;
      HalfUpInWholes(weight, left, rest, n, d);
      FloorOfQuotient(n, d);
    } else {
      assert Times(weight as real, 0.0) == 0.0;
    }
  }

  lemma GivenInHundredths(base: Weights, held: Cents, name: Name, target: int, o: Name)
    requires Carries(base, held) && 0 <= target <= CENTS && o != name
    ensures Rest(base, name) == CENTS - At(held, name) >= 0
    ensures Given(base, name, target, o) == Share(At(held, o), CENTS - target, CENTS - At(held, name))
  {
    assert Hundredths(Of(base, name)) == At(held, name) as real && Hundredths(Of(base, o)) == At(held, o) as real;
    RoundWhole(At(held, name));
    ShareIsRounded(At(held, o), CENTS - target, CENTS - At(held, name));
  }

  /** The remainder is at most one, unless the weight that moved was all there is. */
  lemma DriftBound(base: Weights, held: Cents, name: Name, target: int)
    requires Carries(base, held) && 0 <= target <= CENTS
    ensures At(held, name) < CENTS ==> -1 <= Drift(base, name, target) <= 1
    ensures At(held, name) == CENTS ==> Drift(base, name, target) == CENTS - target
  {
    var o := Others(name);
    GivenInHundredths(base, held, name, target, o[0]);
    GivenInHundredths(base, held, name, target, o[1]);
    GivenInHundredths(base, held, name, target, o[2]);
    assert At(held, o[0]) + At(held, o[1]) + At(held, o[2]) == CENTS - At(held, name);
    if At(held, name) < CENTS {
      DriftIsSmall(At(held, o[0]), At(held, o[1]), At(held, o[2]), CENTS - target);
    }
  }

  /** Held in hundredths, and moved by whole hundredths, a distribution is refused exactly when the moved
      weight leaves the range: some other weight can always bear the remainder. */
  lemma HundredthsAreBorne(base: Weights, held: Cents, name: Name, delta: int)
    requires Carries(base, held)
    ensures Target(base, name, delta as real / 100.0) == At(held, name) + delta
    ensures 0 <= At(held, name) + delta <= CENTS ==> !NoneBears(base, name, At(held, name) + delta)
  {
    var target := At(held, name) + delta;
    assert Hundredths(Of(base, name) + delta as real / 100.0) == target as real;
    RoundWhole(target);
    if 0 <= target <= CENTS {
      DriftBound(base, held, name, target);
      var o := Others(name);
      GivenInHundredths(base, held, name, target, o[0]);
      GivenInHundredths(base, held, name, target, o[1]);
      GivenInHundredths(base, held, name, target, o[2]);
      if Drift(base, name, target) < 0 {
        assert Given(base, name, target, o[0]) > 0 || Given(base, name, target, o[1]) > 0
            || Given(base, name, target, o[2]) > 0;
      }
    }
  }

  /** And all that is handed out is then valid. */
  lemma HundredthsStayValid(base: Weights, held: Cents, name: Name, target: int, w: Cents, taker: Name)
    requires Carries(base, held) && 0 <= target <= CENTS
    requires Placed(base, name, target, w, taker) && Largest(base, name, target, taker)
    requires !NoneBears(base, name, target)
    ensures forall n :: At(w, n) >= 0
  {
    forall n | n != name ensures Given(base, name, target, n) >= 0 { GivenInHundredths(base, held, name, target, n); }
    assert At(w, taker) >= 0;
  }

  /** A distribution not held in hundredths may be refused without moving at all: 0.985 rounds up to 99, the
      three of 0.005 to one each, and none of them can bear what that is too much. */
  const UNEVEN := Weights(0.985, 0.005, 0.005, 0.005)

  lemma UnevenIsRefused()
    ensures Target(UNEVEN, Severity, 0.0) == 99 && NoneBears(UNEVEN, Severity, 99)
  {
    assert Rest(UNEVEN, Severity) == 1;
    assert Scale(1, 1) == 1.0;
    forall o | o != Severity ensures Given(UNEVEN, Severity, 99, o) == 1 {
      assert Times(Hundredths(Of(UNEVEN, o)), 1.0) == 0.5;
    }
  }
}
