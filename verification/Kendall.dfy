/** Kendall's tau between two orders, and what its values mean. */
module Kendall {
  import opened Sequences
  import opened MergeCount

  /** A ticket identifier, as text. */
  type Id = seq<nat>

  datatype Tau = Tau(value: real) | LengthsDiffer | NotInBaseline

  /** Where a lookup built by setting every id in turn finds `x`: its last place, or -1. */
  function Place(s: seq<Id>, x: Id): (i: int)
    ensures -1 <= i < |s|
    ensures i >= 0 ==> s[i] == x
    ensures i < 0 <==> x !in s
  {
    if s == [] then -1 else if s[|s| - 1] == x then |s| - 1 else Place(s[..|s| - 1], x)
  }

  function Ranks(baseline: seq<Id>, candidate: seq<Id>): (r: seq<int>)
    ensures |r| == |candidate|
  {
    seq(|candidate|, i requires 0 <= i < |candidate| => Place(baseline, candidate[i]))
  }

  predicate Ranked(baseline: seq<Id>, candidate: seq<Id>) {
    |baseline| == |candidate| && forall i :: 0 <= i < |candidate| ==> candidate[i] in baseline
  }

  function Coefficient(n: nat, inversions: nat): real
    requires n >= 2
  {
    1.0 - (4 * inversions) as real / (n * (n - 1)) as real
  }

  function TauOf(baseline: seq<Id>, candidate: seq<Id>): Tau {
    if |baseline| != |candidate| then LengthsDiffer
    else if |baseline| < 2 then Tau(1.0)
    else if !Ranked(baseline, candidate) then NotInBaseline
    else Tau(Coefficient(|baseline|, Inversions(Ranks(baseline, candidate))))
  }

  method KendallTau(baseline: seq<Id>, candidate: seq<Id>) returns (tau: Tau)
    ensures tau == TauOf(baseline, candidate)
  {
    if |baseline| != |candidate| { return LengthsDiffer; }
    var n := |baseline|;
    if n < 2 { return Tau(1.0); }
    var ranks: seq<int> := [];
    var i := 0;
    while i < n
      invariant 0 <= i <= n && |ranks| == i
      invariant forall k :: 0 <= k < i ==> candidate[k] in baseline && ranks[k] == Place(baseline, candidate[k])
    {
      var value := Place(baseline, candidate[i]);
      if value < 0 { return NotInBaseline; }
      ranks := ranks + [value];
      i := i + 1;
    }
    assert ranks == Ranks(baseline, candidate);
    var inversions := CountInversions(ranks);
    tau := Tau(Coefficient(n, inversions));
  }

  // ----- the count, as a set of pairs -----

  function Inverted(s: seq<int>): set<(int, int)> {
    set i, j | 0 <= i < |s| && 0 <= j < |s| && i < j && s[i] > s[j] :: (i, j)
  }

  function Firsts(s: seq<int>, x: int): set<int> {
    set j | 0 <= j < |s| && s[j] < x
  }

  lemma {:induction false} SameSize<A, B>(a: set<A>, b: set<B>, f: A -> B)
    requires forall x :: x in a ==> f(x) in b
    requires forall x, y :: x in a && y in a && f(x) == f(y) ==> x == y
    ensures |a| <= |b|
    decreases |a|
  {
    if a != {} {
      var x :| x in a;
      SameSize(a - {x}, b - {f(x)}, f);
    }
  }

  lemma {:induction false} BelowCounts(s: seq<int>, x: int)
    ensures Below(s, x) == |Firsts(s, x)|
  {
    if s == [] {
      assert Firsts(s, x) == {};
    } else {
      BelowCounts(s[1..], x);
      FirstsBehindHead(s, x);
      var rest := Firsts(s, x) - {0};
      if s[0] < x { assert Firsts(s, x) == rest + {0}; } else { assert Firsts(s, x) == rest; }
    }
  }

  lemma FirstsBehindHead(s: seq<int>, x: int)
    requires s != []
    ensures |Firsts(s, x) - {0}| == |Firsts(s[1..], x)|
  {
    var t, rest := s[1..], Firsts(s, x) - {0};
    var up := (j: int) => j + 1;
    var down := (j: int) => j - 1;
    forall j | j in Firsts(t, x) ensures up(j) in rest { IsFirst(t, x, j); IsFirst(s, x, up(j)); }
    forall j | j in rest ensures down(j) in Firsts(t, x) { IsFirst(s, x, j); IsFirst(t, x, down(j)); }
    SameSize(Firsts(t, x), rest, up);
    SameSize(rest, Firsts(t, x), down);
  }

  lemma IsFirst(s: seq<int>, x: int, j: int)
    ensures j in Firsts(s, x) <==> 0 <= j < |s| && s[j] < x
  {
  }

  lemma IsInverted(s: seq<int>, p: (int, int))
    ensures p in Inverted(s) <==> 0 <= p.0 < p.1 < |s| && s[p.0] > s[p.1]
  {
  }

  /** The inverted pairs the first element is part of, and the others. */
  function WithHead(s: seq<int>): set<(int, int)> { set p | p in Inverted(s) && p.0 == 0 }

  function BehindHead(s: seq<int>): set<(int, int)> { set p | p in Inverted(s) && p.0 != 0 }

  lemma IsWithHead(s: seq<int>, p: (int, int))
    ensures p in WithHead(s) <==> 0 == p.0 < p.1 < |s| && s[0] > s[p.1]
  {
    IsInverted(s, p);
  }

  lemma IsBehindHead(s: seq<int>, p: (int, int))
    ensures p in BehindHead(s) <==> 0 < p.0 < p.1 < |s| && s[p.0] > s[p.1]
  {
    IsInverted(s, p);
  }

  function FromHead(j: int): (int, int) { (0, j + 1) }

  function Partner(p: (int, int)): int { p.1 - 1 }

  function Up(p: (int, int)): (int, int) { (p.0 + 1, p.1 + 1) }

  function Down(p: (int, int)): (int, int) { (p.0 - 1, p.1 - 1) }

  lemma FromHeadFits(s: seq<int>, j: int)
    requires s != [] && j in Firsts(s[1..], s[0])
    ensures FromHead(j) in WithHead(s) && Partner(FromHead(j)) == j
  {
    IsFirst(s[1..], s[0], j);
    IsWithHead(s, FromHead(j));
  }

  lemma PartnerFits(s: seq<int>, p: (int, int))
    requires p in WithHead(s)
    ensures s != [] && Partner(p) in Firsts(s[1..], s[0]) && FromHead(Partner(p)) == p
  {
    IsWithHead(s, p);
    IsFirst(s[1..], s[0], Partner(p));
  }

  lemma UpFits(s: seq<int>, p: (int, int))
    requires s != [] && p in Inverted(s[1..])
    ensures Up(p) in BehindHead(s) && Down(Up(p)) == p
  {
    IsInverted(s[1..], p);
    IsBehindHead(s, Up(p));
  }

  lemma DownFits(s: seq<int>, p: (int, int))
    requires p in BehindHead(s)
    ensures s != [] && Down(p) in Inverted(s[1..]) && Up(Down(p)) == p
  {
    IsBehindHead(s, p);
    IsInverted(s[1..], Down(p));
  }

  /** Two sets that map into each other and back have one size. */
  lemma PairedOff<A, B>(a: set<A>, b: set<B>, f: A -> B, g: B -> A)
    requires forall x :: x in a ==> f(x) in b && g(f(x)) == x
    requires forall y :: y in b ==> g(y) in a && f(g(y)) == y
    ensures |a| == |b|
  {
    forall x, y | x in a && y in a && f(x) == f(y) ensures x == y { assert g(f(x)) == g(f(y)); }
    forall x, y | x in b && y in b && g(x) == g(y) ensures x == y { assert f(g(x)) == f(g(y)); }
    SameSize(a, b, f);
    SameSize(b, a, g);
  }

  lemma PairsWithHead(s: seq<int>)
    requires s != []
    ensures |WithHead(s)| == |Firsts(s[1..], s[0])|
  {
    forall j | j in Firsts(s[1..], s[0])
      ensures FromHead(j) in WithHead(s) && Partner(FromHead(j)) == j
    {
      FromHeadFits(s, j);
    }
    forall p | p in WithHead(s)
      ensures Partner(p) in Firsts(s[1..], s[0]) && FromHead(Partner(p)) == p
    {
      PartnerFits(s, p);
    }
    PairedOff(Firsts(s[1..], s[0]), WithHead(s), FromHead, Partner);
  }

  lemma PairsBehindHead(s: seq<int>)
    requires s != []
    ensures |BehindHead(s)| == |Inverted(s[1..])|
  {
    forall p | p in Inverted(s[1..]) ensures Up(p) in BehindHead(s) && Down(Up(p)) == p { UpFits(s, p); }
    forall p | p in BehindHead(s) ensures Down(p) in Inverted(s[1..]) && Up(Down(p)) == p { DownFits(s, p); }
    PairedOff(Inverted(s[1..]), BehindHead(s), Up, Down);
  }

  /** The recursive count is the number of pairs out of order. */
  lemma {:induction false} InversionsCountPairs(s: seq<int>)
    ensures Inversions(s) == |Inverted(s)|
  {
    if s == [] {
      assert Inverted(s) == {};
    } else {
      InversionsCountPairs(s[1..]);
      BelowCounts(s[1..], s[0]);
      PairsWithHead(s);
      PairsBehindHead(s);
      assert Inverted(s) == WithHead(s) + BehindHead(s) && WithHead(s) !! BehindHead(s);
    }
  }

  // ----- extremes of the count -----

  lemma {:induction false} BelowExtremes(s: seq<int>, x: int)
    ensures Below(s, x) <= |s|
    ensures Below(s, x) == |s| <==> forall i :: 0 <= i < |s| ==> s[i] < x
    ensures Below(s, x) == 0 <==> forall i :: 0 <= i < |s| ==> s[i] >= x
  {
    if s != [] {
      BelowExtremes(s[1..], x);
      assert forall i :: 0 < i < |s| ==> s[i] == s[1..][i - 1];
    }
  }

  ghost predicate Descending(s: seq<int>) { forall i, j :: 0 <= i < j < |s| ==> s[i] > s[j] }

  lemma AscendingCons(s: seq<int>)
    requires s != []
    ensures Ascending(s) <==> Ascending(s[1..]) && forall i :: 0 <= i < |s| - 1 ==> s[1..][i] >= s[0]
  {
    var t := s[1..];
    if Ascending(s) {
      forall i, j | 0 <= i < j < |t| ensures InOrder(t, i, j) { assert InOrder(s, i + 1, j + 1); }
      forall i | 0 <= i < |t| ensures t[i] >= s[0] { assert InOrder(s, 0, i + 1); }
    }
    if Ascending(t) && forall i :: 0 <= i < |t| ==> t[i] >= s[0] {
      forall i, j | 0 <= i < j < |s| ensures InOrder(s, i, j) {
        if i > 0 { assert InOrder(t, i - 1, j - 1); } else { assert s[j] == t[j - 1]; }
      }
    }
  }

  lemma DescendingCons(s: seq<int>)
    requires s != []
    ensures Descending(s) <==> Descending(s[1..]) && forall i :: 0 <= i < |s| - 1 ==> s[1..][i] < s[0]
  {
    var t := s[1..];
    if Descending(t) && forall i :: 0 <= i < |t| ==> t[i] < s[0] {
      forall i, j | 0 <= i < j < |s| ensures s[i] > s[j] {
        assert s[j] == t[j - 1];
        if i > 0 { assert s[i] == t[i - 1]; }
      }
    }
  }

  function Pairs(n: nat): nat { if n == 0 then 0 else Pairs(n - 1) + n - 1 }

  lemma {:induction false} PairsTwice(n: nat)
    ensures 2 * Pairs(n) == n * (n - 1)
  {
    if n > 0 {
      PairsTwice(n - 1);
      assert n * (n - 1) == (n - 1) * (n - 2) + 2 * (n - 1);
    }
  }

  lemma {:induction false} CountExtremes(s: seq<int>)
    ensures Inversions(s) <= Pairs(|s|)
    ensures Inversions(s) == 0 <==> Ascending(s)
    ensures Inversions(s) == Pairs(|s|) <==> Descending(s)
  {
    if s != [] {
      CountExtremes(s[1..]);
      BelowExtremes(s[1..], s[0]);
      AscendingCons(s);
      DescendingCons(s);
    }
  }

  lemma InversionExtremes(s: seq<int>)
    ensures 2 * Inversions(s) <= |s| * (|s| - 1)
    ensures Inversions(s) == 0 <==> Ascending(s)
    ensures 2 * Inversions(s) == |s| * (|s| - 1) <==> Descending(s)
  {
    CountExtremes(s);
    PairsTwice(|s|);
  }

  // ----- two orders of the same ids -----

  /** Both list every id once, and the same ids. */
  ghost predicate Reorders(baseline: seq<Id>, candidate: seq<Id>) {
    Distinct(baseline) && Distinct(candidate) && Ranked(baseline, candidate)
  }

  lemma RanksDiffer(baseline: seq<Id>, candidate: seq<Id>, i: nat, j: nat)
    requires Reorders(baseline, candidate) && i < |candidate| && j < |candidate| && i != j
    ensures Ranks(baseline, candidate)[i] != Ranks(baseline, candidate)[j]
  {
    assert candidate[i] != candidate[j];
  }

  lemma PlaceIsUnique(s: seq<Id>, i: nat)
    requires Distinct(s) && i < |s|
    ensures Place(s, s[i]) == i
  {
    var p := Place(s, s[i]);
    assert s[p] == s[i];
  }

  /** Distinct values of [0, n) in ascending order leave no gap. */
  lemma {:induction false} AscendingFills(r: seq<int>, i: nat)
    requires Ascending(r) && Distinct(r) && (forall k :: 0 <= k < |r| ==> 0 <= r[k] < |r|) && i < |r|
    ensures i <= r[i]
  {
    if i > 0 {
      AscendingFills(r, i - 1);
      assert InOrder(r, i - 1, i);
    }
  }

  lemma {:induction false} AscendingFillsDown(r: seq<int>, i: nat)
    requires Ascending(r) && Distinct(r) && (forall k :: 0 <= k < |r| ==> 0 <= r[k] < |r|) && i < |r|
    ensures r[i] <= i
    decreases |r| - i
  {
    if i + 1 < |r| {
      AscendingFillsDown(r, i + 1);
      assert InOrder(r, i, i + 1);
    }
  }

  lemma {:induction false} DescendingFills(r: seq<int>, i: nat)
    requires Descending(r) && (forall k :: 0 <= k < |r| ==> 0 <= r[k] < |r|) && i < |r|
    ensures r[i] <= |r| - 1 - i
  {
    if i > 0 { DescendingFills(r, i - 1); }
  }

  lemma {:induction false} DescendingFillsDown(r: seq<int>, i: nat)
    requires Descending(r) && (forall k :: 0 <= k < |r| ==> 0 <= r[k] < |r|) && i < |r|
    ensures r[i] >= |r| - 1 - i
    decreases |r| - i
  {
    if i + 1 < |r| { DescendingFillsDown(r, i + 1); }
  }

  lemma SameOrder(b: seq<Id>, c: seq<Id>)
    requires Distinct(b) && Ranked(b, c)
    ensures Ascending(Ranks(b, c)) && Distinct(c) <==> b == c
  {
    var r := Ranks(b, c);
    if Ascending(r) && Distinct(c) {
      forall i | 0 <= i < |b| ensures b[i] == c[i] {
        assert Distinct(r) by {
          forall i, j | 0 <= i < j < |r| ensures r[i] != r[j] { RanksDiffer(b, c, i, j); }
        }
        AscendingFills(r, i);
        AscendingFillsDown(r, i);
      }
    }
    if b == c {
      forall i, j | 0 <= i < j < |r| ensures InOrder(r, i, j) {
        PlaceIsUnique(b, i);
        PlaceIsUnique(b, j);
      }
    }
  }

  ghost predicate Reversed(b: seq<Id>, c: seq<Id>) {
    |b| == |c| && forall i :: 0 <= i < |c| ==> c[i] == b[|b| - 1 - i]
  }

  lemma ReverseOrder(b: seq<Id>, c: seq<Id>)
    requires Distinct(b) && Ranked(b, c)
    ensures Descending(Ranks(b, c)) <==> Reversed(b, c)
  {
    var r := Ranks(b, c);
    if Descending(r) {
      forall i | 0 <= i < |c| ensures c[i] == b[|b| - 1 - i] {
        DescendingFills(r, i);
        DescendingFillsDown(r, i);
      }
    }
    if Reversed(b, c) {
      forall i, j | 0 <= i < j < |r| ensures r[i] > r[j] {
        PlaceIsUnique(b, |b| - 1 - i);
        PlaceIsUnique(b, |b| - 1 - j);
      }
    }
  }

  // ----- the coefficient -----

  lemma CoefficientExtremes(n: nat, inversions: nat)
    requires n >= 2 && 2 * inversions <= n * (n - 1)
    ensures -1.0 <= Coefficient(n, inversions) <= 1.0
    ensures Coefficient(n, inversions) == 1.0 <==> inversions == 0
    ensures Coefficient(n, inversions) == -1.0 <==> 2 * inversions == n * (n - 1)
  {
    var d := n * (n - 1);
    assert d > 0;
    Share(4 * inversions, d);
  }

  lemma Share(x: nat, d: nat)
    requires d > 0 && x <= 2 * d
    ensures 0.0 <= x as real / d as real <= 2.0
    ensures x as real / d as real == 0.0 <==> x == 0
    ensures x as real / d as real == 2.0 <==> x == 2 * d
  {
    var q := x as real / d as real;
    assert q * d as real == x as real;
    assert (q - 2.0) * d as real == x as real - 2.0 * d as real;
    SignOfProduct(q, d as real);
    SignOfProduct(q - 2.0, d as real);
  }

  lemma SignOfProduct(q: real, d: real)
    requires d > 0.0
    ensures (q * d > 0.0 <==> q > 0.0) && (q * d < 0.0 <==> q < 0.0)
  {
  }

  /** Of any candidate that is not refused, repeating ids or not: one means its ranks never fall, minus one
      that they always do. */
  lemma TauReadsTheRanks(b: seq<Id>, c: seq<Id>)
    requires Ranked(b, c) && |b| >= 2
    ensures TauOf(b, c).Tau? && -1.0 <= TauOf(b, c).value <= 1.0
    ensures TauOf(b, c).value == 1.0 <==> Ascending(Ranks(b, c))
    ensures TauOf(b, c).value == -1.0 <==> Descending(Ranks(b, c))
  {
    InversionExtremes(Ranks(b, c));
    CoefficientExtremes(|b|, Inversions(Ranks(b, c)));
  }

  /** Against a baseline without repetition, one and no id twice mean the same order and nothing else, and
      minus one the reverse and nothing else. */
  lemma TauMeansWhatItSays(b: seq<Id>, c: seq<Id>)
    requires Distinct(b) && Ranked(b, c) && |b| >= 2
    ensures TauOf(b, c).value == 1.0 && Distinct(c) <==> b == c
    ensures TauOf(b, c).value == -1.0 <==> Reversed(b, c)
  {
    TauReadsTheRanks(b, c);
    SameOrder(b, c);
    ReverseOrder(b, c);
  }

  // ----- symmetry -----

  function Upto(n: nat): (s: set<int>)
    ensures |s| == n && forall i :: i in s <==> 0 <= i < n
  {
    if n == 0 then {} else Upto(n - 1) + {n - 1}
  }

  function Elements(r: seq<int>): set<int> { set x | x in r }

  lemma {:induction false} DistinctElements(r: seq<int>)
    requires Distinct(r)
    ensures |Elements(r)| == |r|
  {
    if r == [] {
      assert Elements(r) == {};
    } else {
      assert Elements(r) == Elements(r[1..]) + {r[0]};
      DistinctElements(r[1..]);
    }
  }

  lemma RanksCover(b: seq<Id>, c: seq<Id>, k: nat)
    requires Reorders(b, c) && k < |b|
    ensures k in Ranks(b, c)
  {
    var r := Ranks(b, c);
    forall i, j | 0 <= i < j < |r| ensures r[i] != r[j] { RanksDiffer(b, c, i, j); }
    DistinctElements(r);
    SubsetOfSameSize(Elements(r), Upto(|b|));
    assert k in Elements(r);
  }

  lemma InverseRanks(b: seq<Id>, c: seq<Id>)
    requires Reorders(b, c)
    ensures Reorders(c, b)
    ensures forall i :: 0 <= i < |c| ==> 0 <= Ranks(b, c)[i] < |b| && Ranks(c, b)[Ranks(b, c)[i]] == i
  {
    var r := Ranks(b, c);
    forall k | 0 <= k < |b| ensures b[k] in c {
      RanksCover(b, c, k);
      var i :| 0 <= i < |c| && r[i] == k;
      assert c[i] == b[k];
    }
    forall i | 0 <= i < |c| ensures Ranks(c, b)[r[i]] == i {
      assert b[r[i]] == c[i];
      PlaceIsUnique(c, i);
    }
  }

  lemma SubsetOfSameSize<T>(a: set<T>, b: set<T>)
    requires a <= b && |b| <= |a|
    ensures a == b
  {
    if a != b {
      assert !(b <= a);
      var x :| x in b && x !in a;
      SubsetSize(a, b - {x});
    }
  }

  lemma {:induction false} SubsetSize<T>(a: set<T>, b: set<T>)
    requires a <= b
    ensures |a| <= |b|
    decreases |a|
  {
    if |a| != 0 {
      var x :| x in a;
      SubsetSize(a - {x}, b - {x});
    }
  }

  /** A pair that one order inverts is inverted, read the other way, by the other. */
  lemma InvertedBothWays(r: seq<int>, q: seq<int>)
    requires |r| == |q| && forall i :: 0 <= i < |r| ==> 0 <= r[i] < |q| && q[r[i]] == i
    ensures |Inverted(r)| <= |Inverted(q)|
  {
    var f := (p: (int, int)) => if 0 <= p.0 < |r| && 0 <= p.1 < |r| then (r[p.1], r[p.0]) else (0, 0);
    forall p | p in Inverted(r) ensures f(p) in Inverted(q) {
      assert q[r[p.1]] == p.1 && q[r[p.0]] == p.0;
    }
    forall x, y | x in Inverted(r) && y in Inverted(r) && f(x) == f(y) ensures x == y {
      assert q[r[x.0]] == x.0 && q[r[y.0]] == y.0 && q[r[x.1]] == x.1 && q[r[y.1]] == y.1;
    }
    SameSize(Inverted(r), Inverted(q), f);
  }

  lemma FewerEqually(b: seq<Id>, c: seq<Id>)
    requires Reorders(b, c)
    ensures Reorders(c, b) && Inversions(Ranks(b, c)) <= Inversions(Ranks(c, b))
  {
    InverseRanks(b, c);
    InversionsCountPairs(Ranks(b, c));
    InversionsCountPairs(Ranks(c, b));
    InvertedBothWays(Ranks(b, c), Ranks(c, b));
  }

  lemma TauIsSymmetric(b: seq<Id>, c: seq<Id>)
    requires Reorders(b, c)
    ensures TauOf(b, c) == TauOf(c, b)
  {
    FewerEqually(b, c);
    FewerEqually(c, b);
    assert Ranked(b, c) && Ranked(c, b);
  }

  /** A candidate that repeats an id is not refused, and the repetition reads as agreement: against any
      baseline of two ids or more, one of its ids over and over scores one. */
  lemma RepeatedIdsReadAsAgreement(b: seq<Id>, k: nat)
    requires |b| >= 2 && k < |b|
    ensures TauOf(b, seq(|b|, _ => b[k])) == Tau(1.0)
    ensures Distinct(b) ==> b != seq(|b|, _ => b[k])
  {
    var c := seq(|b|, _ => b[k]);
    assert Ranked(b, c);
    TauReadsTheRanks(b, c);
    assert Ascending(Ranks(b, c));
    assert c[0] == c[1];
  }
}
