/** The corpus's shuffle, in place, and the fact that it can produce every order in exactly one way. */
module Shuffle {
  import opened Sequences

  function Swap<T>(s: seq<T>, i: nat, j: nat): (r: seq<T>)
    requires i < |s| && j < |s|
    ensures |r| == |s|
  {
    s[i := s[j]][j := s[i]]
  }

  /** One choice per place: `choices[i]` says which of the first `i + 1` goes to place `i`. */
  ghost predicate Choices(choices: seq<nat>, n: nat) {
    |choices| == n && forall i :: 0 <= i < n ==> choices[i] <= i
  }

  /** The order a vector of choices produces: the last place is settled first. */
  ghost function Shuffled<T>(s: seq<T>, choices: seq<nat>): (r: seq<T>)
    requires Choices(choices, |s|)
    ensures |r| == |s|
    decreases |s|
  {
    if |s| == 0 then []
    else
      var n := |s| - 1;
      var t := Swap(s, n, choices[n]);
      Shuffled(t[..n], choices[..n]) + [t[n]]
  }

  ghost predicate Uniform(rng: nat -> real) { forall k :: 0.0 <= rng(k) < 1.0 }

  lemma Scaled(u: real, m: nat)
    requires 0.0 <= u < 1.0 && m > 0
    ensures 0 <= (u * m as real).Floor < m
  {
    assert 0.0 <= u * m as real < m as real;
  }

  /** Where `rng` lands among the first `i + 1`; the loop draws from the back, so place `i` takes draw
      number `n - 1 - i`. Place 0 has one candidate and draws nothing. */
  function Choice(rng: nat -> real, n: nat, i: nat): (c: nat)
    requires i < n && Uniform(rng)
    ensures c <= i
  {
    if i == 0 then 0
    else
      Scaled(rng(n - 1 - i), i + 1);
      (rng(n - 1 - i) * (i + 1) as real).Floor
  }

  ghost function ChoicesOf(rng: nat -> real, n: nat): (c: seq<nat>)
    requires Uniform(rng)
    ensures |c| == n && forall i :: 0 <= i < n ==> c[i] == Choice(rng, n, i)
  {
    seq(n, i requires 0 <= i < n => Choice(rng, n, i))
  }

  lemma ChoicesAreChoices(rng: nat -> real, n: nat)
    requires Uniform(rng)
    ensures Choices(ChoicesOf(rng, n), n)
  {
  }

  /** What remains to be done at place `i`, and what is done behind it. */
  ghost predicate Halfway<T>(now: seq<T>, was: seq<T>, choices: seq<nat>, i: nat) {
    && Choices(choices, |was|) && |now| == |was| && i <= |was|
    && Shuffled(was, choices) == Shuffled(now[..i], choices[..i]) + now[i..]
  }

  lemma Settle<T>(now: seq<T>, was: seq<T>, choices: seq<nat>, i: nat)
    requires Halfway(now, was, choices, i + 1) && i < |was|
    ensures choices[i] <= i && Halfway(Swap(now, i, choices[i]), was, choices, i)
  {
    var j := choices[i];
    var next := Swap(now, i, j);
    assert now[..i + 1][..i] == now[..i] && choices[..i + 1][..i] == choices[..i];
    assert Swap(now[..i + 1], i, j) == next[..i + 1];
    assert next[..i + 1][..i] == next[..i] && next[..i + 1][i] == next[i];
    assert next[i..] == [next[i]] + now[i + 1..];
  }

  lemma OnePlace<T>(now: seq<T>, was: seq<T>, choices: seq<nat>)
    requires Halfway(now, was, choices, if |was| > 0 then 1 else 0)
    ensures now == Shuffled(was, choices)
  {
    if |was| > 0 {
      var one := now[..1];
      assert Swap(one, 0, choices[..1][0])[..0] == [] && Swap(one, 0, choices[..1][0])[0] == now[0];
      assert Shuffled(one, choices[..1]) == one;
      assert one + now[1..] == now;
    } else {
      assert now == [];
    }
  }

  method SwapAt<T>(list: array<T>, i: nat, j: nat)
    requires i < list.Length && j < list.Length
    modifies list
    ensures list[..] == Swap(old(list[..]), i, j)
  {
    var tmp := list[i];
    list[i] := list[j];
    list[j] := tmp;
  }

  lemma NothingSettled<T>(s: seq<T>, choices: seq<nat>)
    requires Choices(choices, |s|)
    ensures Halfway(s, s, choices, |s|)
  {
    assert s[..|s|] == s && choices[..|s|] == choices && s[|s|..] == [];
  }

  /** Fisher and Yates, from the back: the array ends in the order its choices spell. */
  method ShuffleInPlace<T>(list: array<T>, rng: nat -> real)
    requires Uniform(rng)
    modifies list
    ensures Choices(ChoicesOf(rng, list.Length), list.Length)
    ensures list[..] == Shuffled(old(list[..]), ChoicesOf(rng, list.Length))
  {
    var n := list.Length;
    ghost var was, choices, now := list[..], ChoicesOf(rng, n), list[..];
    ChoicesAreChoices(rng, n);
    NothingSettled(was, choices);
    var i := n - 1;
    while i > 0
      invariant -1 <= i < n && (i == -1 <==> n == 0)
      invariant now == list[..] && Halfway(now, was, choices, i + 1)
    {
      var j := Choice(rng, n, i);
      Settle(now, was, choices, i);
      SwapAt(list, i, j);
      now := Swap(now, i, j);
      i := i - 1;
    }
    OnePlace(now, was, choices);
  }

  // ----- every order, once -----

  lemma LastAside<T>(s: seq<T>, n: nat)
    requires |s| == n + 1
    ensures multiset(s) == multiset(s[..n]) + multiset{s[n]}
  {
    assert s == s[..n] + [s[n]];
  }

  lemma {:induction false} ShuffledPermutes<T>(s: seq<T>, choices: seq<nat>)
    requires Choices(choices, |s|)
    ensures multiset(Shuffled(s, choices)) == multiset(s)
    decreases |s|
  {
    if |s| > 0 {
      var n := |s| - 1;
      var t, r := Swap(s, n, choices[n]), Shuffled(s, choices);
      SwapPermutes(s, n, choices[n]);
      ShuffledPermutes(t[..n], choices[..n]);
      LastAside(t, n);
      LastAside(r, n);
      assert r[..n] == Shuffled(t[..n], choices[..n]);
    }
  }

  lemma SwapKeepsDistinct<T>(s: seq<T>, i: nat, j: nat)
    requires Distinct(s) && i < |s| && j < |s|
    ensures Distinct(Swap(s, i, j)) && Distinct(Swap(s, i, j)[..i])
  {
  }

  lemma SamePlace<T>(s: seq<T>, i: nat, j: nat)
    requires Distinct(s) && i < |s| && j < |s| && s[i] == s[j]
    ensures i == j
  {
  }

  lemma LastIsChosen<T>(s: seq<T>, c: seq<nat>, n: nat)
    requires Choices(c, |s|) && |s| == n + 1
    ensures Shuffled(s, c)[n] == s[c[n]]
    ensures Choices(c[..n], n) && Shuffled(s, c)[..n] == Shuffled(Swap(s, n, c[n])[..n], c[..n])
  {
  }

  lemma SameEnds(c: seq<nat>, d: seq<nat>, n: nat)
    requires |c| == |d| == n + 1 && c[..n] == d[..n] && c[n] == d[n]
    ensures c == d
  {
    assert c == c[..n] + [c[n]] && d == d[..n] + [d[n]];
  }

  /** Two vectors of choices that give one order are one vector. */
  lemma {:induction false} OrdersDetermineChoices<T>(s: seq<T>, c: seq<nat>, d: seq<nat>)
    requires Distinct(s) && Choices(c, |s|) && Choices(d, |s|) && Shuffled(s, c) == Shuffled(s, d)
    ensures c == d
    decreases |s|
  {
    if |s| > 0 {
      var n := |s| - 1;
      var t := Swap(s, n, c[n]);
      LastIsChosen(s, c, n);
      LastIsChosen(s, d, n);
      SamePlace(s, c[n], d[n]);
      SwapKeepsDistinct(s, n, c[n]);
      OrdersDetermineChoices(t[..n], c[..n], d[..n]);
      SameEnds(c, d, n);
    }
  }

  /** What the last choice settles. */
  lemma LastChoice<T>(s: seq<T>, d: seq<nat>, j: nat)
    requires |s| > 0 && j < |s| && Choices(d, |s| - 1)
    ensures var n := |s| - 1;
      && Choices(d + [j], |s|)
      && Shuffled(s, d + [j]) == Shuffled(Swap(s, n, j)[..n], d) + [Swap(s, n, j)[n]]
  {
    assert (d + [j])[..|s| - 1] == d;
  }

  /** And every order is given by some vector: choices and orders pair off. How likely a choice is, is the
      generator's affair. */
  lemma {:induction false} EveryOrderIsReached<T>(s: seq<T>, order: seq<T>) returns (c: seq<nat>)
    requires multiset(order) == multiset(s)
    ensures Choices(c, |s|) && Shuffled(s, c) == order
    decreases |s|
  {
    PermutedLength(order, s);
    if |s| == 0 {
      c := [];
      assert order == [];
    } else {
      var n := |s| - 1;
      var j := BringLast(s, order, n);
      var t := Swap(s, n, j);
      var d := EveryOrderIsReached(t[..n], order[..n]);
      c := d + [j];
      LastChoice(s, d, j);
      assert order == order[..n] + [order[n]];
    }
  }

  /** The item that is to stand last can be brought there, leaving the others to be arranged. */
  lemma BringLast<T>(s: seq<T>, order: seq<T>, n: nat) returns (j: nat)
    requires multiset(order) == multiset(s) && |s| == |order| == n + 1
    ensures j <= n && Swap(s, n, j)[n] == order[n]
    ensures multiset(Swap(s, n, j)[..n]) == multiset(order[..n])
  {
    assert order[n] in multiset(order);
    j := FindIn(s, order[n], multiset(order));
    SwapPermutes(s, n, j);
    LastAside(order, n);
    LastAside(Swap(s, n, j), n);
    assert multiset(Swap(s, n, j)[..n]) == multiset(Swap(s, n, j)) - multiset{order[n]};
    assert multiset(order[..n]) == multiset(order) - multiset{order[n]};
  }
}
