/** Permutation facts shared by the sorting, shuffling and heap proofs. */
module Sequences {

  /** Mentioned where a predicate folded under it is to be read; elsewhere the predicate travels as it is. */
  predicate Open(k: int) { true }

  function Map<A, B>(f: A -> B, s: seq<A>): (r: seq<B>)
    ensures |r| == |s| && forall i :: 0 <= i < |s| ==> r[i] == f(s[i])
  {
    seq(|s|, i requires 0 <= i < |s| => f(s[i]))
  }

  lemma MapConcat<A, B>(f: A -> B, s: seq<A>, t: seq<A>)
    ensures Map(f, s + t) == Map(f, s) + Map(f, t)
  {
  }

  /** Removing one occurrence at a known position. */
  lemma RemoveAt<A>(s: seq<A>, i: nat)
    requires i < |s|
    ensures multiset(s) == multiset(s[..i] + s[i + 1..]) + multiset{s[i]}
  {
    assert s == s[..i] + [s[i]] + s[i + 1..];
  }

  lemma MapRemove<A, B>(f: A -> B, s: seq<A>, i: nat)
    requires i < |s|
    ensures multiset(Map(f, s)) == multiset(Map(f, s[..i] + s[i + 1..])) + multiset{f(s[i])}
  {
    var r := Map(f, s);
    RemoveAt(r, i);
    assert r[..i] + r[i + 1..] == Map(f, s[..i] + s[i + 1..]);
  }

  lemma RemoveBoth<A>(s: seq<A>, t: seq<A>, i: nat)
    requires s != [] && i < |t| && t[i] == s[0] && multiset(s) == multiset(t)
    ensures multiset(s[1..]) == multiset(t[..i] + t[i + 1..])
  {
    RemoveAt(t, i);
    assert s == [s[0]] + s[1..];
    assert multiset(s[1..]) == multiset(s) - multiset{s[0]};
  }

  /** A permutation of the arguments is a permutation of the images. */
  lemma {:induction false} MapPermutes<A, B>(f: A -> B, s: seq<A>, t: seq<A>)
    requires multiset(s) == multiset(t)
    ensures multiset(Map(f, s)) == multiset(Map(f, t))
    decreases |s|
  {
    PermutedLength(s, t);
    if s == [] {
      assert t == [];
    } else {
      var i := FindIn(t, s[0], multiset(s));
      RemoveBoth(s, t, i);
      var u, v := s[1..], t[..i] + t[i + 1..];
      MapPermutes(f, u, v);
      assert multiset(Map(f, t)) == multiset(Map(f, v)) + multiset{f(s[0])} by { MapRemove(f, t, i); }
      MapHead(f, s);
    }
  }

  lemma MapHead<A, B>(f: A -> B, s: seq<A>)
    requires s != []
    ensures multiset(Map(f, s)) == multiset(Map(f, s[1..])) + multiset{f(s[0])}
  {
    assert Map(f, s) == [f(s[0])] + Map(f, s[1..]);
  }

  lemma FindIn<A>(t: seq<A>, x: A, m: multiset<A>) returns (i: nat)
    requires multiset(t) == m && x in m
    ensures i < |t| && t[i] == x
  {
    assert x in t;
    i :| 0 <= i < |t| && t[i] == x;
  }

  lemma RemoveShared<A>(s: seq<A>, t: seq<A>, i: nat)
    requires s != [] && i < |t| && t[i] == s[0] && multiset(s) <= multiset(t)
    ensures multiset(s[1..]) <= multiset(t[..i] + t[i + 1..])
  {
    RemoveAt(t, i);
    assert s == [s[0]] + s[1..];
    assert multiset(s[1..]) == multiset(s) - multiset{s[0]};
  }

  /** What is left of `t` without `s`, in some order. */
  lemma {:induction false} Remaining<A>(t: seq<A>, s: seq<A>) returns (left: seq<A>)
    requires multiset(s) <= multiset(t)
    ensures multiset(s + left) == multiset(t)
    decreases |s|
  {
    if s == [] {
      left := t;
      assert s + left == t;
    } else {
      assert s[0] in multiset(s);
      var i := FindIn(t, s[0], multiset(t));
      RemoveShared(s, t, i);
      left := Remaining(t[..i] + t[i + 1..], s[1..]);
      RemoveAt(t, i);
      assert s + left == [s[0]] + (s[1..] + left);
    }
  }

  lemma PermutedLength<A>(s: seq<A>, t: seq<A>)
    requires multiset(s) == multiset(t)
    ensures |s| == |t|
  {
    assert |multiset(s)| == |s| && |multiset(t)| == |t|;
  }

  lemma SwapPermutes<A>(s: seq<A>, i: nat, j: nat)
    requires i < |s| && j < |s|
    ensures multiset(s[i := s[j]][j := s[i]]) == multiset(s)
  {
  }

  ghost predicate Distinct<A>(s: seq<A>) {
    forall i, j :: 0 <= i < j < |s| ==> s[i] != s[j]
  }

  lemma {:induction false} DistinctByCount<A>(s: seq<A>)
    ensures Distinct(s) <==> forall x :: x in s ==> multiset(s)[x] == 1
  {
    if s != [] {
      var t := s[1..];
      assert s == [s[0]] + t;
      DistinctByCount(t);
      if Distinct(s) {
        forall x | x in s ensures multiset(s)[x] == 1 {
          assert s[0] !in t;
        }
      }
      if forall x :: x in s ==> multiset(s)[x] == 1 {
        assert multiset(s)[s[0]] == 1 + multiset(t)[s[0]];
        assert s[0] !in t;
        forall x | x in t ensures multiset(t)[x] == 1 {
          assert multiset(s)[x] == 1;
        }
        forall i, j | 0 <= i < j < |s| ensures s[i] != s[j] {
          if i == 0 { assert s[j] in t; } else { assert s[i] == t[i - 1] && s[j] == t[j - 1]; }
        }
      }
    }
  }

  lemma DistinctPermutes<A>(s: seq<A>, t: seq<A>)
    requires multiset(s) == multiset(t) && Distinct(s)
    ensures Distinct(t)
  {
    DistinctByCount(s);
    DistinctByCount(t);
    forall x | x in t ensures multiset(t)[x] == 1 { assert x in multiset(s); }
  }

  lemma WithoutLast<T>(s: seq<T>)
    requires s != []
    ensures multiset(s) == multiset(s[..|s| - 1]) + multiset{s[|s| - 1]}
  {
    assert s == s[..|s| - 1] + [s[|s| - 1]];
  }

  lemma TailsPermute<T>(a: seq<T>, b: seq<T>)
    requires a != [] && b != [] && a[0] == b[0] && multiset(a) == multiset(b)
    ensures multiset(a[1..]) == multiset(b[1..])
  {
    assert a == [a[0]] + a[1..] && b == [b[0]] + b[1..];
    assert multiset(a[1..]) == multiset(a) - multiset{a[0]};
    assert multiset(b[1..]) == multiset(b) - multiset{b[0]};
  }

  // ----- a stable sort -----

  /** The element goes before the first it does not come after. */
  function Insert<T>(before: (T, T) -> bool, x: T, s: seq<T>): seq<T> {
    if s == [] || before(x, s[0]) then [x] + s else [s[0]] + Insert(before, x, s[1..])
  }

  function Sort<T>(before: (T, T) -> bool, s: seq<T>): seq<T> {
    if s == [] then [] else Insert(before, s[0], Sort(before, s[1..]))
  }

  lemma {:induction false} InsertKeepsMembers<T>(before: (T, T) -> bool, x: T, s: seq<T>)
    ensures multiset(Insert(before, x, s)) == multiset(s) + multiset{x}
  {
    if s != [] {
      assert s == [s[0]] + s[1..];
      InsertKeepsMembers(before, x, s[1..]);
    }
  }

  lemma {:induction false} SortKeepsMembers<T>(before: (T, T) -> bool, s: seq<T>)
    ensures multiset(Sort(before, s)) == multiset(s)
  {
    if s != [] {
      assert s == [s[0]] + s[1..];
      SortKeepsMembers(before, s[1..]);
      InsertKeepsMembers(before, s[0], Sort(before, s[1..]));
    }
  }

  lemma {:induction false} InsertAgrees<T>(f: (T, T) -> bool, g: (T, T) -> bool, x: T, s: seq<T>)
    requires forall i :: 0 <= i < |s| ==> f(x, s[i]) == g(x, s[i])
    ensures Insert(f, x, s) == Insert(g, x, s)
  {
    if s != [] { InsertAgrees(f, g, x, s[1..]); }
  }

  lemma {:induction false} SortAgrees<T>(f: (T, T) -> bool, g: (T, T) -> bool, s: seq<T>)
    requires forall i, j :: 0 <= i < |s| && 0 <= j < |s| && i != j ==> f(s[i], s[j]) == g(s[i], s[j])
    ensures Sort(f, s) == Sort(g, s)
  {
    if s != [] {
      var t := s[1..];
      SortAgrees(f, g, t);
      SortKeepsMembers(f, t);
      var u := Sort(f, t);
      forall i | 0 <= i < |u| ensures f(s[0], u[i]) == g(s[0], u[i]) {
        assert u[i] in multiset(t);
        var j :| 0 <= j < |t| && t[j] == u[i];
        assert s[j + 1] == u[i];
      }
      InsertAgrees(f, g, s[0], u);
    }
  }
}
