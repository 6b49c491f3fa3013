/** Counting inversions while merge-sorting in place. */
module MergeCount {
  import opened Sequences

  /** How many elements of `s` are below `x`. */
  function Below(s: seq<int>, x: int): nat {
    if s == [] then 0 else (if s[0] < x then 1 else 0) + Below(s[1..], x)
  }

  /** Pairs in the wrong order: each element against those after it. */
  function Inversions(s: seq<int>): nat {
    if s == [] then 0 else Below(s[1..], s[0]) + Inversions(s[1..])
  }

  /** Pairs in the wrong order with one element in `a` and the other in `b`, which comes after. */
  function Cross(a: seq<int>, b: seq<int>): nat {
    if a == [] then 0 else Below(b, a[0]) + Cross(a[1..], b)
  }

  predicate InOrder(s: seq<int>, i: int, j: int) { 0 <= i < |s| && 0 <= j < |s| ==> s[i] <= s[j] }

  ghost predicate Ascending(s: seq<int>) { forall i, j :: 0 <= i < j < |s| ==> InOrder(s, i, j) }

  // ----- counting is insensitive to what a sort of the halves does -----

  lemma {:induction false} BelowSplits(a: seq<int>, b: seq<int>, x: int)
    ensures Below(a + b, x) == Below(a, x) + Below(b, x)
  {
    if a == [] { assert a + b == b; } else {
      assert (a + b)[1..] == a[1..] + b;
      BelowSplits(a[1..], b, x);
    }
  }

  lemma {:induction false} InversionsSplit(a: seq<int>, b: seq<int>)
    ensures Inversions(a + b) == Inversions(a) + Inversions(b) + Cross(a, b)
  {
    if a == [] { assert a + b == b; } else {
      assert (a + b)[1..] == a[1..] + b;
      BelowSplits(a[1..], b, a[0]);
      InversionsSplit(a[1..], b);
    }
  }

  lemma BelowRemove(s: seq<int>, i: nat, x: int)
    requires i < |s|
    ensures Below(s, x) == Below(s[..i] + s[i + 1..], x) + (if s[i] < x then 1 else 0)
  {
    assert s == s[..i] + ([s[i]] + s[i + 1..]);
    BelowSplits(s[..i], [s[i]] + s[i + 1..], x);
    BelowSplits([s[i]], s[i + 1..], x);
    BelowSplits(s[..i], s[i + 1..], x);
  }

  lemma CrossRemove(a: seq<int>, i: nat, b: seq<int>)
    requires i < |a|
    ensures Cross(a, b) == Cross(a[..i] + a[i + 1..], b) + Below(b, a[i])
  {
    assert a == a[..i] + ([a[i]] + a[i + 1..]);
    CrossSplits(a[..i], [a[i]] + a[i + 1..], b);
    CrossSplits([a[i]], a[i + 1..], b);
    CrossSplits(a[..i], a[i + 1..], b);
  }

  lemma {:induction false} CrossSplits(a: seq<int>, c: seq<int>, b: seq<int>)
    ensures Cross(a + c, b) == Cross(a, b) + Cross(c, b)
  {
    if a == [] { assert a + c == c; } else {
      assert (a + c)[1..] == a[1..] + c;
      CrossSplits(a[1..], c, b);
    }
  }

  lemma FindSame(s: seq<int>, t: seq<int>) returns (i: nat)
    requires s != [] && multiset(s) == multiset(t)
    ensures i < |t| && t[i] == s[0]
    ensures multiset(s[1..]) == multiset(t[..i] + t[i + 1..])
  {
    assert s[0] in multiset(t);
    i :| 0 <= i < |t| && t[i] == s[0];
    assert t == t[..i] + [t[i]] + t[i + 1..];
    assert s == [s[0]] + s[1..];
    assert multiset(s[1..]) == multiset(s) - multiset{s[0]};
    assert multiset(t[..i] + t[i + 1..]) == multiset(t) - multiset{s[0]};
  }

  lemma {:induction false} BelowPermutes(s: seq<int>, t: seq<int>, x: int)
    requires multiset(s) == multiset(t)
    ensures Below(s, x) == Below(t, x)
    decreases |s|
  {
    if s == [] {
      assert |multiset(t)| == 0;
    } else {
      var i := FindSame(s, t);
      BelowPermutes(s[1..], t[..i] + t[i + 1..], x);
      BelowRemove(t, i, x);
    }
  }

  lemma {:induction false} CrossPermutes(a: seq<int>, c: seq<int>, b: seq<int>, d: seq<int>)
    requires multiset(a) == multiset(c) && multiset(b) == multiset(d)
    ensures Cross(a, b) == Cross(c, d)
    decreases |a|
  {
    if a == [] {
      assert |multiset(c)| == 0;
    } else {
      var i := FindSame(a, c);
      CrossPermutes(a[1..], c[..i] + c[i + 1..], b, d);
      CrossRemove(c, i, d);
      BelowPermutes(b, d, a[0]);
    }
  }

  // ----- what one step of the merge counts -----

  lemma {:induction false} NoneBelow(s: seq<int>, x: int)
    requires forall i :: 0 <= i < |s| ==> x <= s[i]
    ensures Below(s, x) == 0
  {
    if s != [] { NoneBelow(s[1..], x); }
  }

  /** Taking the left head costs nothing: nothing still to come is below it. */
  lemma TakeLeft(a: seq<int>, b: seq<int>)
    requires a != [] && Ascending(b) && (b != [] ==> a[0] <= b[0])
    ensures Cross(a, b) == Cross(a[1..], b)
  {
    forall i | 0 <= i < |b| ensures a[0] <= b[i] { assert i == 0 || InOrder(b, 0, i); }
    NoneBelow(b, a[0]);
  }

  /** Taking the right head settles its pairs with all that is left on the other side. */
  lemma {:induction false} TakeRight(a: seq<int>, b: seq<int>)
    requires b != [] && forall i :: 0 <= i < |a| ==> b[0] < a[i]
    ensures Cross(a, b) == |a| + Cross(a, b[1..])
  {
    if a != [] {
      assert a[0] > b[0];
      TakeRight(a[1..], b);
    }
  }

  lemma {:induction false} CrossNothing(a: seq<int>)
    ensures Cross(a, []) == 0
  {
    if a != [] { CrossNothing(a[1..]); }
  }

  // ----- the algorithm -----

  /** The state inside a merge of `l` and `r`: `a` and `b` are left of them, `out` is in the buffer. */
  ghost predicate Merging(l: seq<int>, r: seq<int>, a: seq<int>, b: seq<int>, out: seq<int>, counted: nat) {
    forall k {:trigger Open(k)} :: Open(k) ==>
      && multiset(out) + multiset(a) + multiset(b) == multiset(l + r)
      && Ascending(out + a) && Ascending(out + b)
      && counted + Cross(a, b) == Cross(l, r)
  }

  lemma AscendingInsert(out: seq<int>, x: int, b: seq<int>)
    requires Ascending(out + b) && Ascending(out + [x]) && (b != [] ==> x <= b[0])
    ensures Ascending(out + [x] + b)
  {
    var s := out + b;
    var t := out + [x] + b;
    forall i, j | 0 <= i < j < |t| ensures InOrder(t, i, j) {
      if j > |out| {
        assert t[j] == s[j - 1] && s[|out|] == b[0];
        if i < |out| { assert InOrder(s, i, j - 1); }
        else if i == |out| { assert j - 1 == |out| || InOrder(s, |out|, j - 1); }
        else { assert InOrder(s, i - 1, j - 1); }
      } else {
        assert InOrder(out + [x], i, j);
      }
    }
  }

  lemma AscendingPrefix(out: seq<int>, a: seq<int>)
    requires a != [] && Ascending(out + a)
    ensures Ascending(out + [a[0]]) && Ascending(a)
  {
    var s := out + a;
    assert out + [a[0]] == s[..|out| + 1] && a == s[|out|..];
    forall i, j | 0 <= i < j < |out| + 1 ensures InOrder(out + [a[0]], i, j) { assert InOrder(s, i, j); }
    forall i, j | 0 <= i < j < |a| ensures InOrder(a, i, j) { assert InOrder(s, |out| + i, |out| + j); }
  }

  lemma MergeLeft(l: seq<int>, r: seq<int>, a: seq<int>, b: seq<int>, out: seq<int>, counted: nat)
    requires Merging(l, r, a, b, out, counted) && a != [] && (b != [] ==> a[0] <= b[0])
    ensures Merging(l, r, a[1..], b, out + [a[0]], counted)
  {
    assert Open(0);
    assert Ascending(out + [a[0]] + b) by {
      AscendingPrefix(out, a);
      AscendingInsert(out, a[0], b);
    }
    if b != [] { AscendingPrefix(out, b); }
    TakeLeft(a, b);
    assert a == [a[0]] + a[1..];
    assert out + [a[0]] + a[1..] == out + a;
  }

  lemma MergeRight(l: seq<int>, r: seq<int>, a: seq<int>, b: seq<int>, out: seq<int>, counted: nat, count: nat)
    requires Merging(l, r, a, b, out, counted) && b != [] && (a != [] ==> b[0] < a[0]) && count == counted + |a|
    ensures Merging(l, r, a, b[1..], out + [b[0]], count)
  {
    assert Open(0);
    AscendingPrefix(out, b);
    AscendingInsert(out, b[0], a);
    if a != [] { AscendingPrefix(out, a); }
    forall i | 0 <= i < |a| ensures b[0] < a[i] { assert i == 0 || InOrder(a, 0, i); }
    TakeRight(a, b);
    assert b == [b[0]] + b[1..];
    assert out + [b[0]] + b[1..] == out + b;
  }

  /** Once one half is used up, the other goes to the end of the buffer as it stands. */
  lemma MergeEnds(l: seq<int>, r: seq<int>, a: seq<int>, b: seq<int>, out: seq<int>, counted: nat)
    requires Merging(l, r, a, b, out, counted) && (a == [] || b == [])
    ensures counted == Cross(l, r) && multiset(out + a + b) == multiset(l + r) && Ascending(out + a + b)
  {
    assert Open(0);
    if a == [] {
      assert out + a + b == out + b;
    } else {
      CrossNothing(a);
      assert out + a + b == out + a;
    }
    assert multiset(out + a + b) == multiset(out) + multiset(a) + multiset(b);
  }

  ghost predicate SameOutside(now: seq<int>, was: seq<int>, low: nat, high: nat) {
    |now| == |was| && forall i :: 0 <= i < |was| && !(low <= i < high) ==> now[i] == was[i]
  }

  /** The sorted run goes back from the buffer. */
  method CopyBack(work: array<int>, buffer: array<int>, low: nat, high: nat)
    requires low <= high <= work.Length == buffer.Length && work != buffer
    modifies work
    ensures work[low..high] == buffer[low..high]
    ensures SameOutside(work[..], old(work[..]), low, high)
  {
    var index := low;
    while index < high
      invariant low <= index <= high
      invariant forall x :: low <= x < index ==> work[x] == buffer[x]
      invariant SameOutside(work[..], old(work[..]), low, index)
    {
      work[index] := buffer[index];
      index := index + 1;
    }
  }

  lemma SliceTail(w: seq<int>, i: nat, m: nat)
    requires i <= m <= |w|
    ensures |w[i..m]| == m - i
    ensures i < m ==> w[i..m][0] == w[i] && w[i..m][1..] == w[i + 1..m]
  {
  }

  lemma SliceWritten(s: seq<int>, low: nat, k: nat, x: int)
    requires low <= k < |s|
    ensures s[k := x][low..k + 1] == s[low..k] + [x]
  {
  }

  ghost predicate MergingAt(w: seq<int>, buf: seq<int>, low: nat, mid: nat, high: nat, i: nat, j: nat, count: nat)
    requires low <= i <= mid <= j <= high <= |w| == |buf|
  {
    forall k {:trigger Open(k)} :: Open(k) ==>
      Merging(w[low..mid], w[mid..high], w[i..mid], w[j..high], buf[low..i + j - mid], count)
  }

  /** Where the merge of `w[low..mid]` and `w[mid..high]` stands: `i` and `j` are next, `k` is free. */
  ghost predicate At(w: seq<int>, buf: seq<int>, low: nat, mid: nat, high: nat, i: nat, j: nat, k: nat, count: nat) {
    && low <= i <= mid <= j <= high <= |w| == |buf| && k == i + j - mid
    && MergingAt(w, buf, low, mid, high, i, j, count)
  }

  lemma AtGives(w: seq<int>, buf: seq<int>, low: nat, mid: nat, high: nat, i: nat, j: nat, k: nat, count: nat)
    requires At(w, buf, low, mid, high, i, j, k, count)
    ensures Merging(w[low..mid], w[mid..high], w[i..mid], w[j..high], buf[low..k], count)
  {
    assert Open(0);
  }

  lemma AtLeft(w: seq<int>, was: seq<int>, buf: seq<int>, low: nat, mid: nat, high: nat,
               before: nat, i: nat, j: nat, k: nat, count: nat)
    requires i == before + 1 && k > 0 && At(w, was, low, mid, high, before, j, k - 1, count)
    requires before < mid && (j < high ==> w[before] <= w[j]) && buf == was[k - 1 := w[before]]
    ensures At(w, buf, low, mid, high, i, j, k, count)
  {
    var a, b, out := w[before..mid], w[j..high], was[low..k - 1];
    AtGives(w, was, low, mid, high, before, j, k - 1, count);
    SliceTail(w, before, mid);
    SliceTail(w, j, high);
    SliceWritten(was, low, k - 1, w[before]);
    MergeLeft(w[low..mid], w[mid..high], a, b, out, count);
    AtFrom(w, buf, low, mid, high, i, j, k, count, a[1..], b, out + [a[0]]);
  }

  lemma AtRight(w: seq<int>, was: seq<int>, buf: seq<int>, low: nat, mid: nat, high: nat,
                i: nat, before: nat, j: nat, k: nat, counted: nat, count: nat)
    requires j == before + 1 && k > 0 && At(w, was, low, mid, high, i, before, k - 1, counted)
    requires before < high && (i < mid ==> w[before] < w[i]) && buf == was[k - 1 := w[before]]
    requires count == counted + mid - i
    ensures At(w, buf, low, mid, high, i, j, k, count)
  {
    AtGives(w, was, low, mid, high, i, before, k - 1, counted);
    RightSlices(w, was, low, high, before, k);
    RightTaken(w[low..mid], w[mid..high], w[i..mid], w[before..high], was[low..k - 1], counted, count, w[j..high],
               buf[low..k]);
    AtFrom(w, buf, low, mid, high, i, j, k, count, w[i..mid], w[j..high], buf[low..k]);
  }

  /** The same step on the slices alone. */
  lemma RightTaken(l: seq<int>, r: seq<int>, a: seq<int>, b: seq<int>, out: seq<int>, counted: nat, count: nat,
                   rest: seq<int>, more: seq<int>)
    requires Merging(l, r, a, b, out, counted) && b != [] && (a != [] ==> b[0] < a[0]) && count == counted + |a|
    requires rest == b[1..] && more == out + [b[0]]
    ensures Merging(l, r, a, rest, more, count)
  {
    MergeRight(l, r, a, b, out, counted, count);
  }

  lemma RightSlices(w: seq<int>, was: seq<int>, low: nat, high: nat, before: nat, k: nat)
    requires before < high <= |w| && low < k <= |was|
    ensures w[before..high] != [] && w[before..high][0] == w[before] && w[before..high][1..] == w[before + 1..high]
    ensures was[k - 1 := w[before]][low..k] == was[low..k - 1] + [w[before]]
  {
    SliceTail(w, before, high);
    SliceWritten(was, low, k - 1, w[before]);
  }

  /** The slices a step ends in, by name. */
  lemma AtFrom(w: seq<int>, buf: seq<int>, low: nat, mid: nat, high: nat, i: nat, j: nat, k: nat, count: nat,
               a: seq<int>, b: seq<int>, out: seq<int>)
    requires low <= i <= mid <= j <= high <= |w| == |buf| && k == i + j - mid
    requires a == w[i..mid] && b == w[j..high] && out == buf[low..k]
    requires Merging(w[low..mid], w[mid..high], a, b, out, count)
    ensures At(w, buf, low, mid, high, i, j, k, count)
  {
  }

  lemma AtStart(w: seq<int>, buf: seq<int>, low: nat, mid: nat, high: nat)
    requires low <= mid <= high <= |w| == |buf| && Ascending(w[low..mid]) && Ascending(w[mid..high])
    ensures At(w, buf, low, mid, high, low, mid, low, 0)
  {
    assert Open(0);
    assert buf[low..low] + w[low..mid] == w[low..mid] && buf[low..low] + w[mid..high] == w[mid..high];
  }

  lemma AtEnd(w: seq<int>, buf: seq<int>, low: nat, mid: nat, high: nat, count: nat)
    requires At(w, buf, low, mid, high, mid, high, high, count)
    ensures Ascending(buf[low..high]) && count == Cross(w[low..mid], w[mid..high])
    ensures multiset(buf[low..high]) == multiset(w[low..mid] + w[mid..high])
  {
    assert Open(0);
    MergeEnds(w[low..mid], w[mid..high], [], [], buf[low..high], count);
    assert buf[low..high] + [] + [] == buf[low..high];
  }

  /** The merge proper: the smaller head goes to the buffer until one half is used up, and every
      element taken from the right counts the elements still waiting on the left. */
  method Interleave(work: array<int>, buffer: array<int>, low: nat, mid: nat, high: nat)
    returns (i: nat, j: nat, k: nat, count: nat)
    requires low <= mid <= high <= work.Length == buffer.Length && work != buffer
    requires Ascending(work[..][low..mid]) && Ascending(work[..][mid..high])
    modifies buffer
    ensures At(work[..], buffer[..], low, mid, high, i, j, k, count) && (i == mid || j == high)
  {
    ghost var w, buf := work[..], buffer[..];
    AtStart(w, buf, low, mid, high);
    i, j, k, count := low, mid, low, 0;
    while i < mid && j < high
      invariant buf == buffer[..] && At(w, buf, low, mid, high, i, j, k, count)
    {
      ghost var was, i0, j0, count0 := buf, i, j, count;
      if work[i] <= work[j] {
        buffer[k] := work[i];
        buf := buf[k := work[i]];
        k, i := k + 1, i + 1;
        AtLeft(w, was, buf, low, mid, high, i0, i, j, k, count);
      } else {
        count := count + mid - i;
        buffer[k] := work[j];
        buf := buf[k := work[j]];
        k, j := k + 1, j + 1;
        AtRight(w, was, buf, low, mid, high, i, j0, j, k, count0, count);
      }
    }
  }

  /** What is left of one half follows as it stands. */
  method FlushRest(work: array<int>, buffer: array<int>, ghost low: nat, mid: nat, high: nat, from: nat, rest: nat,
                   at: nat, ghost count: nat)
    requires high <= work.Length == buffer.Length && work != buffer
    requires At(work[..], buffer[..], low, mid, high, from, rest, at, count) && (from == mid || rest == high)
    modifies buffer
    ensures At(work[..], buffer[..], low, mid, high, mid, high, high, count)
  {
    ghost var w, buf := work[..], buffer[..];
    var i: nat, j: nat, k: nat := from, rest, at;
    while i < mid
      invariant buf == buffer[..] && At(w, buf, low, mid, high, i, j, k, count) && (i < mid ==> j == high)
    {
      ghost var was, i0 := buf, i;
      buffer[k] := work[i];
      buf := buf[k := work[i]];
      k, i := k + 1, i + 1;
      AtLeft(w, was, buf, low, mid, high, i0, i, j, k, count);
    }
    while j < high
      invariant i == mid && buf == buffer[..] && At(w, buf, low, mid, high, i, j, k, count)
    {
      ghost var was, j0 := buf, j;
      buffer[k] := work[j];
      buf := buf[k := work[j]];
      k, j := k + 1, j + 1;
      AtRight(w, was, buf, low, mid, high, i, j0, j, k, count, count);
    }
    assert i == mid && j == high && k == high;
  }

  method Merge(work: array<int>, buffer: array<int>, low: nat, mid: nat, high: nat) returns (count: nat)
    requires low <= mid <= high <= work.Length == buffer.Length && work != buffer
    requires Ascending(work[..][low..mid]) && Ascending(work[..][mid..high])
    modifies buffer
    ensures Ascending(buffer[..][low..high])
    ensures multiset(buffer[..][low..high]) == multiset(work[..][low..mid] + work[..][mid..high])
    ensures count == Cross(work[..][low..mid], work[..][mid..high])
  {
    var i, j, k;
    i, j, k, count := Interleave(work, buffer, low, mid, high);
    FlushRest(work, buffer, low, mid, high, i, j, k, count);
    AtEnd(work[..], buffer[..], low, mid, high, count);
  }

  lemma Slices(now: seq<int>, was: seq<int>, low: nat, high: nat, from: nat, to: nat)
    requires SameOutside(now, was, low, high) && from <= to <= |was| && (to <= low || high <= from)
    ensures now[from..to] == was[from..to]
  {
  }

  lemma ShortIsSorted(s: seq<int>)
    requires |s| < 2
    ensures Ascending(s) && Inversions(s) == 0
  {
    if |s| == 1 { assert s[1..] == []; }
  }

  /** Sorting the halves first leaves the pairs across them, and they are counted on the sorted halves. */
  lemma HalvesCount(a: seq<int>, b: seq<int>, l: seq<int>, r: seq<int>)
    requires multiset(l) == multiset(a) && multiset(r) == multiset(b)
    ensures Inversions(a + b) == Inversions(a) + Inversions(b) + Cross(l, r)
    ensures multiset(l + r) == multiset(a + b)
  {
    InversionsSplit(a, b);
    CrossPermutes(a, l, b, r);
  }

  /** Merges two sorted halves where they stand. */
  method MergeBack(work: array<int>, buffer: array<int>, low: nat, mid: nat, high: nat) returns (across: nat)
    requires low <= mid <= high <= work.Length == buffer.Length && work != buffer
    requires Ascending(work[..][low..mid]) && Ascending(work[..][mid..high])
    modifies work, buffer
    ensures Ascending(work[low..high])
    ensures multiset(work[low..high]) == multiset(old(work[..][low..mid]) + old(work[..][mid..high]))
    ensures across == Cross(old(work[..][low..mid]), old(work[..][mid..high]))
    ensures SameOutside(work[..], old(work[..]), low, high)
  {
    across := Merge(work, buffer, low, mid, high);
    CopyBack(work, buffer, low, high);
  }

  /** `now` is `was` with its stretch sorted, of which `count` pairs were inverted. */
  ghost predicate SortedFrom(now: seq<int>, was: seq<int>, low: nat, high: nat, count: nat)
    requires low <= high <= |now| == |was|
  {
    && Ascending(now[low..high]) && multiset(now[low..high]) == multiset(was[low..high])
    && count == Inversions(was[low..high]) && SameOutside(now, was, low, high)
  }

  /** Both halves sorted, one after the other: each is a sorting of what it was. */
  lemma BothSorted(now: seq<int>, half: seq<int>, was: seq<int>, low: nat, mid: nat, high: nat, left: nat, right: nat)
    requires low <= mid <= high <= |now| == |half| == |was|
    requires SortedFrom(half, was, low, mid, left) && SortedFrom(now, half, mid, high, right)
    ensures Ascending(now[low..mid]) && Ascending(now[mid..high]) && SameOutside(now, was, low, high)
    ensures multiset(now[low..mid] + now[mid..high]) == multiset(was[low..high])
    ensures Inversions(was[low..high]) == left + right + Cross(now[low..mid], now[mid..high])
  {
    Slices(half, was, low, mid, mid, high);
    Slices(now, half, mid, high, low, mid);
    assert was[low..high] == was[low..mid] + was[mid..high];
    HalvesCount(was[low..mid], was[mid..high], now[low..mid], now[mid..high]);
  }

  /** Sorts `work[low..high]` and returns how many of its pairs were inverted. */
  method SortAndCount(work: array<int>, buffer: array<int>, low: nat, high: nat) returns (count: nat)
    requires low <= high <= work.Length == buffer.Length && work != buffer
    modifies work, buffer
    ensures SortedFrom(work[..], old(work[..]), low, high, count)
    decreases high - low
  {
    ghost var was := work[..];
    if high - low < 2 {
      ShortIsSorted(was[low..high]);
      return 0;
    }
    var mid := (low + high) / 2;
    var left := SortAndCount(work, buffer, low, mid);
    ghost var half := work[..];
    var right := SortAndCount(work, buffer, mid, high);
    BothSorted(work[..], half, was, low, mid, high, left, right);
    ghost var now := work[..];
    var across := MergeBack(work, buffer, low, mid, high);
    OutsideChains(work[..], now, was, low, high);
    count := left + right + across;
  }

  lemma OutsideChains(now: seq<int>, half: seq<int>, was: seq<int>, low: nat, high: nat)
    requires SameOutside(now, half, low, high) && SameOutside(half, was, low, high)
    ensures SameOutside(now, was, low, high)
  {
  }

  /** `countInversions`: the values themselves are left as they are. */
  method CountInversions(values: seq<int>) returns (count: nat)
    ensures count == Inversions(values)
  {
    var buffer := new int[|values|];
    var work := new int[|values|](i requires 0 <= i < |values| => values[i]);
    ghost var was := work[..];
    count := SortAndCount(work, buffer, 0, |values|);
    assert was[0..|values|] == values;
  }
}
