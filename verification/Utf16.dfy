/** The host's strings: UTF-16 code units, the code points they spell, and two ways of ordering them. */
module Utf16 {
  import opened Text

  type Unit = u: nat | u < 0x1_0000

  type Str = seq<Unit>

  predicate High(u: Unit) { 0xD800 <= u < 0xDC00 }

  predicate Low(u: Unit) { 0xDC00 <= u < 0xE000 }

  predicate Surrogate(u: Unit) { 0xD800 <= u < 0xE000 }

  predicate Paired(s: Str) { |s| >= 2 && High(s[0]) && Low(s[1]) }

  /** Read by code points, the text holds no surrogate of its own. */
  predicate WellFormed(s: Str) {
    if s == [] then true
    else if Paired(s) then WellFormed(s[2..])
    else !Surrogate(s[0]) && WellFormed(s[1..])
  }

  /** The text with every surrogate pair deleted, scanning from the left. */
  function WithoutPairs(s: Str): Str {
    if s == [] then []
    else if Paired(s) then WithoutPairs(s[2..])
    else [s[0]] + WithoutPairs(s[1..])
  }

  /** The check both ends apply to text: delete the pairs, then look for a surrogate by code points. */
  predicate ScalarText(s: Str) { WellFormed(WithoutPairs(s)) }

  predicate DoubleHigh(s: Str) {
    |s| > 1 && ((High(s[0]) && High(s[1])) || DoubleHigh(s[1..]))
  }

  lemma {:induction false} WellFormedHasNoDoubleHigh(s: Str)
    requires WellFormed(s)
    ensures ScalarText(s) && !DoubleHigh(s)
  {
    if s == [] {
    } else if Paired(s) {
      WellFormedHasNoDoubleHigh(s[2..]);
      assert s[1..][1..] == s[2..];
    } else {
      WellFormedHasNoDoubleHigh(s[1..]);
      NeverPaired(s[0], WithoutPairs(s[1..]));
    }
  }

  lemma NeverPaired(u: Unit, t: Str)
    requires !Surrogate(u)
    ensures WellFormed([u] + t) == WellFormed(t)
  {
    assert ([u] + t)[1..] == t;
  }

  lemma {:induction false} ScalarTextIsWellFormed(s: Str)
    requires ScalarText(s) && !DoubleHigh(s)
    ensures WellFormed(s)
  {
    if s == [] {
    } else if Paired(s) {
      assert s[1..][1..] == s[2..];
      ScalarTextIsWellFormed(s[2..]);
    } else {
      var w := WithoutPairs(s[1..]);
      assert !Surrogate(s[0]) by {
        assert ([s[0]] + w)[0] == s[0];
        if |s| > 1 && High(s[0]) { assert !High(s[1]); }
      }
      NeverPaired(s[0], w);
      ScalarTextIsWellFormed(s[1..]);
    }
  }

  /** Deleting pairs can bring two stranded halves together, so the check alone does not establish
      well-formed text; it does exactly when no leading surrogate stands before another. */
  lemma WellFormedExactlyWhen(s: Str)
    ensures WellFormed(s) <==> ScalarText(s) && !DoubleHigh(s)
  {
    if WellFormed(s) { WellFormedHasNoDoubleHigh(s); }
    if ScalarText(s) && !DoubleHigh(s) { ScalarTextIsWellFormed(s); }
  }

  /** The shortest text that slips through: a pair between the halves of another. */
  lemma StrandedHalvesPass()
    ensures ScalarText([0xD83D, 0xD83D, 0xDE00, 0xDE00])
    ensures !WellFormed([0xD83D, 0xD83D, 0xDE00, 0xDE00])
  {
    var s: Str := [0xD83D, 0xD83D, 0xDE00, 0xDE00];
    assert s[1..] == [0xD83D, 0xDE00, 0xDE00] && s[1..][2..] == [0xDE00] && s[1..][2..][1..] == [];
    assert WithoutPairs(s[1..]) == WithoutPairs(s[1..][2..]) == [0xDE00];
    assert WithoutPairs(s) == [0xD83D, 0xDE00];
    assert WithoutPairs(s)[2..] == [];
  }

  // ----- code points -----

  function CodePoints(s: Str): seq<nat> {
    if s == [] then []
    else if Paired(s) then [0x1_0000 + (s[0] as int - 0xD800) * 0x400 + (s[1] as int - 0xDC00)] + CodePoints(s[2..])
    else [s[0]] + CodePoints(s[1..])
  }

  /** No two texts spell the same code points. */
  lemma {:induction false} CodePointsDetermine(a: Str, b: Str)
    requires CodePoints(a) == CodePoints(b)
    ensures a == b
  {
    if a == [] || b == [] {
    } else {
      var x, y := CodePoints(a), CodePoints(b);
      assert x[0] == y[0] && x[1..] == y[1..];
      if Paired(a) {
        assert x[1..] == CodePoints(a[2..]) && y[1..] == CodePoints(b[2..]);
        CodePointsDetermine(a[2..], b[2..]);
        assert a == [a[0], a[1]] + a[2..] && b == [b[0], b[1]] + b[2..];
      } else {
        assert x[1..] == CodePoints(a[1..]) && y[1..] == CodePoints(b[1..]);
        CodePointsDetermine(a[1..], b[1..]);
        assert a == [a[0]] + a[1..] && b == [b[0]] + b[1..];
      }
    }
  }

  /** Bytes of UTF-8: three for most of the plane, two for each half of a pair. */
  function Utf8Length(s: Str): nat {
    if s == [] then 0
    else (if s[0] < 0x80 then 1 else if s[0] < 0x800 || Surrogate(s[0]) then 2 else 3) + Utf8Length(s[1..])
  }

  // ----- arranging keys -----

  /** How a serialiser arranges the keys of an object: by code point, or by code unit. */
  datatype KeyOrder = ByScalar | ByUnit

  function KeyCompare(order: KeyOrder, a: Str, b: Str): int {
    match order
    case ByScalar => Compare(CodePoints(a), CodePoints(b))
    case ByUnit => Compare(a, b)
  }

  lemma KeysCompare(order: KeyOrder, a: Str, b: Str, c: Str)
    ensures KeyCompare(order, a, b) == 0 <==> a == b
    ensures KeyCompare(order, a, b) == -KeyCompare(order, b, a)
    ensures KeyCompare(order, a, b) <= 0 && KeyCompare(order, b, c) <= 0 ==> KeyCompare(order, a, c) <= 0
  {
    match order {
      case ByScalar =>
        var x, y, z := CodePoints(a), CodePoints(b), CodePoints(c);
        CompareIsZero(x, y);
        CompareSwaps(x, y);
        if x == y { CodePointsDetermine(a, b); }
        if Compare(x, y) <= 0 && Compare(y, z) <= 0 { CompareChains(x, y, z); }
      case ByUnit =>
        CompareIsZero(a, b);
        CompareSwaps(a, b);
        if Compare(a, b) <= 0 && Compare(b, c) <= 0 { CompareChains(a, b, c); }
    }
  }

  predicate NoEarlier(order: KeyOrder, k: Str, keys: set<Str>) {
    forall x :: x in keys ==> KeyCompare(order, k, x) <= 0
  }

  lemma {:induction false} LeastExists(order: KeyOrder, keys: set<Str>)
    requires keys != {}
    ensures exists k :: k in keys && NoEarlier(order, k, keys)
    decreases |keys|
  {
    var x :| x in keys;
    KeysCompare(order, x, x, x);
    if keys == {x} {
      assert NoEarlier(order, x, keys);
    } else {
      assert keys - {x} != {} by { assert keys != {x}; }
      LeastExists(order, keys - {x});
      var k :| k in keys - {x} && NoEarlier(order, k, keys - {x});
      KeysCompare(order, k, x, x);
      if KeyCompare(order, k, x) > 0 {
        forall y | y in keys ensures KeyCompare(order, x, y) <= 0 { KeysCompare(order, x, k, y); }
        assert NoEarlier(order, x, keys);
      } else {
        assert NoEarlier(order, k, keys);
      }
    }
  }

  lemma OneLeast(order: KeyOrder, keys: set<Str>, x: Str, y: Str)
    requires x in keys && NoEarlier(order, x, keys) && y in keys && NoEarlier(order, y, keys)
    ensures x == y
  {
    KeysCompare(order, x, y, x);
  }

  function Least(order: KeyOrder, keys: set<Str>): (k: Str)
    requires keys != {}
    ensures k in keys && NoEarlier(order, k, keys)
  {
    LeastExists(order, keys);
    assert forall x, y :: x in keys && NoEarlier(order, x, keys) && y in keys && NoEarlier(order, y, keys) ==> x == y
    by {
      forall x, y | x in keys && NoEarlier(order, x, keys) && y in keys && NoEarlier(order, y, keys) ensures x == y {
        OneLeast(order, keys, x, y);
      }
    }
    var k :| k in keys && NoEarlier(order, k, keys);
    k
  }

  /** The keys of an object as its serialiser writes them. */
  function SortedKeys(order: KeyOrder, keys: set<Str>): seq<Str>
    decreases |keys|
  {
    if keys == {} then [] else var k := Least(order, keys); [k] + SortedKeys(order, keys - {k})
  }

  /** `ks` lists `keys`, each once. */
  ghost predicate Lists(ks: seq<Str>, keys: set<Str>) {
    && (forall k :: k in ks <==> k in keys)
    && (forall i, j :: 0 <= i < j < |ks| ==> ks[i] != ks[j])
  }

  ghost predicate Ascending(order: KeyOrder, ks: seq<Str>) {
    forall i, j :: 0 <= i < j < |ks| ==> KeyCompare(order, ks[i], ks[j]) < 0
  }

  lemma AscendingDiffer(order: KeyOrder, ks: seq<Str>)
    requires Ascending(order, ks)
    ensures forall i, j :: 0 <= i < j < |ks| ==> ks[i] != ks[j]
  {
    forall i, j | 0 <= i < j < |ks| ensures ks[i] != ks[j] { KeysCompare(order, ks[i], ks[j], ks[i]); }
  }

  lemma {:induction false} SortedKeysCount(order: KeyOrder, keys: set<Str>)
    ensures |SortedKeys(order, keys)| == |keys|
    decreases |keys|
  {
    if keys != {} { SortedKeysCount(order, keys - {Least(order, keys)}); }
  }

  lemma {:induction false} SortedKeysList(order: KeyOrder, keys: set<Str>)
    ensures Lists(SortedKeys(order, keys), keys)
    ensures Ascending(order, SortedKeys(order, keys))
    decreases |keys|
  {
    if keys != {} {
      var k := Least(order, keys);
      var rest := SortedKeys(order, keys - {k});
      SortedKeysList(order, keys - {k});
      forall j | 0 <= j < |rest| ensures KeyCompare(order, k, rest[j]) < 0 {
        assert rest[j] in rest;
        KeysCompare(order, k, rest[j], k);
      }
      ListsOneMore(k, rest, keys);
      AscendsFrom(order, k, rest);
    }
  }

  lemma ListsOneMore(k: Str, rest: seq<Str>, keys: set<Str>)
    requires k in keys && Lists(rest, keys - {k})
    ensures Lists([k] + rest, keys)
  {
    var ks := [k] + rest;
    forall x ensures x in ks <==> x in keys { assert x in ks <==> x == k || x in rest; }
    forall i, j | 0 <= i < j < |ks| ensures ks[i] != ks[j] {
      assert ks[j] == rest[j - 1] && rest[j - 1] in rest;
    }
  }

  lemma AscendsFrom(order: KeyOrder, k: Str, rest: seq<Str>)
    requires Ascending(order, rest) && forall j :: 0 <= j < |rest| ==> KeyCompare(order, k, rest[j]) < 0
    ensures Ascending(order, [k] + rest)
  {
  }

  lemma LeastComesFirst(order: KeyOrder, ks: seq<Str>, keys: set<Str>)
    requires Lists(ks, keys) && Ascending(order, ks) && keys != {}
    ensures ks != [] && ks[0] == Least(order, keys)
    ensures Lists(ks[1..], keys - {ks[0]}) && Ascending(order, ks[1..])
  {
    var k := Least(order, keys);
    assert k in ks;
    var i :| 0 <= i < |ks| && ks[i] == k;
    assert ks[0] in keys;
    KeysCompare(order, k, ks[0], k);
    assert i == 0;
  }

  /** Whatever order the host enumerates an object's keys in, sorting them gives this one list. */
  lemma {:induction false} SortedKeysAreTheOnlyArrangement(order: KeyOrder, ks: seq<Str>, keys: set<Str>)
    requires Lists(ks, keys) && Ascending(order, ks)
    ensures ks == SortedKeys(order, keys)
    decreases |keys|
  {
    if keys == {} {
      assert forall k :: k !in ks;
    } else {
      LeastComesFirst(order, ks, keys);
      var k, rest := ks[0], ks[1..];
      assert ks == [k] + rest && k == Least(order, keys);
      SortedKeysAreTheOnlyArrangement(order, rest, keys - {k});
    }
  }
}
