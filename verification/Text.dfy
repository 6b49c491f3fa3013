/** Text as the programs order it: sequences of code units, compared left to right, and decimal
    numerals as `String(n)` and `padStart` produce them. */
module Text {

  /** A comparator's answer, reduced to its sign: the only part a sort looks at. */
  function Sign(x: int): int {
    if x < 0 then -1 else if x > 0 then 1 else 0
  }

  /** Code-unit order, the meaning of `<` between two strings. */
  function Compare(a: seq<nat>, b: seq<nat>): int {
    if a == [] then (if b == [] then 0 else -1)
    else if b == [] then 1
    else if a[0] != b[0] then Sign(a[0] as int - b[0] as int)
    else Compare(a[1..], b[1..])
  }

  lemma {:induction false} CompareIsZero(a: seq<nat>, b: seq<nat>)
    ensures Compare(a, b) == 0 <==> a == b
  {
    if a != [] && b != [] && a[0] == b[0] {
      CompareIsZero(a[1..], b[1..]);
      assert a == [a[0]] + a[1..] && b == [b[0]] + b[1..];
    }
  }

  lemma {:induction false} CompareSwaps(a: seq<nat>, b: seq<nat>)
    ensures Compare(a, b) == -Compare(b, a)
    ensures -1 <= Compare(a, b) <= 1
  {
    if a != [] && b != [] && a[0] == b[0] {
      CompareSwaps(a[1..], b[1..]);
    }
  }

  lemma {:induction false} CompareChains(a: seq<nat>, b: seq<nat>, c: seq<nat>)
    requires Compare(a, b) <= 0 && Compare(b, c) <= 0
    ensures Compare(a, c) <= 0
  {
    if a != [] && b != [] && c != [] && a[0] == b[0] == c[0] {
      CompareChains(a[1..], b[1..], c[1..]);
    }
  }

  /** A field of fixed width decides the order before anything written after it. */
  lemma {:induction false} CompareField(a: seq<nat>, x: seq<nat>, b: seq<nat>, y: seq<nat>)
    requires |a| == |b|
    ensures Compare(a + x, b + y) == if a == b then Compare(x, y) else Compare(a, b)
  {
    if a == [] {
      assert a + x == x && b + y == y;
    } else {
      assert (a + x)[1..] == a[1..] + x && (b + y)[1..] == b[1..] + y;
      assert a == [a[0]] + a[1..] && b == [b[0]] + b[1..];
      CompareField(a[1..], x, b[1..], y);
    }
  }

  // ----- decimal numerals -----

  predicate IsDigit(c: char) { '0' <= c <= '9' }

  predicate AllDigits(s: string) { forall i :: 0 <= i < |s| ==> IsDigit(s[i]) }

  function Digit(d: nat): char
    requires d < 10
  {
    '0' + d as char
  }

  /** `String(n)` for a non-negative integer. */
  function Decimal(n: nat): (s: string)
    ensures s != [] && AllDigits(s)
    ensures s[0] == '0' ==> s == "0"
    ensures n > 0 ==> s[0] != '0'
  {
    if n < 10 then [Digit(n)] else Decimal(n / 10) + [Digit(n % 10)]
  }

  /** The number a run of digits denotes; the empty run denotes zero. */
  function Value(s: string): nat
    requires AllDigits(s)
  {
    if s == [] then 0
    else 10 * Value(s[..|s| - 1]) + (s[|s| - 1] as int - '0' as int)
  }

  lemma {:induction false} ValueOfDecimal(n: nat)
    ensures Value(Decimal(n)) == n
  {
    if n >= 10 {
      var d := Decimal(n);
      assert d[..|d| - 1] == Decimal(n / 10);
      ValueOfDecimal(n / 10);
    }
  }

  /** A numeral without a superfluous leading zero is the only one for its value. */
  lemma {:induction false} DecimalOfValue(s: string)
    requires s != [] && AllDigits(s) && (s[0] == '0' ==> s == "0")
    ensures Decimal(Value(s)) == s
  {
    var n := |s| - 1;
    var d := s[n] as int - '0' as int;
    assert s == s[..n] + [s[n]];
    if n == 0 {
      assert Value(s[..0]) == 0;
    } else {
      DecimalOfValue(s[..n]);
    }
  }

  function Pow10(w: nat): nat { if w == 0 then 1 else 10 * Pow10(w - 1) }

  lemma {:induction false} DecimalWidth(n: nat, w: nat)
    requires w > 0
    ensures |Decimal(n)| <= w <==> n < Pow10(w)
  {
    if w == 1 {
      assert Pow10(1) == 10 * Pow10(0);
    } else if n >= 10 {
      DecimalWidth(n / 10, w - 1);
    } else {
      PowGrows(w);
    }
  }

  lemma {:induction false} PowGrows(w: nat)
    requires w > 0
    ensures Pow10(w) >= 10
  {
    if w > 1 { PowGrows(w - 1); }
  }

  function Repeat(c: char, n: nat): (s: string)
    ensures |s| == n && forall i :: 0 <= i < n ==> s[i] == c
  {
    seq(n, _ => c)
  }

  /** `padStart(width, c)`: text already wider than the field is left as it is. */
  function PadStart(s: string, width: nat, c: char): (r: string)
    ensures |r| == if |s| < width then width else |s|
  {
    if |s| >= width then s else Repeat(c, width - |s|) + s
  }

  /** `padEnd(width, c)`. */
  function PadEnd(s: string, width: nat, c: char): (r: string)
    ensures |r| == if |s| < width then width else |s|
  {
    if |s| >= width then s else s + Repeat(c, width - |s|)
  }

  lemma {:induction false} LeadingZeros(k: nat, s: string)
    requires AllDigits(s)
    ensures AllDigits(Repeat('0', k) + s) && Value(Repeat('0', k) + s) == Value(s)
    decreases |s|, k
  {
    var t := Repeat('0', k) + s;
    if s != [] {
      assert t[..|t| - 1] == Repeat('0', k) + s[..|s| - 1];
      LeadingZeros(k, s[..|s| - 1]);
    } else if k > 0 {
      assert t[..|t| - 1] == Repeat('0', k - 1) + s;
      LeadingZeros(k - 1, s);
    }
  }

  function PaddedDecimal(n: nat, w: nat): (s: string)
    ensures AllDigits(s)
  {
    PadStart(Decimal(n), w, '0')
  }

  lemma PaddedDecimalValue(n: nat, w: nat)
    ensures Value(PaddedDecimal(n, w)) == n
    ensures w > 0 && n < Pow10(w) ==> |PaddedDecimal(n, w)| == w
  {
    ValueOfDecimal(n);
    if |Decimal(n)| < w { LeadingZeros(w - |Decimal(n)|, Decimal(n)); }
    if w > 0 { DecimalWidth(n, w); }
  }

  /** The code units of a text made of basic characters. */
  function Codes(s: string): (r: seq<nat>)
    ensures |r| == |s|
  {
    seq(|s|, i requires 0 <= i < |s| => s[i] as nat)
  }

  lemma CodesConcat(s: string, t: string)
    ensures Codes(s + t) == Codes(s) + Codes(t)
  {
  }

  /** Numerals of one width collate as the numbers they denote. */
  lemma {:induction false} FixedWidthCollates(a: string, b: string)
    requires AllDigits(a) && AllDigits(b) && |a| == |b|
    ensures Compare(Codes(a), Codes(b)) == Sign(Value(a) - Value(b))
  {
    if a != [] {
      var n := |a| - 1;
      assert a == a[..n] + [a[n]] && b == b[..n] + [b[n]];
      CodesConcat(a[..n], [a[n]]);
      CodesConcat(b[..n], [b[n]]);
      CompareField(Codes(a[..n]), Codes([a[n]]), Codes(b[..n]), Codes([b[n]]));
      CompareIsZero(Codes(a[..n]), Codes(b[..n]));
      FixedWidthCollates(a[..n], b[..n]);
      assert Compare(Codes([a[n]]), Codes([b[n]])) == Sign(a[n] as int - b[n] as int) by {
        assert Codes([a[n]])[1..] == [] && Codes([b[n]])[1..] == [];
      }
    }
  }
}
