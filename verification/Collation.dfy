/** The order key encoded as one collating string: descending columns complemented, every number
    padded to a fixed width, the whole compared as text. */
module Collation {
  import opened Text
  import opened Priority

  const TIME_WIDTH: nat := 15
  const PRIORITY_WIDTH: nat := 7
  const PRIORITY_CEILING: int := 9_999_999
  const BAR: string := "|"

  datatype Encoded = Encoded(text: seq<nat>) | PriorityDoesNotFit | CreatedAtDoesNotFit

  /** The columns before the identifier, which all have a fixed width. */
  function Columns(k: Key): string
    requires 0 <= k.priority <= PRIORITY_CEILING && 0 <= k.createdAt
  {
    (if k.breached then "0" else "1") + BAR +
    PaddedDecimal(PRIORITY_CEILING - k.priority, PRIORITY_WIDTH) + BAR +
    PaddedDecimal(k.createdAt, TIME_WIDTH) + BAR
  }

  function StoredCollationKey(k: Key): Encoded {
    if k.priority < 0 || k.priority > PRIORITY_CEILING then PriorityDoesNotFit
    else if k.createdAt < 0 || |Decimal(k.createdAt)| > TIME_WIDTH then CreatedAtDoesNotFit
    else Encoded(Codes(Columns(k)) + k.id)
  }

  /** Zero only for equal encodings; a key that does not fit has no place in this order. */
  function CompareStoredRows(a: Key, b: Key): int
    requires StoredCollationKey(a).Encoded? && StoredCollationKey(b).Encoded?
  {
    var l, r := StoredCollationKey(a).text, StoredCollationKey(b).text;
    if l == r then 0 else if Compare(l, r) < 0 then -1 else 1
  }

  lemma Powers()
    ensures Pow10(7) == 10_000_000 && Pow10(15) == 1_000_000_000_000_000
  {
    assert Pow10(4) == 10_000 && Pow10(7) == 10_000_000;
    assert Pow10(11) == 100_000_000_000;
  }

  lemma EncodesExactlyInRange(k: Key)
    ensures StoredCollationKey(k).Encoded? <==>
            0 <= k.priority <= 9_999_999 && 0 <= k.createdAt < 1_000_000_000_000_000
  {
    Powers();
    if k.createdAt >= 0 { DecimalWidth(k.createdAt, TIME_WIDTH); }
  }

  /** A key computed from a ticket never trips the priority guard. */
  lemma ComputedPrioritiesEncode(f: Features, now: int, w: Weights)
    requires ValidWeights(w)
    ensures !StoredCollationKey(QueueKey(f, now, w)).PriorityDoesNotFit?
  {
    StoredScoreFits(f, now, w);
  }

  lemma FieldsCollate(m: nat, n: nat, width: nat)
    requires width > 0 && m < Pow10(width) && n < Pow10(width)
    ensures |PaddedDecimal(m, width)| == |PaddedDecimal(n, width)| == width
    ensures Compare(Codes(PaddedDecimal(m, width)), Codes(PaddedDecimal(n, width))) == Sign(m - n)
    ensures PaddedDecimal(m, width) == PaddedDecimal(n, width) <==> m == n
  {
    PaddedDecimalValue(m, width);
    PaddedDecimalValue(n, width);
    FixedWidthCollates(PaddedDecimal(m, width), PaddedDecimal(n, width));
  }

  lemma SplitField(s: string, rest: string, x: seq<nat>)
    ensures Codes(s + rest) + x == Codes(s) + (Codes(rest) + x)
  {
    CodesConcat(s, rest);
  }

  /** Comparing `field + bar + tail` is comparing the field, then the tail. */
  lemma FieldThenTail(s: string, x: seq<nat>, t: string, y: seq<nat>)
    requires |s| == |t|
    ensures Compare(Codes(s) + (Codes(BAR) + x), Codes(t) + (Codes(BAR) + y)) ==
            if Codes(s) == Codes(t) then Compare(x, y) else Compare(Codes(s), Codes(t))
  {
    CompareField(Codes(s), Codes(BAR) + x, Codes(t), Codes(BAR) + y);
    CompareField(Codes(BAR), x, Codes(BAR), y);
  }

  lemma EqualTextEqualCodes(s: string, t: string)
    ensures Codes(s) == Codes(t) <==> s == t
  {
    if Codes(s) == Codes(t) {
      assert |s| == |t|;
      forall i | 0 <= i < |s| ensures s[i] == t[i] {
        assert Codes(s)[i] == Codes(t)[i];
      }
    }
  }

  /** A padded number and a bar: the number decides, and what follows where it ties. */
  lemma ColumnDecides(m: nat, n: nat, width: nat, x: seq<nat>, y: seq<nat>)
    requires width > 0 && m < Pow10(width) && n < Pow10(width)
    ensures Compare(Codes(PaddedDecimal(m, width)) + (Codes(BAR) + x),
                    Codes(PaddedDecimal(n, width)) + (Codes(BAR) + y))
         == if m == n then Compare(x, y) else Sign(m - n)
  {
    var s, t := PaddedDecimal(m, width), PaddedDecimal(n, width);
    FieldsCollate(m, n, width);
    FieldThenTail(s, x, t, y);
    EqualTextEqualCodes(s, t);
  }

  /** Collating the texts reads the columns left to right. */
  lemma ColumnsDecideInTurn(a: Key, b: Key)
    requires StoredCollationKey(a).Encoded? && StoredCollationKey(b).Encoded?
    ensures Compare(StoredCollationKey(a).text, StoredCollationKey(b).text) ==
            if a.breached != b.breached then (if a.breached then -1 else 1)
            else if a.priority != b.priority then Sign(b.priority - a.priority)
            else if a.createdAt != b.createdAt then Sign(a.createdAt - b.createdAt)
            else Compare(a.id, b.id)
  {
    EncodesExactlyInRange(a);
    EncodesExactlyInRange(b);
    Powers();
    var fa, fb := if a.breached then "0" else "1", if b.breached then "0" else "1";
    var pa, pb := PaddedDecimal(PRIORITY_CEILING - a.priority, 7), PaddedDecimal(PRIORITY_CEILING - b.priority, 7);
    var ta, tb := PaddedDecimal(a.createdAt, 15), PaddedDecimal(b.createdAt, 15);
    var xa, xb := Codes(ta) + (Codes(BAR) + a.id), Codes(tb) + (Codes(BAR) + b.id);
    var ya, yb := Codes(pa) + (Codes(BAR) + xa), Codes(pb) + (Codes(BAR) + xb);
    Layout(a);
    Layout(b);
    FieldThenTail(fa, ya, fb, yb);
    FlagsCollate(a.breached, b.breached);
    ColumnDecides(PRIORITY_CEILING - a.priority, PRIORITY_CEILING - b.priority, 7, xa, xb);
    ColumnDecides(a.createdAt, b.createdAt, 15, a.id, b.id);
  }

  /** The two encodings of the order agree on every pair of keys that fit, and only equal keys tie. */
  lemma CollationAgreesWithComparator(a: Key, b: Key)
    requires StoredCollationKey(a).Encoded? && StoredCollationKey(b).Encoded?
    ensures CompareStoredRows(a, b) == Sign(CompareKeys(a, b))
    ensures CompareStoredRows(a, b) == 0 <==> a == b
  {
    ColumnsDecideInTurn(a, b);
    CompareSwaps(a.id, b.id);
    CompareIsZero(StoredCollationKey(a).text, StoredCollationKey(b).text);
    KeysTieOnlyWhenEqual(a, b);
  }

  lemma FlagsCollate(a: bool, b: bool)
    ensures var fa, fb := if a then "0" else "1", if b then "0" else "1";
            Compare(Codes(fa), Codes(fb)) == (if a == b then 0 else if a then -1 else 1) &&
            (Codes(fa) == Codes(fb) <==> a == b)
  {
    var fa, fb := if a then "0" else "1", if b then "0" else "1";
    assert Codes(fa)[0] == (if a then 48 else 49) && Codes(fb)[0] == (if b then 48 else 49);
    assert Codes(fa)[1..] == [] && Codes(fb)[1..] == [];
  }

  lemma Layout(k: Key)
    requires StoredCollationKey(k).Encoded?
    ensures StoredCollationKey(k).text ==
            Codes(if k.breached then "0" else "1") + (Codes(BAR) +
            (Codes(PaddedDecimal(PRIORITY_CEILING - k.priority, 7)) + (Codes(BAR) +
            (Codes(PaddedDecimal(k.createdAt, 15)) + (Codes(BAR) + k.id)))))
  {
    var f := if k.breached then "0" else "1";
    var p := PaddedDecimal(PRIORITY_CEILING - k.priority, 7);
    var t := PaddedDecimal(k.createdAt, 15);
    assert Columns(k) == f + (BAR + (p + (BAR + (t + BAR))));
    SplitField(f, BAR + (p + (BAR + (t + BAR))), k.id);
    SplitField(BAR, p + (BAR + (t + BAR)), k.id);
    SplitField(p, BAR + (t + BAR), k.id);
    SplitField(BAR, t + BAR, k.id);
    SplitField(t, BAR, k.id);
  }
}
