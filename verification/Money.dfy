/** Money as whole millionths of a dollar, and the text it becomes at the database's edge. */
module Money {
  import opened Text

  const MICRO_PER_AUD: int := 1_000_000

  datatype Amount = Micro(value: int) | NotADecimal

  function Abs(m: int): nat { if m < 0 then -m else m }

  /** A `numeric(12,6)` rendered with its six decimals. */
  function FormatAud(micro: int): string {
    (if micro < 0 then "-" else "") +
    Decimal(Abs(micro) / MICRO_PER_AUD) + "." + PadStart(Decimal(Abs(micro) % MICRO_PER_AUD), 6, '0')
  }

  /** White space as `trim` and `\s` know it. */
  predicate IsSpace(c: char) {
    var u := c as int;
    || 9 <= u <= 13 || u == 32 || u == 160 || u == 0x1680 || 0x2000 <= u <= 0x200A
    || u == 0x2028 || u == 0x2029 || u == 0x202F || u == 0x205F || u == 0x3000 || u == 0xFEFF
  }

  function TrimStart(s: string): string {
    if s != [] && IsSpace(s[0]) then TrimStart(s[1..]) else s
  }

  function TrimEnd(s: string): string {
    if s != [] && IsSpace(s[|s| - 1]) then TrimEnd(s[..|s| - 1]) else s
  }

  function Trim(s: string): string { TrimEnd(TrimStart(s)) }

  /** The pieces of a text between full stops. */
  function Split(s: string): (pieces: seq<string>)
    ensures pieces != []
  {
    if s == [] then [""]
    else
      var rest := Split(s[1..]);
      if s[0] == '.' then [""] + rest else [[s[0]] + rest[0]] + rest[1..]
  }

  /** Digits with decimals, in millionths; pieces after a second full stop are not looked at, and
      neither are decimals after the sixth. */
  function MicroFromDigits(digits: string): Amount {
    var pieces := Split(digits);
    var whole := pieces[0];
    var fraction := if |pieces| > 1 then pieces[1] else "";
    if !AllDigits(whole) || !AllDigits(fraction) then NotADecimal
    else
      var kept := if |fraction| > 6 then fraction[..6] else fraction;
      Micro(Value(whole) * MICRO_PER_AUD + Value(PadEnd(kept, 6, '0')))
  }

  /** The number a numeric's text denotes, in millionths. */
  function MicroFromNumericText(text: string): Amount {
    var trimmed := Trim(text);
    var negative := trimmed != [] && trimmed[0] == '-';
    var scaled := MicroFromDigits(if negative then trimmed[1..] else trimmed);
    if negative && scaled.Micro? then Micro(-scaled.value) else scaled
  }

  lemma {:induction false} SplitDigits(a: string, b: string)
    requires AllDigits(a) && AllDigits(b)
    ensures Split(a + "." + b) == [a, b]
  {
    var s := a + "." + b;
    if a == [] {
      assert s == "." + b && s[1..] == b;
      SplitPlain(b);
    } else {
      assert s[1..] == a[1..] + "." + b;
      SplitDigits(a[1..], b);
      assert [s[0]] + a[1..] == a;
    }
  }

  lemma {:induction false} SplitPlain(b: string)
    requires AllDigits(b)
    ensures Split(b) == [b]
  {
    if b != [] {
      SplitPlain(b[1..]);
      assert [b[0]] + b[1..] == b;
    }
  }

  lemma TrimKeeps(s: string)
    requires s != [] && !IsSpace(s[0]) && !IsSpace(s[|s| - 1])
    ensures Trim(s) == s
  {
  }

  lemma NotSpace(c: char)
    requires IsDigit(c) || c == '-'
    ensures !IsSpace(c)
  {
  }

  lemma DigitsRead(whole: string, fraction: string)
    requires AllDigits(whole) && AllDigits(fraction) && |fraction| == 6
    ensures MicroFromDigits(whole + "." + fraction) == Micro(Value(whole) * MICRO_PER_AUD + Value(fraction))
  {
    SplitDigits(whole, fraction);
  }

  lemma TrimmedAlready(negative: bool, whole: string, fraction: string)
    requires whole != [] && AllDigits(whole) && fraction != [] && AllDigits(fraction)
    ensures var unsigned := whole + "." + fraction; var text := (if negative then "-" else "") + unsigned;
      Trim(text) == text && (text[0] == '-' <==> negative) && (if negative then text[1..] else text) == unsigned
  {
    var text := (if negative then "-" else "") + (whole + "." + fraction);
    assert text[|text| - 1] == fraction[|fraction| - 1];
    assert text[0] == (if negative then '-' else whole[0]);
    NotSpace(fraction[|fraction| - 1]);
    NotSpace(text[0]);
    TrimKeeps(text);
  }

  /** A sign, a run of digits and six decimals, as the reader takes them. */
  lemma DecimalReads(negative: bool, whole: string, fraction: string)
    requires whole != [] && AllDigits(whole) && AllDigits(fraction) && |fraction| == 6
    ensures var scaled := Value(whole) * MICRO_PER_AUD + Value(fraction);
      MicroFromNumericText((if negative then "-" else "") + (whole + "." + fraction))
        == Micro(if negative then -scaled else scaled)
  {
    TrimmedAlready(negative, whole, fraction);
    DigitsRead(whole, fraction);
  }

  lemma Parts(m: int)
    ensures Abs(m) == Abs(m) / MICRO_PER_AUD * MICRO_PER_AUD + Abs(m) % MICRO_PER_AUD
  {
  }

  /** Every amount survives the trip through text, negatives and cents alike. */
  lemma TextRoundTrip(m: int)
    ensures MicroFromNumericText(FormatAud(m)) == Micro(m)
  {
    var whole := Decimal(Abs(m) / MICRO_PER_AUD);
    var fraction := PaddedDecimal(Abs(m) % MICRO_PER_AUD, 6);
    Parts(m);
    assert Pow10(6) == 1_000_000 by { assert Pow10(4) == 10_000; }
    PaddedDecimalValue(Abs(m) % MICRO_PER_AUD, 6);
    ValueOfDecimal(Abs(m) / MICRO_PER_AUD);
    DecimalReads(m < 0, whole, fraction);
    Associates(if m < 0 then "-" else "", whole, ".", fraction);
  }

  lemma Associates(a: string, b: string, c: string, d: string)
    ensures a + b + c + d == a + (b + c + d)
  {
  }

  function Sum(costs: seq<int>): int {
    if costs == [] then 0 else costs[0] + Sum(costs[1..])
  }

  /** `coalesce(sum(cost_aud), 0)::text` over a column of such texts: exact decimal addition. */
  function SumText(costs: seq<int>): string {
    if costs == [] then "0" else FormatAud(Sum(costs))
  }

  function Costs(texts: seq<string>): seq<int>
    requires forall i :: 0 <= i < |texts| ==> MicroFromNumericText(texts[i]).Micro?
  {
    seq(|texts|, i requires 0 <= i < |texts| => MicroFromNumericText(texts[i]).value)
  }

  function Texts(costs: seq<int>): seq<string> {
    seq(|costs|, i requires 0 <= i < |costs| => FormatAud(costs[i]))
  }

  /** What the ceiling reads back is the sum of the integers that were written, to the millionth. */
  lemma SpentIsExact(costs: seq<int>)
    ensures forall i :: 0 <= i < |costs| ==> MicroFromNumericText(Texts(costs)[i]).Micro?
    ensures MicroFromNumericText(SumText(Costs(Texts(costs)))) == Micro(Sum(costs))
  {
    forall i | 0 <= i < |costs| ensures MicroFromNumericText(Texts(costs)[i]) == Micro(costs[i]) {
      TextRoundTrip(costs[i]);
    }
    assert Costs(Texts(costs)) == costs;
    if costs == [] { ZeroReads(); } else { TextRoundTrip(Sum(costs)); }
  }

  /** `coalesce` answers "0", which reads as nothing spent. */
  lemma ZeroReads()
    ensures MicroFromNumericText("0") == Micro(0)
  {
    assert Trim("0") == "0";
    SplitPlain("0");
    assert Value("0") == 0 by { ValueOfDecimal(0); }
    assert Value(PadEnd("", 6, '0')) == 0 by {
      LeadingZeros(6, "");
      assert PadEnd("", 6, '0') == Repeat('0', 6) + "";
    }
  }

  // ----- prices -----

  function CeilDiv(x: nat, d: nat): nat
    requires d > 0
  {
    (x + d - 1) / d
  }

  /** A model's price per thousand tokens, in millionths. */
  datatype Price = Price(inputPer1k: nat, outputPer1k: nat)

  /** Tokens at a price per thousand, rounded up to the millionth. */
  function PriceMicro(tokens: nat, microPer1k: nat): nat { CeilDiv(tokens * microPer1k, 1000) }

  /** Four characters to a token, rounded up. */
  function EstimateTokens(length: nat): nat { CeilDiv(length, 4) }

  /** What a call is projected to cost: its text at the input price, its allowance at the output price. */
  function ProjectedMicro(systemLength: nat, userLength: nat, maxTokens: nat, inputPer1k: nat, outputPer1k: nat): nat {
    PriceMicro(EstimateTokens(systemLength) + EstimateTokens(userLength), inputPer1k)
        + PriceMicro(maxTokens, outputPer1k)
  }

  function ActualMicro(tokensIn: nat, tokensOut: nat, inputPer1k: nat, outputPer1k: nat): nat {
    PriceMicro(tokensIn, inputPer1k) + PriceMicro(tokensOut, outputPer1k)
  }

  lemma PriceGrows(m: nat, n: nat, price: nat)
    requires m <= n
    ensures PriceMicro(m, price) <= PriceMicro(n, price)
  {
    assert m * price <= n * price;
  }

  /** A call that stays within the estimate and the allowance never costs more than was projected. */
  lemma ProjectionCoversCost(systemLength: nat, userLength: nat, maxTokens: nat, tokensIn: nat, tokensOut: nat,
                             inputPer1k: nat, outputPer1k: nat)
    requires tokensIn <= EstimateTokens(systemLength) + EstimateTokens(userLength) && tokensOut <= maxTokens
    ensures ActualMicro(tokensIn, tokensOut, inputPer1k, outputPer1k)
         <= ProjectedMicro(systemLength, userLength, maxTokens, inputPer1k, outputPer1k)
  {
    PriceGrows(tokensIn, EstimateTokens(systemLength) + EstimateTokens(userLength), inputPer1k);
    PriceGrows(tokensOut, maxTokens, outputPer1k);
  }
}
