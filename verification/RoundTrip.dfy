/** The printer and the decoder undo each other. */
module RoundTrip {
  import opened Text
  import opened Utf16
  import opened Values
  import opened Grammar

  // ----- strings -----

  function Later(at: Option<nat>, shift: nat): Option<nat> {
    match at
    case None => None
    case Some(n) => Some(n + shift)
  }

  lemma PlainUnit(u: Unit, t: Str)
    requires u != QUOTE && u != BACKSLASH
    ensures QuoteAt([u] + t) == Later(QuoteAt(t), 1)
    ensures u >= 0x20 ==> Unescape([u] + t) == Prepend(u, Unescape(t))
  {
    assert ([u] + t)[1..] == t;
  }

  lemma EscapedPair(u: Unit, t: Str)
    ensures QuoteAt([BACKSLASH, u] + t) == Later(QuoteAt(t), 2)
    ensures ShortEscape(u).Some? ==> Unescape([BACKSLASH, u] + t) == Prepend(ShortEscape(u).value, Unescape(t))
  {
    assert ([BACKSLASH, u] + t)[2..] == t;
  }

  lemma HexDigitValue(d: nat)
    requires d < 16
    ensures HexValue(HexDigit(d)) == Some(d)
  {
  }

  lemma HexSum(u: Unit)
    ensures (u / 0x1000) * 0x1000 + (u / 0x100 % 16) * 0x100 + (u / 16 % 16) * 16 + u % 16 == u
    ensures u / 0x1000 < 16
  {
  }

  lemma HexDigits(u: Unit)
    ensures HexUnit(UnicodeEscape(u)[2..6]) == Some(u)
  {
    HexDigitValue(u / 0x1000);
    HexDigitValue(u / 0x100 % 16);
    HexDigitValue(u / 16 % 16);
    HexDigitValue(u % 16);
    HexSum(u);
  }

  /** Units that neither quote nor escape hide no quote. */
  lemma {:induction false} PlainRun(e: Str, t: Str)
    requires forall i :: 0 <= i < |e| ==> e[i] != QUOTE && e[i] != BACKSLASH
    ensures QuoteAt(e + t) == Later(QuoteAt(t), |e|)
  {
    if e == [] {
      assert e + t == t;
    } else {
      var rest := e[1..] + t;
      PlainRun(e[1..], t);
      PlainUnit(e[0], rest);
      assert e + t == [e[0]] + rest;
    }
  }

  lemma NumberedQuote(u: Unit, t: Str)
    ensures QuoteAt(UnicodeEscape(u) + t) == Later(QuoteAt(t), 6)
  {
    var e := UnicodeEscape(u);
    PlainRun(e[2..], t);
    EscapedPair(e[1], e[2..] + t);
    assert e + t == [BACKSLASH, e[1]] + (e[2..] + t);
  }

  lemma NumberedEscape(u: Unit, t: Str)
    ensures QuoteAt(UnicodeEscape(u) + t) == Later(QuoteAt(t), 6)
    ensures Unescape(UnicodeEscape(u) + t) == Prepend(u, Unescape(t))
  {
    var e := UnicodeEscape(u);
    NumberedQuote(u, t);
    assert (e + t)[2..6] == e[2..6] && (e + t)[6..] == t;
    HexDigits(u);
  }

  /** The three ways one unit is written. */
  lemma EscapeShapes(u: Unit)
    ensures var e := EscapeUnit(u);
      || (e == [u] && u >= 0x20 && u != QUOTE && u != BACKSLASH)
      || (|e| == 2 && e == [BACKSLASH, e[1]] && ShortEscape(e[1]) == Some(u))
      || e == UnicodeEscape(u)
  {
  }

  lemma EscapedUnit(u: Unit, t: Str)
    ensures QuoteAt(EscapeUnit(u) + t) == Later(QuoteAt(t), |EscapeUnit(u)|)
    ensures Unescape(EscapeUnit(u) + t) == Prepend(u, Unescape(t))
  {
    EscapeShapes(u);
    var e := EscapeUnit(u);
    if e == UnicodeEscape(u) {
      NumberedEscape(u, t);
    } else if e == [u] {
      PlainUnit(u, t);
    } else {
      EscapedPair(e[1], t);
    }
  }

  /** A literal's inside with its closing quote and what follows. */
  function Closed(s: Str, t: Str): Str { Escape(s) + ([QUOTE] + t) }

  lemma Associates(a: Str, b: Str, c: Str)
    ensures (a + b) + c == a + (b + c)
  {
  }

  lemma ClosedSteps(s: Str, t: Str)
    requires s != []
    ensures Paired(s) ==> Closed(s, t) == [s[0]] + ([s[1]] + Closed(s[2..], t)) && |Escape(s)| == 2 + |Escape(s[2..])|
    ensures !Paired(s) ==>
      Closed(s, t) == EscapeUnit(s[0]) + Closed(s[1..], t) && |Escape(s)| == |EscapeUnit(s[0])| + |Escape(s[1..])|
  {
    if Paired(s) {
      var e := Escape(s[2..]);
      Associates([s[0]], [s[1]] + e, [QUOTE] + t);
      Associates([s[1]], e, [QUOTE] + t);
    } else {
      Associates(EscapeUnit(s[0]), Escape(s[1..]), [QUOTE] + t);
    }
  }

  lemma {:induction false} EscapeScans(s: Str, t: Str)
    ensures QuoteAt(Closed(s, t)) == Some(|Escape(s)|)
  {
    if s == [] {
      assert Closed(s, t) == [QUOTE] + t;
    } else {
      ClosedSteps(s, t);
      if Paired(s) {
        var inner := Closed(s[2..], t);
        EscapeScans(s[2..], t);
        PlainUnit(s[1], inner);
        PlainUnit(s[0], [s[1]] + inner);
      } else {
        EscapeScans(s[1..], t);
        EscapedUnit(s[0], Closed(s[1..], t));
      }
    }
  }

  /** `JSON.parse` takes back every string `JSON.stringify` wrote, stranded surrogates included. */
  lemma {:induction false} EscapeReads(s: Str)
    ensures Unescape(Escape(s)) == Some(s)
  {
    if s == [] {
    } else if Paired(s) {
      EscapeReads(s[2..]);
      var inner := Escape(s[2..]);
      PlainUnit(s[1], inner);
      PlainUnit(s[0], [s[1]] + inner);
      assert Escape(s) == [s[0]] + ([s[1]] + inner);
      assert [s[0]] + ([s[1]] + s[2..]) == s;
    } else {
      EscapeReads(s[1..]);
      EscapedUnit(s[0], Escape(s[1..]));
      assert [s[0]] + s[1..] == s;
    }
  }

  lemma StringReads(s: Str, rest: Str, strict: bool)
    ensures ReadString(Quote(s) + rest, strict) == if strict && !ScalarText(s) then Fail(Unicode) else Ok(s, rest)
  {
    var t := Quote(s) + rest;
    var e := Escape(s);
    assert t[1..] == Closed(s, rest);
    EscapeScans(s, rest);
    assert t[1..][..|e|] == e && t[1..][|e| + 1..] == rest;
    EscapeReads(s);
  }

  // ----- numbers -----

  /** What may follow a number: the end, or a mark no token contains. */
  predicate Stops(rest: Str) { rest == [] || EndsToken(rest[0]) }

  lemma {:induction false} TokenEnds(t: Str, rest: Str)
    requires Stops(rest) && forall i :: 0 <= i < |t| ==> !EndsToken(t[i])
    ensures TokenLength(t + rest) == |t|
  {
    if t == [] {
      assert t + rest == rest;
    } else {
      assert (t + rest)[1..] == t[1..] + rest;
      TokenEnds(t[1..], rest);
    }
  }

  lemma NumeralValue(n: nat)
    ensures IsNumeral(Numeral(n)) && Value(Chars(Numeral(n))) == n
  {
    assert Chars(Numeral(n)) == Decimal(n);
    ValueOfDecimal(n);
  }

  lemma NumeralStays(n: nat)
    ensures !EndsToken(MINUS)
    ensures forall i :: 0 <= i < |Numeral(n)| ==> !EndsToken(Numeral(n)[i])
  {
  }

  lemma NumeralReads(n: nat, rest: Str, strict: bool)
    requires Stops(rest) && (strict ==> n <= MAX_SAFE)
    ensures ReadInteger(Numeral(n) + rest, strict) == Ok(Num(n), rest)
  {
    NumeralStays(n);
    TokenEnds(Numeral(n), rest);
    NumeralValue(n);
    assert (Numeral(n) + rest)[..|Numeral(n)|] == Numeral(n);
  }

  lemma NegativeReads(n: nat, rest: Str)
    requires Stops(rest)
    ensures ReadInteger([MINUS] + Numeral(n) + rest, false) == Ok(Num(-(n as int)), rest)
  {
    var token := [MINUS] + Numeral(n);
    assert token[1..] == Numeral(n);
    NumeralStays(n);
    TokenEnds(token, rest);
    NumeralValue(n);
    assert (token + rest)[..|token|] == token && (token + rest)[|token|..] == rest;
  }

  // ----- values -----

  /** No value inside `v` stands deeper than the decoder goes, `v` itself standing at `depth`. */
  ghost predicate Fits(v: Json, depth: nat)
    decreases v
  {
    depth <= MAX_DEPTH &&
    match v
    case Arr(items) => forall i :: 0 <= i < |items| ==> Fits(items[i], depth + 1)
    case Obj(members) => forall k :: k in members ==> Fits(members[k], depth + 1)
    case _ => true
  }

  ghost predicate ItemsFit(items: seq<Json>, depth: nat) {
    forall i :: 0 <= i < |items| ==> Fits(items[i], depth)
  }

  ghost predicate MembersFit(members: map<Str, Json>, keys: seq<Str>, depth: nat)
    requires forall k :: k in keys ==> k in members
  {
    forall k :: k in keys ==> Fits(members[k], depth)
  }

  ghost function Reads(v: Json, fits: bool, rest: Str): Parsed<Json> {
    if fits then Ok(v, rest) else Fail(Depth)
  }

  /** Canonical text opens with a mark of its own, never with space or a closing bracket. */
  lemma CanonicalOpens(order: KeyOrder, v: Json)
    requires Canonical(order, v).Written?
    ensures var t := Canonical(order, v).text;
      t != [] && !IsWhitespace(t[0]) && t[0] != CLOSE_BRACKET && t[0] != CLOSE_BRACE
      && (t[0] == QUOTE <==> v.String?) && (t[0] == OPEN_BRACE <==> v.Obj?) && (t[0] == OPEN_BRACKET <==> v.Arr?)
  {
  }

  lemma NameReads(v: Json, text: Str, rest: Str, strict: bool)
    requires (v == Null && text == NULL) || (v == Bool(true) && text == TRUE) || (v == Bool(false) && text == FALSE)
    ensures ReadWord(text + rest, strict) == Ok(v, rest)
  {
    var t := text + rest;
    assert t[0] == text[0] && t[..|text|] == text && t[|text|..] == rest;
  }

  /** Text that opens like a number is taken for one. */
  lemma NumberOpens(t: Str, strict: bool)
    requires t != [] && (t[0] == MINUS || 0x30 <= t[0] <= 0x39)
    ensures ReadWord(t, strict) == ReadInteger(t, strict)
  {
  }

  lemma TextOpens(n: int, rest: Str)
    ensures var t := NumberText(n) + rest; t != [] && (t[0] == MINUS || 0x30 <= t[0] <= 0x39)
  {
    assert (NumberText(n) + rest)[0] == NumberText(n)[0];
  }

  lemma NumberReads(n: int, strict: bool, rest: Str)
    requires Stops(rest) && (strict ==> 0 <= n <= MAX_SAFE)
    ensures ReadWord(NumberText(n) + rest, strict) == Ok(Num(n), rest)
  {
    TextOpens(n, rest);
    NumberOpens(NumberText(n) + rest, strict);
    if n >= 0 { NumeralReads(n, rest, strict); } else { NegativeReads(-n, rest); }
  }

  lemma WordReads(order: KeyOrder, v: Json, strict: bool, rest: Str)
    requires Canonical(order, v).Written? && Stops(rest) && (strict ==> order == ByScalar)
    requires v.Null? || v.Bool? || v.Num?
    ensures ReadWord(Canonical(order, v).text + rest, strict) == Ok(v, rest)
  {
    match v {
      case Num(n) => NumberReads(n, strict, rest);
      case Null => NameReads(v, NULL, rest, strict);
      case Bool(truth) => NameReads(v, if truth then TRUE else FALSE, rest, strict);
      case _ =>
    }
  }

  lemma {:induction false} ValueReads(order: KeyOrder, v: Json, depth: nat, strict: bool, rest: Str)
    requires Canonical(order, v).Written? && Stops(rest) && (strict ==> order == ByScalar)
    ensures Read(Canonical(order, v).text + rest, depth, strict) == Reads(v, strict ==> Fits(v, depth), rest)
    decreases v, 3
  {
    var text := Canonical(order, v).text;
    var t := text + rest;
    CanonicalOpens(order, v);
    assert t[0] == text[0];
    if strict && depth > MAX_DEPTH {
    } else if v.String? {
      StringReads(v.chars, rest, strict);
    } else if v.Arr? {
      Wraps(OPEN_BRACKET, CanonicalItems(order, v.items).text, CLOSE_BRACKET, rest);
      ArrayReads(order, v, depth, strict, rest);
    } else if v.Obj? {
      var keys := SortedKeys(order, v.members.Keys);
      SortedKeysList(order, v.members.Keys);
      Wraps(OPEN_BRACE, CanonicalMembers(order, v, keys).text, CLOSE_BRACE, rest);
      ObjectReads(order, v, keys, depth, strict, rest);
    } else {
      WordReads(order, v, strict, rest);
    }
  }

  lemma Wraps(open: Unit, inner: Str, close: Unit, rest: Str)
    ensures [open] + inner + [close] + rest == [open] + (inner + [close] + rest)
    ensures ([open] + (inner + [close] + rest))[1..] == inner + [close] + rest
  {
  }

  lemma {:induction false} ArrayReads(order: KeyOrder, v: Json, depth: nat, strict: bool, rest: Str)
    requires v.Arr? && CanonicalItems(order, v.items).Written? && (strict ==> order == ByScalar && depth <= MAX_DEPTH)
    ensures ReadArray([OPEN_BRACKET] + (CanonicalItems(order, v.items).text + [CLOSE_BRACKET] + rest), depth, strict)
         == Reads(v, strict ==> Fits(v, depth), rest)
    decreases v, 1
  {
    var inner := CanonicalItems(order, v.items).text;
    Wraps(OPEN_BRACKET, inner, CLOSE_BRACKET, rest);
    if v.items == [] {
      assert inner + [CLOSE_BRACKET] + rest == [CLOSE_BRACKET] + rest;
      assert ([CLOSE_BRACKET] + rest)[1..] == rest;
    } else {
      ItemsOpen(order, v.items);
      ItemsRead(order, v.items, depth, strict, [], rest);
      assert [] + v.items == v.items;
      assert depth <= MAX_DEPTH ==> (Fits(v, depth) <==> ItemsFit(v.items, depth + 1));
    }
  }

  lemma ItemsOpen(order: KeyOrder, items: seq<Json>)
    requires items != [] && CanonicalItems(order, items).Written?
    ensures Canonical(order, items[0]).Written?
    ensures |items| > 1 ==> CanonicalItems(order, items[1..]).Written?
    ensures CanonicalItems(order, items).text ==
      if |items| == 1 then Canonical(order, items[0]).text
      else Canonical(order, items[0]).text + [COMMA] + CanonicalItems(order, items[1..]).text
    ensures var t := CanonicalItems(order, items).text; t != [] && !IsWhitespace(t[0]) && t[0] != CLOSE_BRACKET
  {
    CanonicalOpens(order, items[0]);
  }

  lemma Regroup(a: Str, mark: Unit, b: Str, close: Unit, rest: Str)
    ensures a + [mark] + b + [close] + rest == a + ([mark] + (b + [close] + rest))
    ensures ([mark] + (b + [close] + rest))[1..] == b + [close] + rest
  {
  }

  lemma LastItem(s: Str, depth: nat, strict: bool, so: seq<Json>, v: Json, rest: Str)
    requires Read(s, depth + 1, strict) == Ok(v, [CLOSE_BRACKET] + rest)
    ensures ReadItems(s, depth, strict, so) == Ok(Arr(so + [v]), rest)
  {
    assert ([CLOSE_BRACKET] + rest)[1..] == rest;
  }

  lemma NextItem(s: Str, depth: nat, strict: bool, so: seq<Json>, v: Json, others: Str)
    requires Read(s, depth + 1, strict) == Ok(v, [COMMA] + others)
    ensures ReadItems(s, depth, strict, so) == ReadItems(others, depth, strict, so + [v])
  {
    assert ([COMMA] + others)[1..] == others;
  }

  lemma ItemsFitStep(items: seq<Json>, depth: nat)
    requires items != []
    ensures ItemsFit(items, depth) <==> Fits(items[0], depth) && ItemsFit(items[1..], depth)
  {
    assert items == [items[0]] + items[1..];
  }

  lemma {:induction false} ItemsRead(order: KeyOrder, items: seq<Json>, depth: nat, strict: bool, so: seq<Json>,
                                     rest: Str)
    requires items != [] && CanonicalItems(order, items).Written? && (strict ==> order == ByScalar)
    ensures ReadItems(CanonicalItems(order, items).text + [CLOSE_BRACKET] + rest, depth, strict, so)
         == Reads(Arr(so + items), strict ==> ItemsFit(items, depth + 1), rest)
    decreases items, 0
  {
    ItemsOpen(order, items);
    ItemsFitStep(items, depth + 1);
    var v := items[0];
    var first := Canonical(order, v).text;
    if |items| == 1 {
      Associates(first, [CLOSE_BRACKET], rest);
      ValueReads(order, v, depth + 1, strict, [CLOSE_BRACKET] + rest);
      if strict ==> Fits(v, depth + 1) {
        LastItem(first + ([CLOSE_BRACKET] + rest), depth, strict, so, v, rest);
      }
      assert so + items == so + [v];
    } else {
      var others := CanonicalItems(order, items[1..]).text + [CLOSE_BRACKET] + rest;
      Regroup(first, COMMA, CanonicalItems(order, items[1..]).text, CLOSE_BRACKET, rest);
      ValueReads(order, v, depth + 1, strict, [COMMA] + others);
      if strict ==> Fits(v, depth + 1) {
        NextItem(first + ([COMMA] + others), depth, strict, so, v, others);
        ItemsRead(order, items[1..], depth, strict, so + [v], rest);
        assert so + [v] + items[1..] == so + items;
      }
    }
  }

  lemma EmptyObjectReads(v: Json, depth: nat, strict: bool, rest: Str)
    requires v.Obj? && v.members == map[]
    ensures ReadObject([OPEN_BRACE] + ([CLOSE_BRACE] + rest), depth, strict) == Ok(v, rest)
  {
    assert ([OPEN_BRACE] + ([CLOSE_BRACE] + rest))[1..] == [CLOSE_BRACE] + rest;
    assert SkipSpace([CLOSE_BRACE] + rest) == [CLOSE_BRACE] + rest;
    assert ([CLOSE_BRACE] + rest)[1..] == rest;
  }

  lemma AllMembersFit(v: Json, keys: seq<Str>, depth: nat)
    requires v.Obj? && Lists(keys, v.members.Keys) && depth <= MAX_DEPTH
    ensures Fits(v, depth) <==> MembersFit(v.members, keys, depth + 1)
  {
  }

  lemma ObjectOpens(after: Str, depth: nat, strict: bool)
    requires At(after, QUOTE)
    ensures ReadObject([OPEN_BRACE] + after, depth, strict) == ReadMembers(after, depth, strict, map[])
  {
    assert ([OPEN_BRACE] + after)[1..] == after;
  }

  /** An object reads back from its members in whatever order they are written. */
  lemma {:induction false} ObjectReads(order: KeyOrder, v: Json, keys: seq<Str>, depth: nat, strict: bool, rest: Str)
    requires v.Obj? && Lists(keys, v.members.Keys) && CanonicalMembers(order, v, keys).Written?
    requires strict ==> order == ByScalar && depth <= MAX_DEPTH
    ensures ReadObject([OPEN_BRACE] + (CanonicalMembers(order, v, keys).text + [CLOSE_BRACE] + rest), depth, strict)
         == Reads(v, strict ==> Fits(v, depth), rest)
    decreases v, 2
  {
    if depth <= MAX_DEPTH { AllMembersFit(v, keys, depth); }
    if keys == [] {
      NoKeys(v.members, keys);
      assert CanonicalMembers(order, v, keys).text + [CLOSE_BRACE] + rest == [CLOSE_BRACE] + rest;
      EmptyObjectReads(v, depth, strict, rest);
    } else {
      MembersOpen(order, v, keys);
      MembersRead(order, v, keys, depth, strict, map[], rest);
      ObjectOpens(CanonicalMembers(order, v, keys).text + [CLOSE_BRACE] + rest, depth, strict);
    }
  }

  lemma NoKeys(members: map<Str, Json>, keys: seq<Str>)
    requires Lists(keys, members.Keys) && keys == []
    ensures members == map[]
  {
    forall k ensures k !in members { assert k !in keys; }
  }

  lemma MembersOpen(order: KeyOrder, v: Json, keys: seq<Str>)
    requires v.Obj? && (forall k :: k in keys ==> k in v.members)
    requires keys != [] && CanonicalMembers(order, v, keys).Written?
    ensures keys[0] in v.members && Spellable(order, keys[0]) && Canonical(order, v.members[keys[0]]).Written?
    ensures |keys| > 1 ==> CanonicalMembers(order, v, keys[1..]).Written?
    ensures CanonicalMembers(order, v, keys).text ==
      var first := Quote(keys[0]) + [COLON] + Canonical(order, v.members[keys[0]]).text;
      if |keys| == 1 then first else first + [COMMA] + CanonicalMembers(order, v, keys[1..]).text
    ensures At(CanonicalMembers(order, v, keys).text, QUOTE)
  {
    assert keys[0] in keys;
  }

  lemma KeyReads(key: Str, strict: bool, so: set<Str>, after: Str)
    requires key !in so && (strict ==> ScalarText(key))
    ensures ReadKey(Quote(key) + after, strict, so) == Ok(key, after)
  {
    assert (Quote(key) + after)[0] == QUOTE;
    StringReads(key, after, strict);
  }

  /** One printed member, read back. */
  lemma {:induction false} EntryReads(order: KeyOrder, v: Json, key: Str, depth: nat, strict: bool, so: set<Str>,
                                      rest: Str)
    requires v.Obj? && key in v.members && key !in so && Stops(rest) && (strict ==> order == ByScalar)
    requires Spellable(order, key) && Canonical(order, v.members[key]).Written?
    ensures ReadEntry(Quote(key) + [COLON] + Canonical(order, v.members[key]).text + rest, depth, strict, so)
         == if strict && !Fits(v.members[key], depth + 1) then Fail(Depth) else Ok(Entry(key, v.members[key]), rest)
    decreases v, 0
  {
    var text := Canonical(order, v.members[key]).text;
    var after := [COLON] + (text + rest);
    Associates(Quote(key), [COLON], text);
    Associates(Quote(key), [COLON] + text, rest);
    Associates([COLON], text, rest);
    KeyReads(key, strict, so, after);
    assert after[1..] == text + rest;
    ValueReads(order, v.members[key], depth + 1, strict, rest);
  }

  /** `so` holds the members of `v` other than those under `keys`. */
  ghost predicate Complements(so: map<Str, Json>, members: map<Str, Json>, keys: seq<Str>) {
    && (forall k :: k in members <==> k in so || k in keys)
    && (forall k :: k in so ==> k in members && so[k] == members[k])
    && (forall k :: k in keys ==> k !in so)
    && (forall i, j :: 0 <= i < j < |keys| ==> keys[i] != keys[j])
  }

  lemma ComplementsStep(so: map<Str, Json>, members: map<Str, Json>, keys: seq<Str>)
    requires Complements(so, members, keys) && keys != []
    ensures keys[0] in members && keys[0] !in so
    ensures Complements(so[keys[0] := members[keys[0]]], members, keys[1..])
    ensures |keys| == 1 ==> so[keys[0] := members[keys[0]]] == members
  {
    var k, rest := keys[0], keys[1..];
    assert keys == [k] + rest;
    assert k in keys;
    assert k !in rest;
    if |keys| == 1 { assert rest == []; }
  }

  lemma MembersFitStep(members: map<Str, Json>, keys: seq<Str>, depth: nat)
    requires keys != [] && forall k :: k in keys ==> k in members
    ensures MembersFit(members, keys, depth) <==>
      Fits(members[keys[0]], depth) && MembersFit(members, keys[1..], depth)
  {
    assert keys == [keys[0]] + keys[1..];
    assert keys[0] in keys;
  }

  lemma LastMember(s: Str, depth: nat, strict: bool, so: map<Str, Json>, entry: Entry, rest: Str)
    requires ReadEntry(s, depth, strict, so.Keys) == Ok(entry, [CLOSE_BRACE] + rest)
    ensures ReadMembers(s, depth, strict, so) == Ok(Obj(so[entry.key := entry.value]), rest)
  {
    assert ([CLOSE_BRACE] + rest)[1..] == rest;
  }

  lemma NextMember(s: Str, depth: nat, strict: bool, so: map<Str, Json>, entry: Entry, others: Str)
    requires ReadEntry(s, depth, strict, so.Keys) == Ok(entry, [COMMA] + others)
    ensures ReadMembers(s, depth, strict, so) == ReadMembers(others, depth, strict, so[entry.key := entry.value])
  {
    assert ([COMMA] + others)[1..] == others;
  }

  lemma {:induction false} MembersRead(order: KeyOrder, v: Json, keys: seq<Str>, depth: nat, strict: bool,
                                       so: map<Str, Json>, rest: Str)
    requires v.Obj? && Complements(so, v.members, keys)
    requires keys != [] && CanonicalMembers(order, v, keys).Written? && (strict ==> order == ByScalar)
    ensures ReadMembers(CanonicalMembers(order, v, keys).text + [CLOSE_BRACE] + rest, depth, strict, so)
         == Reads(v, strict ==> MembersFit(v.members, keys, depth + 1), rest)
    decreases v, 1, |keys|
  {
    MembersOpen(order, v, keys);
    ComplementsStep(so, v.members, keys);
    MembersFitStep(v.members, keys, depth + 1);
    var key, value := keys[0], v.members[keys[0]];
    var first := Quote(key) + [COLON] + Canonical(order, value).text;
    if |keys| == 1 {
      Associates(first, [CLOSE_BRACE], rest);
      EntryReads(order, v, key, depth, strict, so.Keys, [CLOSE_BRACE] + rest);
      if strict ==> Fits(value, depth + 1) {
        LastMember(first + ([CLOSE_BRACE] + rest), depth, strict, so, Entry(key, value), rest);
      }
    } else {
      var others := CanonicalMembers(order, v, keys[1..]).text + [CLOSE_BRACE] + rest;
      Regroup(first, COMMA, CanonicalMembers(order, v, keys[1..]).text, CLOSE_BRACE, rest);
      EntryReads(order, v, key, depth, strict, so.Keys, [COMMA] + others);
      if strict ==> Fits(value, depth + 1) {
        NextMember(first + ([COMMA] + others), depth, strict, so, Entry(key, value), others);
        MembersRead(order, v, keys[1..], depth, strict, so[key := value], rest);
      }
    }
  }

  // ----- the results -----

  /** Every value the scalar serialiser accepts decodes back to itself, provided it fits; the two ways
      it can fail to fit are the only faults its own text can meet. */
  lemma DecodeUndoesCanonical(v: Json, maxBytes: int)
    requires Canonical(ByScalar, v).Written? && 0 <= maxBytes <= MAX_SAFE
    ensures var text := Canonical(ByScalar, v).text;
      Decode(text, maxBytes) ==
        if Utf8Length(text) > maxBytes then Fail(BodyLimit)
        else if Fits(v, 0) then Ok(v, [])
        else Fail(Depth)
  {
    var text := Canonical(ByScalar, v).text;
    ValueReads(ByScalar, v, 0, true, []);
    assert text + [] == text;
  }

  /** Neither serialiser prints two values alike, at any depth. */
  lemma CanonicalDetermines(order: KeyOrder, v: Json, w: Json)
    requires Canonical(order, v).Written? && Canonical(order, v) == Canonical(order, w)
    ensures v == w
  {
    ValueReads(order, v, 0, false, []);
    ValueReads(order, w, 0, false, []);
  }
}
