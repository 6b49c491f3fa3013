/** Printing what was decoded never takes more bytes than were received, so the canonical text of an
    accepted body is itself accepted, and is its normal form. */
module NormalForm {
  import opened Text
  import opened Utf16
  import opened Values
  import opened Grammar
  import opened RoundTrip
  import opened Accepted

  // ----- bytes and pairs across a cut -----

  lemma {:induction false} BytesAdd(a: Str, b: Str)
    ensures Utf8Length(a + b) == Utf8Length(a) + Utf8Length(b)
  {
    if a == [] {
      assert a + b == b;
    } else {
      assert (a + b)[1..] == a[1..] + b;
      BytesAdd(a[1..], b);
    }
  }

  lemma BytesOne(u: Unit)
    ensures Utf8Length([u]) == if u < 0x80 then 1 else if u < 0x800 || Surrogate(u) then 2 else 3
  {
  }

  /** Text can be cut at any mark that is no surrogate. */
  lemma {:induction false} CutAt(a: Str, mark: Unit, b: Str)
    requires WellFormed(a + [mark] + b) && !Surrogate(mark)
    ensures WellFormed(a) && WellFormed(b)
  {
    var s := a + [mark] + b;
    if a == [] {
      assert s[1..] == b;
    } else if Paired(s) {
      assert a == [s[0], s[1]] + a[2..] && s[2..] == a[2..] + [mark] + b;
      CutAt(a[2..], mark, b);
    } else {
      assert s[1..] == a[1..] + [mark] + b;
      CutAt(a[1..], mark, b);
    }
  }

  lemma {:induction false} DropPlain(s: Str, n: nat)
    requires n <= |s| && WellFormed(s) && forall i :: 0 <= i < n ==> !Surrogate(s[i])
    ensures WellFormed(s[n..])
  {
    if n > 0 {
      DropPlain(s[1..], n - 1);
      assert s[1..][n - 1..] == s[n..];
    }
  }

  lemma {:induction false} SpaceShrinks(s: Str)
    requires WellFormed(s)
    ensures WellFormed(SkipSpace(s)) && Utf8Length(SkipSpace(s)) <= Utf8Length(s)
  {
    if s != [] && IsWhitespace(s[0]) { SpaceShrinks(s[1..]); }
  }

  /** Stepping over one ASCII mark. */
  lemma Step(s: Str)
    requires s != [] && s[0] < 0x80 && WellFormed(s)
    ensures WellFormed(s[1..]) && Utf8Length(s) == 1 + Utf8Length(s[1..])
  {
  }

  // ----- strings -----

  lemma EscapeBytes(u: Unit)
    ensures Utf8Length(EscapeUnit(u)) <= 6
    ensures u >= 0x20 && u != QUOTE && u != BACKSLASH && !Surrogate(u) ==> EscapeUnit(u) == [u]
    ensures Surrogate(u) ==> Utf8Length(EscapeUnit(u)) == 6
  {
    var e := EscapeUnit(u);
    AsciiBytes(e, if |e| == 1 then 0 else |e|);
    BytesOne(u);
  }

  lemma {:induction false} AsciiBytes(s: Str, n: nat)
    requires n <= |s| && forall i :: 0 <= i < n ==> s[i] < 0x80
    ensures Utf8Length(s[..n]) == n
    ensures n == |s| ==> Utf8Length(s) == n
  {
    if n > 0 {
      AsciiBytes(s[1..], n - 1);
      assert s[..n][1..] == s[1..][..n - 1];
    }
    if n == |s| { assert s[..n] == s; }
  }

  /** Writing one more unit in front: a half that finds its other half drops both numbered escapes. */
  lemma EscapeFront(u: Unit, s: Str)
    ensures Utf8Length(Escape([u] + s)) <= Utf8Length(EscapeUnit(u)) + Utf8Length(Escape(s))
    ensures !Surrogate(u) ==> Utf8Length(Escape([u] + s)) == Utf8Length(EscapeUnit(u)) + Utf8Length(Escape(s))
  {
    var t := [u] + s;
    assert t[1..] == s;
    EscapeBytes(u);
    if Paired(t) {
      var e := Escape(s[1..]);
      assert t[2..] == s[1..];
      assert !Paired(s);
      EscapeBytes(s[0]);
      BytesAdd([u], [s[0]] + e);
      BytesAdd([s[0]], e);
      BytesAdd(EscapeUnit(s[0]), e);
      BytesOne(u);
      BytesOne(s[0]);
    } else {
      BytesAdd(EscapeUnit(u), Escape(s));
    }
  }

  lemma ShortEscapeBytes(u: Unit)
    requires ShortEscape(u).Some?
    ensures Utf8Length(EscapeUnit(ShortEscape(u).value)) <= 2 && !Surrogate(ShortEscape(u).value)
  {
    var e := EscapeUnit(ShortEscape(u).value);
    AsciiBytes(e, |e|);
  }

  lemma HexIsAscii(s: Str)
    requires |s| == 4 && HexUnit(s).Some?
    ensures forall i :: 0 <= i < 4 ==> s[i] < 0x80
  {
  }

  /** The writer spends no more on a string than any literal that spells it. */
  lemma {:induction false} EscapeShrinks(body: Str)
    requires WellFormed(body) && Unescape(body).Some?
    ensures Utf8Length(Escape(Unescape(body).value)) <= Utf8Length(body)
    decreases |body|
  {
    if body == [] {
    } else if body[0] == BACKSLASH {
      if |body| >= 6 && body[1] == 0x75 {
        HexIsAscii(body[2..6]);
        assert forall i :: 2 <= i < 6 ==> body[i] == body[2..6][i - 2];
        NumberedShrinks(body);
      } else {
        DropPlain(body, 2);
        EscapeShrinks(body[2..]);
        ShortEscapeBytes(body[1]);
        EscapeFront(ShortEscape(body[1]).value, Unescape(body[2..]).value);
        assert body[1] < 0x80;
        Step(body);
        Step(body[1..]);
        assert body[1..][1..] == body[2..];
      }
    } else if Paired(body) {
      assert body[1..][1..] == body[2..] && body[1] >= 0x20;
      EscapeShrinks(body[2..]);
      RawPair(body[0], body[1], Unescape(body[2..]).value);
    } else {
      EscapeShrinks(body[1..]);
      EscapeFront(body[0], Unescape(body[1..]).value);
      EscapeBytes(body[0]);
      BytesOne(body[0]);
    }
  }

  lemma {:induction false} NumberedShrinks(body: Str)
    requires WellFormed(body) && Unescape(body).Some? && |body| >= 6 && body[0] == BACKSLASH && body[1] == 0x75
    requires forall i :: 0 <= i < 6 ==> body[i] < 0x80
    ensures Utf8Length(Escape(Unescape(body).value)) <= Utf8Length(body)
    decreases |body|, 0
  {
    var u := HexUnit(body[2..6]).value;
    DropPlain(body, 6);
    EscapeShrinks(body[6..]);
    EscapeFront(u, Unescape(body[6..]).value);
    EscapeBytes(u);
    AsciiBytes(body, 6);
    BytesAdd(body[..6], body[6..]);
    assert body == body[..6] + body[6..];
  }

  lemma RawPair(h: Unit, l: Unit, s: Str)
    requires High(h) && Low(l)
    ensures Utf8Length(Escape([h] + ([l] + s))) == 4 + Utf8Length(Escape(s))
  {
    var t := [h] + ([l] + s);
    assert t[2..] == s;
    BytesAdd([h], [l] + Escape(s));
    BytesAdd([l], Escape(s));
    BytesOne(h);
    BytesOne(l);
  }

  lemma StringShrinks(s: Str)
    requires WellFormed(s) && At(s, QUOTE) && ReadString(s, true).Ok?
    ensures var r := ReadString(s, true);
      WellFormed(r.rest) && Utf8Length(Quote(r.value)) + Utf8Length(r.rest) <= Utf8Length(s)
  {
    var inner := s[1..];
    var n := QuoteAt(inner).value;
    QuoteStands(inner);
    var body, rest := inner[..n], inner[n + 1..];
    assert inner == body + [QUOTE] + rest && s == [QUOTE] + inner;
    CutAt(body, QUOTE, rest);
    EscapeShrinks(body);
    var e := Escape(Unescape(body).value);
    BytesOne(QUOTE);
    BytesAdd([QUOTE], inner);
    BytesAdd(body + [QUOTE], rest);
    BytesAdd(body, [QUOTE]);
    BytesAdd([QUOTE] + e, [QUOTE]);
    BytesAdd([QUOTE], e);
  }

  lemma {:induction false} QuoteStands(s: Str)
    requires QuoteAt(s).Some?
    ensures s[QuoteAt(s).value] == QUOTE
  {
    if s[0] != QUOTE { QuoteStands(s[if s[0] == BACKSLASH then 2 else 1..]); }
  }

  // ----- values -----

  ghost function Bytes(v: Json): nat {
    var written := Canonical(ByScalar, v);
    if written.Written? then Utf8Length(written.text) else 0
  }

  /** Each item with the mark that follows it. */
  ghost function ItemBytes(items: seq<Json>): nat {
    if items == [] then 0 else Bytes(items[0]) + 1 + ItemBytes(items[1..])
  }

  lemma {:induction false} ItemBytesAppend(items: seq<Json>, v: Json)
    ensures ItemBytes(items + [v]) == ItemBytes(items) + Bytes(v) + 1
  {
    if items != [] {
      assert (items + [v])[1..] == items[1..] + [v];
      ItemBytesAppend(items[1..], v);
    } else {
      assert items + [v] == [v] && [v][1..] == [];
    }
  }

  lemma {:induction false} ItemsWeigh(items: seq<Json>)
    requires items != [] && CanonicalItems(ByScalar, items).Written?
    ensures Utf8Length(CanonicalItems(ByScalar, items).text) + 1 == ItemBytes(items)
  {
    ItemsOpen(ByScalar, items);
    if |items| == 1 {
      assert items[1..] == [];
    } else {
      ItemsWeigh(items[1..]);
      var first, others := Canonical(ByScalar, items[0]).text, CanonicalItems(ByScalar, items[1..]).text;
      BytesAdd(first + [COMMA], others);
      BytesAdd(first, [COMMA]);
      BytesOne(COMMA);
    }
  }

  ghost function EntryBytes(k: Str, v: Json): nat { Utf8Length(Quote(k)) + 1 + Bytes(v) + 1 }

  ghost function MapBytes(m: map<Str, Json>): nat
    decreases |m|
  {
    if m == map[] then 0 else var k :| k in m; EntryBytes(k, m[k]) + MapBytes(m - {k})
  }

  /** The total does not depend on the order the members are counted in. */
  lemma {:induction false} MapBytesWithout(m: map<Str, Json>, k: Str)
    requires k in m
    ensures MapBytes(m) == EntryBytes(k, m[k]) + MapBytes(m - {k})
    decreases |m|
  {
    var first :| first in m && MapBytes(m) == EntryBytes(first, m[first]) + MapBytes(m - {first});
    if first != k {
      MapBytesWithout(m - {first}, k);
      MapBytesWithout(m - {k}, first);
      assert m - {first} - {k} == m - {k} - {first};
    }
  }

  lemma MapBytesInsert(so: map<Str, Json>, k: Str, v: Json)
    requires k !in so
    ensures MapBytes(so[k := v]) == MapBytes(so) + EntryBytes(k, v)
  {
    MapBytesWithout(so[k := v], k);
    assert so[k := v] - {k} == so;
  }

  lemma {:induction false} MembersWeigh(v: Json, keys: seq<Str>, m: map<Str, Json>)
    requires v.Obj? && Lists(keys, m.Keys) && (forall k :: k in m ==> k in v.members && v.members[k] == m[k])
    requires CanonicalMembers(ByScalar, v, keys).Written?
    ensures keys == [] ==> MapBytes(m) == 0
    ensures keys != [] ==> Utf8Length(CanonicalMembers(ByScalar, v, keys).text) + 1 == MapBytes(m)
    decreases |keys|
  {
    if keys == [] {
      NoKeys(m, keys);
    } else {
      MembersOpen(ByScalar, v, keys);
      var k := keys[0];
      assert k in keys;
      var first := Quote(k) + [COLON] + Canonical(ByScalar, v.members[k]).text;
      MapBytesWithout(m, k);
      EntryWeighs(k, v.members[k]);
      ListsStep(keys, m.Keys);
      assert (m - {k}).Keys == m.Keys - {k};
      if |keys| == 1 {
        NoKeys(m - {k}, keys[1..]);
      } else {
        MembersWeigh(v, keys[1..], m - {k});
        var others := CanonicalMembers(ByScalar, v, keys[1..]).text;
        BytesAdd(first + [COMMA], others);
        BytesAdd(first, [COMMA]);
        BytesOne(COMMA);
      }
    }
  }

  lemma ListsStep(keys: seq<Str>, all: set<Str>)
    requires Lists(keys, all) && keys != []
    ensures Lists(keys[1..], all - {keys[0]})
  {
    assert keys == [keys[0]] + keys[1..];
  }

  lemma EntryWeighs(k: Str, v: Json)
    requires Canonical(ByScalar, v).Written?
    ensures Utf8Length(Quote(k) + [COLON] + Canonical(ByScalar, v).text) + 1 == EntryBytes(k, v)
  {
    BytesAdd(Quote(k) + [COLON], Canonical(ByScalar, v).text);
    BytesAdd(Quote(k), [COLON]);
    BytesOne(COLON);
  }

  lemma ArrayWeighs(items: seq<Json>)
    requires Canonical(ByScalar, Arr(items)).Written?
    ensures Bytes(Arr(items)) <= if items == [] then 2 else 1 + ItemBytes(items)
  {
    var inner := CanonicalItems(ByScalar, items).text;
    Enclosed(OPEN_BRACKET, inner, CLOSE_BRACKET);
    if items != [] { ItemsWeigh(items); }
  }

  lemma ObjectWeighs(members: map<Str, Json>)
    requires Canonical(ByScalar, Obj(members)).Written?
    ensures Bytes(Obj(members)) <= if members == map[] then 2 else 1 + MapBytes(members)
  {
    var keys := SortedKeys(ByScalar, members.Keys);
    SortedKeysList(ByScalar, members.Keys);
    var inner := CanonicalMembers(ByScalar, Obj(members), keys).text;
    Enclosed(OPEN_BRACE, inner, CLOSE_BRACE);
    MembersWeigh(Obj(members), keys, members);
    if keys == [] {
      NoKeys(members, keys);
      assert inner == [];
    } else {
      SomeKey(members, keys);
    }
  }

  lemma SomeKey(members: map<Str, Json>, keys: seq<Str>)
    requires Lists(keys, members.Keys) && keys != []
    ensures members != map[]
  {
    assert keys[0] in keys;
  }

  lemma Enclosed(open: Unit, inner: Str, close: Unit)
    requires open < 0x80 && close < 0x80
    ensures Utf8Length([open] + inner + [close]) == Utf8Length(inner) + 2
  {
    BytesAdd([open] + inner, [close]);
    BytesAdd([open], inner);
    BytesOne(open);
    BytesOne(close);
  }

  // ----- reading spends -----

  lemma WordShrinks(t: Str)
    requires WellFormed(t) && ReadWord(t, true).Ok?
    ensures var r := ReadWord(t, true);
      WellFormed(r.rest) && Bytes(r.value) + Utf8Length(r.rest) <= Utf8Length(t)
  {
    var n := |t| - |ReadWord(t, true).rest|;
    WordTaken(t);
    assert forall i :: 0 <= i < n ==> t[i] == t[..n][i];
    DropPlain(t, n);
    AsciiBytes(t, n);
    BytesAdd(t[..n], t[n..]);
    assert t == t[..n] + t[n..];
  }

  /** The units a word takes are its canonical text. */
  lemma WordTaken(t: Str)
    requires ReadWord(t, true).Ok?
    ensures var r := ReadWord(t, true); var n := |t| - |r.rest|;
      n >= 0 && r.rest == t[n..] && Canonical(ByScalar, r.value) == Written(t[..n])
      && forall i :: 0 <= i < n ==> t[..n][i] < 0x80
  {
    if TRUE <= t || FALSE <= t || NULL <= t {
    } else {
      var token := t[..TokenLength(t)];
      NumeralTaken(token);
    }
  }

  lemma NumeralTaken(token: Str)
    requires IsNumeral(token)
    ensures Numeral(Value(Chars(token))) == token
  {
    DecimalOfValue(Chars(token));
  }

  lemma {:induction false} ReadShrinks(s: Str, depth: nat)
    requires WellFormed(s) && Read(s, depth, true).Ok?
    ensures var r := Read(s, depth, true);
      WellFormed(r.rest) && Bytes(r.value) + Utf8Length(r.rest) <= Utf8Length(s)
    decreases |s|, 2
  {
    var t := SkipSpace(s);
    SpaceShrinks(s);
    if At(t, QUOTE) {
      StringShrinks(t);
    } else if At(t, OPEN_BRACE) {
      ObjectShrinks(t, depth);
    } else if At(t, OPEN_BRACKET) {
      ArrayShrinks(t, depth);
    } else {
      WordShrinks(t);
    }
  }

  lemma {:induction false} ObjectShrinks(t: Str, depth: nat)
    requires WellFormed(t) && At(t, OPEN_BRACE) && ReadObject(t, depth, true).Ok? && depth <= MAX_DEPTH
    ensures var r := ReadObject(t, depth, true);
      WellFormed(r.rest) && Bytes(r.value) + Utf8Length(r.rest) <= Utf8Length(t)
    decreases |t|, 1
  {
    var u := SkipSpace(t[1..]);
    Step(t);
    SpaceShrinks(t[1..]);
    if At(u, CLOSE_BRACE) {
      Step(u);
      PrintsExactlyPrintable(Obj(map[]));
      ObjectWeighs(map[]);
    } else {
      MembersKeep(u, depth, map[]);
      MembersShrink(u, depth, map[]);
      var r := ReadMembers(u, depth, true, map[]);
      PrintsExactlyPrintable(r.value);
      ObjectWeighs(r.value.members);
    }
  }

  lemma {:induction false} ArrayShrinks(t: Str, depth: nat)
    requires WellFormed(t) && At(t, OPEN_BRACKET) && ReadArray(t, depth, true).Ok? && depth <= MAX_DEPTH
    ensures var r := ReadArray(t, depth, true);
      WellFormed(r.rest) && Bytes(r.value) + Utf8Length(r.rest) <= Utf8Length(t)
    decreases |t|, 1
  {
    var u := SkipSpace(t[1..]);
    Step(t);
    SpaceShrinks(t[1..]);
    if At(u, CLOSE_BRACKET) {
      Step(u);
      PrintsExactlyPrintable(Arr([]));
      ArrayWeighs([]);
    } else {
      ItemsKeep(u, depth, []);
      ItemsShrink(u, depth, []);
      var r := ReadItems(u, depth, true, []);
      PrintsExactlyPrintable(r.value);
      ArrayWeighs(r.value.items);
    }
  }

  lemma {:induction false} EntryShrinks(s: Str, depth: nat, so: set<Str>)
    requires WellFormed(s) && ReadEntry(s, depth, true, so).Ok?
    ensures var r := ReadEntry(s, depth, true, so);
      WellFormed(r.rest) && EntryBytes(r.value.key, r.value.value) + Utf8Length(r.rest) <= Utf8Length(s) + 1
    decreases |s|, 3
  {
    var t := SkipSpace(s);
    SpaceShrinks(s);
    StringShrinks(t);
    var key := ReadString(t, true);
    var u := SkipSpace(key.rest);
    SpaceShrinks(key.rest);
    Step(u);
    ReadShrinks(u[1..], depth + 1);
  }

  lemma {:induction false} MembersShrink(s: Str, depth: nat, so: map<Str, Json>)
    requires WellFormed(s) && ReadMembers(s, depth, true, so).Ok?
    ensures var r := ReadMembers(s, depth, true, so);
      WellFormed(r.rest) && r.value.Obj? && r.value.members != map[]
      && MapBytes(r.value.members) + Utf8Length(r.rest) <= MapBytes(so) + Utf8Length(s)
    decreases |s|, 4
  {
    EntryShrinks(s, depth, so.Keys);
    var entry := ReadEntry(s, depth, true, so.Keys);
    var now := so[entry.value.key := entry.value.value];
    MapBytesInsert(so, entry.value.key, entry.value.value);
    var w := SkipSpace(entry.rest);
    SpaceShrinks(entry.rest);
    Step(w);
    if At(w, CLOSE_BRACE) {
      assert entry.value.key in now;
    } else {
      MembersShrink(w[1..], depth, now);
    }
  }

  /** One item and the mark after it. */
  lemma {:induction false} ItemShrinks(s: Str, depth: nat, so: seq<Json>)
    requires WellFormed(s) && ReadItems(s, depth, true, so).Ok?
    ensures var value := Read(s, depth + 1, true); var w := SkipSpace(value.rest);
      && value.Ok? && w != [] && WellFormed(w[1..])
      && ItemBytes(so + [value.value]) + Utf8Length(w[1..]) <= ItemBytes(so) + Utf8Length(s)
    decreases |s|, 3
  {
    ReadShrinks(s, depth + 1);
    var value := Read(s, depth + 1, true);
    ItemBytesAppend(so, value.value);
    SpaceShrinks(value.rest);
    Step(SkipSpace(value.rest));
  }

  lemma {:induction false} ItemsShrink(s: Str, depth: nat, so: seq<Json>)
    requires WellFormed(s) && ReadItems(s, depth, true, so).Ok?
    ensures var r := ReadItems(s, depth, true, so);
      WellFormed(r.rest) && r.value.Arr? && r.value.items != []
      && ItemBytes(r.value.items) + Utf8Length(r.rest) <= ItemBytes(so) + Utf8Length(s)
    decreases |s|, 4
  {
    ItemShrinks(s, depth, so);
    var value := Read(s, depth + 1, true);
    var w := SkipSpace(value.rest);
    if At(w, COMMA) { ItemsShrink(w[1..], depth, so + [value.value]); }
  }

  /** An accepted body has a canonical text, that text fits the bound the body was accepted under, and
      decoding it again gives the same value. */
  lemma CanonicalIsNormalForm(source: Str, maxBytes: int)
    requires WellFormed(source) && Decode(source, maxBytes).Ok?
    ensures var v := Decode(source, maxBytes).value;
      Canonical(ByScalar, v).Written?
      && Utf8Length(Canonical(ByScalar, v).text) <= Utf8Length(source)
      && Decode(Canonical(ByScalar, v).text, maxBytes) == Ok(v, [])
  {
    var v := Decode(source, maxBytes).value;
    DecodedValuesPrint(source, maxBytes);
    ReadShrinks(source, 0);
    DecodeUndoesCanonical(v, maxBytes);
  }

  /** Canonical text is unchanged by the trip through a value. */
  lemma CanonicalTextIsFixed(v: Json, maxBytes: int)
    requires Canonical(ByScalar, v).Written? && Decode(Canonical(ByScalar, v).text, maxBytes).Ok?
    ensures Canonical(ByScalar, Decode(Canonical(ByScalar, v).text, maxBytes).value) == Canonical(ByScalar, v)
  {
    DecodeUndoesCanonical(v, maxBytes);
  }
}
