/** The values both serialisers print, and the text they print them as. */
module Values {
  import opened Text
  import opened Utf16

  const MAX_SAFE: int := 0x1F_FFFF_FFFF_FFFF

  /** Values as the host holds them. An object is the map of its own properties: the order its keys
      were inserted in is not part of it. */
  datatype Json =
    | Null
    | Bool(truth: bool)
    | Num(number: int)
    | String(chars: Str)
    | Arr(items: seq<Json>)
    | Obj(members: map<Str, Json>)

  datatype Refusal = NotUnicode | NotInteger

  datatype Written = Written(text: Str) | Refused(why: Refusal)

  // ----- marks -----

  const QUOTE: Unit := 0x22
  const BACKSLASH: Unit := 0x5C
  const COMMA: Unit := 0x2C
  const COLON: Unit := 0x3A
  const OPEN_BRACE: Unit := 0x7B
  const CLOSE_BRACE: Unit := 0x7D
  const OPEN_BRACKET: Unit := 0x5B
  const CLOSE_BRACKET: Unit := 0x5D
  const MINUS: Unit := 0x2D
  const TRUE: Str := [0x74, 0x72, 0x75, 0x65]
  const FALSE: Str := [0x66, 0x61, 0x6C, 0x73, 0x65]
  const NULL: Str := [0x6E, 0x75, 0x6C, 0x6C]

  // ----- strings -----

  function HexDigit(d: nat): Unit
    requires d < 16
  {
    if d < 10 then 0x30 + d else 0x57 + d
  }

  function UnicodeEscape(u: Unit): Str {
    [BACKSLASH, 0x75, HexDigit(u / 0x1000), HexDigit(u / 0x100 % 16), HexDigit(u / 16 % 16), HexDigit(u % 16)]
  }

  /** One unit as `JSON.stringify` writes it: the seven short escapes, numbered escapes for the other
      controls and for a surrogate without its half, everything else as itself. */
  function EscapeUnit(u: Unit): Str {
    if u == QUOTE || u == BACKSLASH then [BACKSLASH, u]
    else if u == 0x08 then [BACKSLASH, 0x62]
    else if u == 0x0C then [BACKSLASH, 0x66]
    else if u == 0x0A then [BACKSLASH, 0x6E]
    else if u == 0x0D then [BACKSLASH, 0x72]
    else if u == 0x09 then [BACKSLASH, 0x74]
    else if u < 0x20 || Surrogate(u) then UnicodeEscape(u)
    else [u]
  }

  function Escape(s: Str): Str {
    if s == [] then []
    else if Paired(s) then [s[0]] + ([s[1]] + Escape(s[2..]))
    else EscapeUnit(s[0]) + Escape(s[1..])
  }

  function Quote(s: Str): Str { [QUOTE] + Escape(s) + [QUOTE] }

  // ----- numbers -----

  function Numeral(n: nat): (t: Str)
    ensures t != [] && forall i :: 0 <= i < |t| ==> 0x30 <= t[i] <= 0x39
  {
    var d := Decimal(n);
    seq(|d|, i requires 0 <= i < |d| => d[i] as int)
  }

  function NumberText(n: int): Str {
    if n >= 0 then Numeral(n) else [MINUS] + Numeral(-n)
  }

  // ----- values -----

  /** Strings and keys under `canonicalValue` must pass the scalar check; `canonicalJson` has none. */
  predicate Spellable(order: KeyOrder, s: Str) { order == ByUnit || ScalarText(s) }

  /** `canonicalValue` (by scalar) and `canonicalJson` (by unit): one text for a value, keys sorted,
      no white space. */
  function Canonical(order: KeyOrder, v: Json): Written
    decreases v, 0
  {
    match v
    case Null => Written(NULL)
    case Bool(truth) => Written(if truth then TRUE else FALSE)
    case Num(n) =>
      if order == ByScalar && !(0 <= n <= MAX_SAFE) then Refused(NotInteger)
      else Written(NumberText(n))
    case String(s) => if Spellable(order, s) then Written(Quote(s)) else Refused(NotUnicode)
    case Arr(items) =>
      var inner := CanonicalItems(order, items);
      if inner.Refused? then inner else Written([OPEN_BRACKET] + inner.text + [CLOSE_BRACKET])
    case Obj(members) =>
      SortedKeysList(order, members.Keys);
      var inner := CanonicalMembers(order, v, SortedKeys(order, members.Keys));
      if inner.Refused? then inner else Written([OPEN_BRACE] + inner.text + [CLOSE_BRACE])
  }

  /** The items in order, with commas between. */
  function CanonicalItems(order: KeyOrder, items: seq<Json>): Written
    decreases items, 0
  {
    if items == [] then Written([])
    else Joined(Canonical(order, items[0]), CanonicalItems(order, items[1..]), |items| == 1)
  }

  function Joined(first: Written, others: Written, last: bool): Written {
    if first.Refused? || last then first
    else if others.Refused? then others
    else Written(first.text + [COMMA] + others.text)
  }

  /** The members under `keys`, in that order, with commas between. */
  function CanonicalMembers(order: KeyOrder, v: Json, keys: seq<Str>): Written
    requires v.Obj? && forall k :: k in keys ==> k in v.members
    decreases v, 0, |keys|
  {
    if keys == [] then Written([])
    else
      assert keys[0] in v.members;
      Joined(Member(order, keys[0], Canonical(order, v.members[keys[0]])), CanonicalMembers(order, v, keys[1..]),
          |keys| == 1)
  }

  function Member(order: KeyOrder, key: Str, value: Written): Written {
    if !Spellable(order, key) then Refused(NotUnicode)
    else if value.Refused? then value
    else Written(Quote(key) + [COLON] + value.text)
  }
}
