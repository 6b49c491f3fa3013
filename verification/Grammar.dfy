/** What the strict decoder accepts, as functions on the text that is still to be read. */
module Grammar {
  import opened Text
  import opened Money
  import opened Utf16
  import opened Values

  const MAX_DEPTH: nat := 32

  datatype Fault =
    | DecoderBound | BodyLimit | Depth | OpenString | Syntax | Unicode | Key | DuplicateKey
    | Colon | ObjectEnd | ArrayEnd | Integer | Trailing

  datatype Parsed<T> = Ok(value: T, rest: Str) | Fail(fault: Fault)

  datatype Option<T> = None | Some(value: T)

  predicate At(s: Str, u: Unit) { s != [] && s[0] == u }

  predicate IsWhitespace(u: Unit) { u == 0x20 || u == 0x0D || u == 0x0A || u == 0x09 }

  function SkipSpace(s: Str): (r: Str)
    ensures |r| <= |s|
  {
    if s != [] && IsWhitespace(s[0]) then SkipSpace(s[1..]) else s
  }

  // ----- strings -----

  /** Where the first quote that no backslash guards stands. */
  function QuoteAt(s: Str): (at: Option<nat>)
    ensures at.Some? ==> at.value < |s|
  {
    if s == [] then None
    else if s[0] == QUOTE then Some(0)
    else
      var step := if s[0] == BACKSLASH then 2 else 1;
      if |s| < step then None
      else match QuoteAt(s[step..])
           case None => None
           case Some(n) => Some(n + step)
  }

  function HexValue(u: Unit): Option<nat> {
    if 0x30 <= u <= 0x39 then Some(u - 0x30)
    else if 0x41 <= u <= 0x46 then Some(u - 0x37)
    else if 0x61 <= u <= 0x66 then Some(u - 0x57)
    else None
  }

  function HexUnit(s: Str): Option<Unit>
    requires |s| == 4
  {
    match (HexValue(s[0]), HexValue(s[1]), HexValue(s[2]), HexValue(s[3]))
    case (Some(a), Some(b), Some(c), Some(d)) =>
      var n := a * 0x1000 + b * 0x100 + c * 16 + d;
      if n < 0x1_0000 then Some(n) else None
    case _ => None
  }

  /** What a two-character escape stands for. */
  function ShortEscape(u: Unit): Option<Unit> {
    if u == QUOTE || u == BACKSLASH || u == 0x2F then Some(u)
    else if u == 0x62 then Some(0x08)
    else if u == 0x66 then Some(0x0C)
    else if u == 0x6E then Some(0x0A)
    else if u == 0x72 then Some(0x0D)
    else if u == 0x74 then Some(0x09)
    else None
  }

  function Prepend(u: Unit, s: Option<Str>): Option<Str> {
    match s
    case None => None
    case Some(t) => Some([u] + t)
  }

  /** The inside of a string literal under section 7 of RFC 8259; `None` where it is not one. */
  function Unescape(s: Str): Option<Str> {
    if s == [] then Some([])
    else if s[0] == BACKSLASH then
      if |s| >= 6 && s[1] == 0x75 then
        match HexUnit(s[2..6])
        case None => None
        case Some(u) => Prepend(u, Unescape(s[6..]))
      else if |s| >= 2 && ShortEscape(s[1]).Some? then Prepend(ShortEscape(s[1]).value, Unescape(s[2..]))
      else None
    else if s[0] < 0x20 || s[0] == QUOTE then None
    else Prepend(s[0], Unescape(s[1..]))
  }

  /** A string literal, from its opening quote. */
  function ReadString(s: Str, strict: bool): (r: Parsed<Str>)
    requires At(s, QUOTE)
    ensures r.Ok? ==> |r.rest| < |s|
  {
    match QuoteAt(s[1..])
    case None => Fail(OpenString)
    case Some(n) =>
      match Unescape(s[1..][..n])
      case None => Fail(Syntax)
      case Some(text) =>
        if strict && !ScalarText(text) then Fail(Unicode) else Ok(text, s[1..][n + 1..])
  }

  // ----- numbers -----

  predicate EndsToken(u: Unit) {
    u == COMMA || u == CLOSE_BRACKET || u == CLOSE_BRACE || (!Surrogate(u) && IsSpace(u as char))
  }

  function TokenLength(s: Str): (n: nat)
    ensures n <= |s|
  {
    if s == [] || EndsToken(s[0]) then 0 else 1 + TokenLength(s[1..])
  }

  predicate AllNumerals(t: Str) { forall i :: 0 <= i < |t| ==> 0x30 <= t[i] <= 0x39 }

  function Chars(t: Str): (d: string)
    requires AllNumerals(t)
    ensures |d| == |t| && AllDigits(d) && forall i :: 0 <= i < |t| ==> d[i] as int == t[i]
  {
    seq(|t|, i requires 0 <= i < |t| => t[i] as char)
  }

  /** Digits with no superfluous leading zero. */
  predicate IsNumeral(t: Str) { t != [] && AllNumerals(t) && (t[0] == 0x30 ==> |t| == 1) }

  function ReadInteger(s: Str, strict: bool): (r: Parsed<Json>)
    ensures r.Ok? ==> |r.rest| < |s|
  {
    var token := s[..TokenLength(s)];
    var negative := !strict && At(token, MINUS);
    var digits := if negative then token[1..] else token;
    if IsNumeral(digits) && (strict ==> Value(Chars(digits)) <= MAX_SAFE)
    then Ok(Num(if negative then -(Value(Chars(digits)) as int) else Value(Chars(digits))), s[|token|..])
    else Fail(Integer)
  }

  // ----- values -----

  /** A value and what follows it. The decoder is the strict reading; the lenient one drops the depth
      limit, the scalar check and the range of a number, admits a minus sign, and serves only to show that texts which
      differ in nothing else still belong to different values. */
  function Read(s: Str, depth: nat, strict: bool): (r: Parsed<Json>)
    ensures r.Ok? ==> |r.rest| < |s|
    decreases |s|, 2
  {
    if strict && depth > MAX_DEPTH then Fail(Depth)
    else
      var t := SkipSpace(s);
      if At(t, QUOTE) then
        match ReadString(t, strict)
        case Fail(fault) => Fail(fault)
        case Ok(text, rest) => Ok(String(text), rest)
      else if At(t, OPEN_BRACE) then ReadObject(t, depth, strict)
      else if At(t, OPEN_BRACKET) then ReadArray(t, depth, strict)
      else ReadWord(t, strict)
  }

  function ReadWord(t: Str, strict: bool): (r: Parsed<Json>)
    ensures r.Ok? ==> |r.rest| < |t|
  {
    if TRUE <= t then Ok(Bool(true), t[4..])
    else if FALSE <= t then Ok(Bool(false), t[5..])
    else if NULL <= t then Ok(Null, t[4..])
    else ReadInteger(t, strict)
  }

  function ReadObject(t: Str, depth: nat, strict: bool): (r: Parsed<Json>)
    requires At(t, OPEN_BRACE)
    ensures r.Ok? ==> |r.rest| < |t|
    decreases |t|, 1
  {
    var u := SkipSpace(t[1..]);
    if At(u, CLOSE_BRACE) then Ok(Obj(map[]), u[1..]) else ReadMembers(u, depth, strict, map[])
  }

  function ReadArray(t: Str, depth: nat, strict: bool): (r: Parsed<Json>)
    requires At(t, OPEN_BRACKET)
    ensures r.Ok? ==> |r.rest| < |t|
    decreases |t|, 1
  {
    var u := SkipSpace(t[1..]);
    if At(u, CLOSE_BRACKET) then Ok(Arr([]), u[1..]) else ReadItems(u, depth, strict, [])
  }

  datatype Entry = Entry(key: Str, value: Json)

  /** A key that is not among `so`. */
  function ReadKey(s: Str, strict: bool, so: set<Str>): (r: Parsed<Str>)
    ensures r.Ok? ==> |r.rest| < |s|
  {
    var t := SkipSpace(s);
    if !At(t, QUOTE) then Fail(Key)
    else
      var key := ReadString(t, strict);
      if key.Ok? && key.value in so then Fail(DuplicateKey) else key
  }

  /** A colon and the value a key stands for. */
  function ReadMeaning(s: Str, depth: nat, strict: bool): (r: Parsed<Json>)
    ensures r.Ok? ==> |r.rest| < |s|
    decreases |s|, 2
  {
    var u := SkipSpace(s);
    if At(u, COLON) then Read(u[1..], depth + 1, strict) else Fail(Colon)
  }

  /** One member: a key not among `so`, a colon, a value. */
  function ReadEntry(s: Str, depth: nat, strict: bool, so: set<Str>): (r: Parsed<Entry>)
    ensures r.Ok? ==> |r.rest| < |s|
    decreases |s|, 3
  {
    match ReadKey(s, strict, so)
    case Fail(fault) => Fail(fault)
    case Ok(key, rest) =>
      match ReadMeaning(rest, depth, strict)
      case Fail(fault) => Fail(fault)
      case Ok(value, rest) => Ok(Entry(key, value), rest)
  }

  /** The members of an object from the next key on, `so` being those already read. */
  function ReadMembers(s: Str, depth: nat, strict: bool, so: map<Str, Json>): (r: Parsed<Json>)
    ensures r.Ok? ==> |r.rest| < |s|
    decreases |s|, 4
  {
    match ReadEntry(s, depth, strict, so.Keys)
    case Fail(fault) => Fail(fault)
    case Ok(entry, rest) =>
      var w := SkipSpace(rest);
      if At(w, CLOSE_BRACE) then Ok(Obj(so[entry.key := entry.value]), w[1..])
      else if At(w, COMMA) then ReadMembers(w[1..], depth, strict, so[entry.key := entry.value])
      else Fail(ObjectEnd)
  }

  /** The items of an array from the next one on, `so` being those already read. */
  function ReadItems(s: Str, depth: nat, strict: bool, so: seq<Json>): (r: Parsed<Json>)
    ensures r.Ok? ==> |r.rest| < |s|
    decreases |s|, 3
  {
    match Read(s, depth + 1, strict)
    case Fail(fault) => Fail(fault)
    case Ok(value, rest) =>
      var w := SkipSpace(rest);
      if At(w, CLOSE_BRACKET) then Ok(Arr(so + [value]), w[1..])
      else if At(w, COMMA) then ReadItems(w[1..], depth, strict, so + [value])
      else Fail(ArrayEnd)
  }

  /** The whole of a text that arrived as `Utf8Length(source)` bytes. */
  function Decode(source: Str, maxBytes: int): Parsed<Json> {
    if !(0 <= maxBytes <= MAX_SAFE) then Fail(DecoderBound)
    else if Utf8Length(source) > maxBytes then Fail(BodyLimit)
    else match Read(source, 0, true)
      case Fail(fault) => Fail(fault)
      case Ok(value, rest) => var end := SkipSpace(rest); if end == [] then Ok(value, end) else Fail(Trailing)
  }
}
