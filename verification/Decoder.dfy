/** The decoder itself: one cursor over the source, moved by every reader in turn. */
module Decoder {
  import opened Text
  import opened Utf16
  import opened Values
  import opened Grammar

  datatype Outcome<T> = Returned(value: T) | Thrown(fault: Fault)

  /** A reader's outcome with the cursor it left, in the terms of the grammar. */
  ghost function Came<T>(outcome: Outcome<T>, source: Str, i: nat): Parsed<T> {
    match outcome
    case Returned(value) => Ok(value, if i <= |source| then source[i..] else [])
    case Thrown(fault) => Fail(fault)
  }

  /** Where in the source a literal being skipped from `i` ends; `i` may be past the end. */
  ghost function QuoteFrom(source: Str, i: nat): Option<nat> {
    if i >= |source| then None
    else match QuoteAt(source[i..])
         case None => None
         case Some(n) => Some(i + n)
  }

  lemma QuoteSteps(source: Str, i: nat)
    requires i < |source|
    ensures QuoteFrom(source, i) ==
      if source[i] == QUOTE then Some(i)
      else if source[i] == BACKSLASH then QuoteFrom(source, i + 2)
      else QuoteFrom(source, i + 1)
  {
    assert source[i..][1..] == source[i + 1..];
    if i + 2 <= |source| { assert source[i..][2..] == source[i + 2..]; }
  }

  lemma LiteralEnds(source: Str, start: nat, end: nat)
    requires start < end < |source| && QuoteAt(source[start + 1..]) == Some(end - start - 1)
    requires source[start] == QUOTE
    ensures ReadString(source[start..], true) ==
      match Unescape(source[start + 1..end])
      case None => Fail(Syntax)
      case Some(text) => if !ScalarText(text) then Fail(Unicode) else Ok(text, source[end + 1..])
  {
    var inner, n := source[start + 1..], end - start - 1;
    assert source[start..][1..] == inner;
    assert inner[..n] == source[start + 1..end] && inner[n + 1..] == source[end + 1..];
  }

  class Cursor {
    const source: Str
    var i: nat

    constructor (source: Str)
      ensures this.source == source && i == 0
    {
      this.source := source;
      i := 0;
    }

    method Whitespace()
      requires i <= |source|
      modifies this`i
      ensures i <= |source| && source[i..] == SkipSpace(source[old(i)..])
    {
      while i < |source| && IsWhitespace(source[i])
        invariant i <= |source|
        invariant SkipSpace(source[i..]) == SkipSpace(source[old(i)..])
      {
        assert source[i..][1..] == source[i + 1..];
        i := i + 1;
      }
    }

    function Here(u: Unit): bool
      reads this`i
    {
      i < |source| && source[i] == u
    }

    /** From after the opening quote to after the closing one; a backslash takes the next unit with it,
        even past the end. */
    method SkipLiteral() returns (closed: bool)
      requires i <= |source|
      modifies this`i
      ensures closed == QuoteFrom(source, old(i)).Some?
      ensures closed ==> old(i) < i <= |source| && QuoteFrom(source, old(i)) == Some(i - 1)
    {
      ghost var whole := QuoteFrom(source, i);
      while i < |source|
        invariant old(i) <= i
        invariant whole == QuoteFrom(source, i)
      {
        var c := source[i];
        QuoteSteps(source, i);
        i := i + 1;
        if c == BACKSLASH {
          i := i + 1;
        } else if c == QUOTE {
          return true;
        }
      }
      return false;
    }

    method ReadText() returns (outcome: Outcome<Str>)
      requires Here(QUOTE)
      modifies this`i
      ensures Came(outcome, source, i) == ReadString(source[old(i)..], true)
      ensures outcome.Returned? ==> i <= |source|
    {
      var start := i;
      i := i + 1;
      var closed := SkipLiteral();
      if !closed {
        assert source[start..][1..] == source[start + 1..];
        return Thrown(OpenString);
      }
      LiteralEnds(source, start, i - 1);
      var value := Unescape(source[start + 1..i - 1]);
      if value.None? { return Thrown(Syntax); }
      if !ScalarText(value.value) { return Thrown(Unicode); }
      return Returned(value.value);
    }

    method ReadValue(depth: nat) returns (outcome: Outcome<Json>)
      requires i <= |source|
      modifies this`i
      ensures Came(outcome, source, i) == Read(source[old(i)..], depth, true)
      ensures outcome.Returned? ==> i <= |source|
      decreases |source| - i, 2
    {
      if depth > MAX_DEPTH { return Thrown(Depth); }
      Whitespace();
      if Here(QUOTE) {
        var text := ReadText();
        if text.Thrown? { return Thrown(text.fault); }
        return Returned(String(text.value));
      }
      if Here(OPEN_BRACE) {
        outcome := ReadBraces(depth);
        return;
      }
      if Here(OPEN_BRACKET) {
        outcome := ReadBrackets(depth);
        return;
      }
      outcome := ReadToken();
    }

    method ReadToken() returns (outcome: Outcome<Json>)
      requires i <= |source|
      modifies this`i
      ensures Came(outcome, source, i) == ReadWord(source[old(i)..], true)
      ensures outcome.Returned? ==> i <= |source|
    {
      ghost var t := source[i..];
      if TRUE <= source[i..] {
        assert t[4..] == source[i + 4..];
        i := i + 4;
        return Returned(Bool(true));
      }
      if FALSE <= source[i..] {
        assert t[5..] == source[i + 5..];
        i := i + 5;
        return Returned(Bool(false));
      }
      if NULL <= source[i..] {
        assert t[4..] == source[i + 4..];
        i := i + 4;
        return Returned(Null);
      }
      var token := source[i..][..TokenLength(source[i..])];
      if !IsNumeral(token) || Value(Chars(token)) > MAX_SAFE { return Thrown(Integer); }
      assert t[|token|..] == source[i + |token|..];
      i := i + |token|;
      return Returned(Num(Value(Chars(token))));
    }

    method ReadBraces(depth: nat) returns (outcome: Outcome<Json>)
      requires Here(OPEN_BRACE)
      modifies this`i
      ensures Came(outcome, source, i) == ReadObject(source[old(i)..], depth, true)
      ensures outcome.Returned? ==> i <= |source|
      decreases |source| - i, 1
    {
      assert source[i..][1..] == source[i + 1..];
      i := i + 1;
      Whitespace();
      if Here(CLOSE_BRACE) {
        assert source[i..][1..] == source[i + 1..];
        i := i + 1;
        return Returned(Obj(map[]));
      }
      outcome := ReadEntries(depth);
    }

    method ReadEntries(depth: nat) returns (outcome: Outcome<Json>)
      requires i <= |source|
      modifies this`i
      ensures Came(outcome, source, i) == ReadMembers(source[old(i)..], depth, true, map[])
      ensures outcome.Returned? ==> i <= |source|
      decreases |source| - i, 4
    {
      var entries: map<Str, Json> := map[];
      ghost var start := i;
      while true
        invariant start <= i <= |source|
        invariant ReadMembers(source[i..], depth, true, entries) == ReadMembers(source[start..], depth, true, map[])
        decreases |source| - i
      {
        var entry := ReadMember(depth, entries.Keys);
        if entry.Thrown? { return Thrown(entry.fault); }
        entries := entries[entry.value.key := entry.value.value];
        Whitespace();
        ghost var w := source[i..];
        if Here(CLOSE_BRACE) {
          i := i + 1;
          assert w[1..] == source[i..];
          return Returned(Obj(entries));
        }
        if !Here(COMMA) { return Thrown(ObjectEnd); }
        i := i + 1;
        assert w[1..] == source[i..];
      }
    }

    method ReadName(keys: set<Str>) returns (outcome: Outcome<Str>)
      requires i <= |source|
      modifies this`i
      ensures Came(outcome, source, i) == ReadKey(source[old(i)..], true, keys)
      ensures outcome.Returned? ==> i <= |source|
    {
      Whitespace();
      if !Here(QUOTE) { return Thrown(Key); }
      outcome := ReadText();
      if outcome.Returned? && outcome.value in keys { return Thrown(DuplicateKey); }
    }

    method ReadColonAndValue(depth: nat) returns (outcome: Outcome<Json>)
      requires i <= |source|
      modifies this`i
      ensures Came(outcome, source, i) == ReadMeaning(source[old(i)..], depth, true)
      ensures outcome.Returned? ==> i <= |source|
      decreases |source| - i, 2
    {
      Whitespace();
      if !Here(COLON) { return Thrown(Colon); }
      assert source[i..][1..] == source[i + 1..];
      i := i + 1;
      outcome := ReadValue(depth + 1);
    }

    method ReadMember(depth: nat, keys: set<Str>) returns (outcome: Outcome<Entry>)
      requires i <= |source|
      modifies this`i
      ensures Came(outcome, source, i) == ReadEntry(source[old(i)..], depth, true, keys)
      ensures outcome.Returned? ==> i <= |source|
      decreases |source| - i, 3
    {
      var key := ReadName(keys);
      if key.Thrown? { return Thrown(key.fault); }
      var value := ReadColonAndValue(depth);
      if value.Thrown? { return Thrown(value.fault); }
      return Returned(Entry(key.value, value.value));
    }

    method ReadBrackets(depth: nat) returns (outcome: Outcome<Json>)
      requires Here(OPEN_BRACKET)
      modifies this`i
      ensures Came(outcome, source, i) == ReadArray(source[old(i)..], depth, true)
      ensures outcome.Returned? ==> i <= |source|
      decreases |source| - i, 1
    {
      assert source[i..][1..] == source[i + 1..];
      i := i + 1;
      Whitespace();
      if Here(CLOSE_BRACKET) {
        assert source[i..][1..] == source[i + 1..];
        i := i + 1;
        return Returned(Arr([]));
      }
      outcome := ReadElements(depth);
    }

    method ReadElements(depth: nat) returns (outcome: Outcome<Json>)
      requires i <= |source|
      modifies this`i
      ensures Came(outcome, source, i) == ReadItems(source[old(i)..], depth, true, [])
      ensures outcome.Returned? ==> i <= |source|
      decreases |source| - i, 3
    {
      var items: seq<Json> := [];
      ghost var start := i;
      while true
        invariant start <= i <= |source|
        invariant ReadItems(source[i..], depth, true, items) == ReadItems(source[start..], depth, true, [])
        decreases |source| - i
      {
        var value := ReadValue(depth + 1);
        if value.Thrown? { return Thrown(value.fault); }
        items := items + [value.value];
        Whitespace();
        ghost var w := source[i..];
        if Here(CLOSE_BRACKET) {
          i := i + 1;
          assert w[1..] == source[i..];
          return Returned(Arr(items));
        }
        if !Here(COMMA) { return Thrown(ArrayEnd); }
        i := i + 1;
        assert w[1..] == source[i..];
      }
    }
  }

  /** `decodeStrict` on the text its bytes decode to. */
  method DecodeStrict(source: Str, maxBytes: int) returns (outcome: Outcome<Json>)
    ensures Decode(source, maxBytes).Ok? ==> outcome == Returned(Decode(source, maxBytes).value)
    ensures Decode(source, maxBytes).Fail? ==> outcome == Thrown(Decode(source, maxBytes).fault)
  {
    if !(0 <= maxBytes <= MAX_SAFE) { return Thrown(DecoderBound); }
    if Utf8Length(source) > maxBytes { return Thrown(BodyLimit); }
    var cursor := new Cursor(source);
    assert source[0..] == source;
    outcome := cursor.ReadValue(0);
    if outcome.Thrown? { return; }
    cursor.Whitespace();
    if cursor.i != |source| { return Thrown(Trailing); }
  }
}
