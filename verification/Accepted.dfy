/** What the decoder accepts, the scalar serialiser can always print again. */
module Accepted {
  import opened Utf16
  import opened Values
  import opened Grammar
  import opened RoundTrip

  /** Every string and key is scalar text and every number a safe non-negative integer. */
  ghost predicate Printable(v: Json) {
    match v
    case Num(n) => 0 <= n <= MAX_SAFE
    case String(s) => ScalarText(s)
    case Arr(items) => forall i :: 0 <= i < |items| ==> Printable(items[i])
    case Obj(members) => forall k :: k in members ==> ScalarText(k) && Printable(members[k])
    case _ => true
  }

  /** The serialiser refuses a value exactly when some part of it cannot be spelled. */
  lemma {:induction false} PrintsExactlyPrintable(v: Json)
    ensures Canonical(ByScalar, v).Written? <==> Printable(v)
    decreases v, 1
  {
    match v {
      case Arr(items) => ItemsPrint(items);
      case Obj(members) =>
        var keys := SortedKeys(ByScalar, members.Keys);
        SortedKeysList(ByScalar, members.Keys);
        MembersPrint(v, keys);
        assert forall k :: k in members <==> k in keys;
      case _ =>
    }
  }

  lemma {:induction false} ItemsPrint(items: seq<Json>)
    ensures CanonicalItems(ByScalar, items).Written? <==> forall i :: 0 <= i < |items| ==> Printable(items[i])
    decreases items, 0
  {
    if items != [] {
      PrintsExactlyPrintable(items[0]);
      ItemsPrint(items[1..]);
      assert items == [items[0]] + items[1..];
    }
  }

  lemma {:induction false} MembersPrint(v: Json, keys: seq<Str>)
    requires v.Obj? && forall k :: k in keys ==> k in v.members
    ensures CanonicalMembers(ByScalar, v, keys).Written?
       <==> forall k :: k in keys ==> ScalarText(k) && Printable(v.members[k])
    decreases v, 0, |keys|
  {
    if keys != [] {
      assert keys == [keys[0]] + keys[1..];
      assert keys[0] in keys;
      PrintsExactlyPrintable(v.members[keys[0]]);
      MembersPrint(v, keys[1..]);
    }
  }

  ghost predicate Keeps(v: Json, depth: nat) { Printable(v) && Fits(v, depth) }

  lemma ReadStringIsScalar(s: Str)
    requires At(s, QUOTE) && ReadString(s, true).Ok?
    ensures ScalarText(ReadString(s, true).value)
  {
  }

  lemma {:induction false} ReadKeeps(s: Str, depth: nat)
    requires Read(s, depth, true).Ok?
    ensures Keeps(Read(s, depth, true).value, depth)
    decreases |s|, 2
  {
    var t := SkipSpace(s);
    if At(t, QUOTE) {
      ReadStringIsScalar(t);
    } else if At(t, OPEN_BRACE) {
      var u := SkipSpace(t[1..]);
      if !At(u, CLOSE_BRACE) { MembersKeep(u, depth, map[]); }
    } else if At(t, OPEN_BRACKET) {
      var u := SkipSpace(t[1..]);
      if !At(u, CLOSE_BRACKET) { ItemsKeep(u, depth, []); }
    }
  }

  ghost predicate MapKeeps(members: map<Str, Json>, depth: nat) {
    forall k :: k in members ==> ScalarText(k) && Keeps(members[k], depth)
  }

  lemma {:induction false} EntryKeeps(s: Str, depth: nat, so: set<Str>)
    requires ReadEntry(s, depth, true, so).Ok?
    ensures var entry := ReadEntry(s, depth, true, so).value;
      ScalarText(entry.key) && Keeps(entry.value, depth + 1)
    decreases |s|, 3
  {
    ReadStringIsScalar(SkipSpace(s));
    var rest := ReadKey(s, true, so).rest;
    var u := SkipSpace(rest);
    assert ReadMeaning(rest, depth, true) == Read(u[1..], depth + 1, true);
    ReadKeeps(u[1..], depth + 1);
  }

  lemma {:induction false} MembersKeep(s: Str, depth: nat, so: map<Str, Json>)
    requires ReadMembers(s, depth, true, so).Ok? && depth <= MAX_DEPTH && MapKeeps(so, depth + 1)
    ensures Keeps(ReadMembers(s, depth, true, so).value, depth)
    decreases |s|, 4
  {
    EntryKeeps(s, depth, so.Keys);
    var entry := ReadEntry(s, depth, true, so.Keys);
    var w := SkipSpace(entry.rest);
    var now := so[entry.value.key := entry.value.value];
    assert MapKeeps(now, depth + 1);
    if At(w, COMMA) { MembersKeep(w[1..], depth, now); }
  }

  lemma {:induction false} ItemsKeep(s: Str, depth: nat, so: seq<Json>)
    requires ReadItems(s, depth, true, so).Ok? && depth <= MAX_DEPTH
    requires forall i :: 0 <= i < |so| ==> Keeps(so[i], depth + 1)
    ensures Keeps(ReadItems(s, depth, true, so).value, depth)
    decreases |s|, 3
  {
    ReadKeeps(s, depth + 1);
    var value := Read(s, depth + 1, true);
    var w := SkipSpace(value.rest);
    if At(w, COMMA) { ItemsKeep(w[1..], depth, so + [value.value]); }
  }

  /** Nothing the decoder returns is ever refused by the serialiser, or too deep to come back. */
  lemma DecodedValuesPrint(source: Str, maxBytes: int)
    requires Decode(source, maxBytes).Ok?
    ensures Canonical(ByScalar, Decode(source, maxBytes).value).Written?
    ensures Fits(Decode(source, maxBytes).value, 0)
  {
    ReadKeeps(source, 0);
    PrintsExactlyPrintable(Read(source, 0, true).value);
  }
}
