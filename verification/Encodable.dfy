/** Printed text has an encoding: whatever strings a value holds, what is written of it is well-formed, so
    the bytes a digest is taken over and a decoder reads carry it without loss. */
module Encodable {
  import opened Utf16
  import opened Values

  lemma {:induction false} Joins(a: Str, b: Str)
    requires WellFormed(a) && WellFormed(b)
    ensures WellFormed(a + b)
  {
    if a == [] {
      assert a + b == b;
    } else if Paired(a) {
      Joins(a[2..], b);
      assert (a + b)[2..] == a[2..] + b;
    } else {
      Joins(a[1..], b);
      assert (a + b)[1..] == a[1..] + b;
    }
  }

  lemma {:induction false} NoSurrogate(s: Str)
    requires forall i :: 0 <= i < |s| ==> !Surrogate(s[i])
    ensures WellFormed(s)
  {
    if s != [] { NoSurrogate(s[1..]); }
  }

  lemma UnitIsWritten(u: Unit)
    ensures WellFormed(EscapeUnit(u))
  {
    NoSurrogate(EscapeUnit(u));
  }

  /** A pair is written as it stands, and a half without its other by number. */
  lemma {:induction false} EscapeIsWellFormed(s: Str)
    ensures WellFormed(Escape(s))
  {
    if s == [] {
    } else if Paired(s) {
      EscapeIsWellFormed(s[2..]);
      var t := [s[0]] + ([s[1]] + Escape(s[2..]));
      assert Paired(t) && t[2..] == Escape(s[2..]);
    } else {
      EscapeIsWellFormed(s[1..]);
      UnitIsWritten(s[0]);
      Joins(EscapeUnit(s[0]), Escape(s[1..]));
    }
  }

  lemma QuoteIsWellFormed(s: Str)
    ensures WellFormed(Quote(s))
  {
    EscapeIsWellFormed(s);
    NoSurrogate([QUOTE]);
    Joins([QUOTE], Escape(s));
    Joins([QUOTE] + Escape(s), [QUOTE]);
  }

  lemma NumberIsWellFormed(n: int)
    ensures WellFormed(NumberText(n))
  {
    NoSurrogate(NumberText(n));
  }

  lemma BetweenMarks(open: Unit, s: Str, close: Unit)
    requires WellFormed(s) && !Surrogate(open) && !Surrogate(close)
    ensures WellFormed([open] + s + [close])
  {
    NoSurrogate([open]);
    NoSurrogate([close]);
    Joins([open], s);
    Joins([open] + s, [close]);
  }

  lemma AroundMark(a: Str, mark: Unit, b: Str)
    requires WellFormed(a) && WellFormed(b) && !Surrogate(mark)
    ensures WellFormed(a + [mark] + b)
  {
    NoSurrogate([mark]);
    Joins(a, [mark]);
    Joins(a + [mark], b);
  }

  predicate Clean(w: Written) { w.Written? ==> WellFormed(w.text) }

  lemma JoinedIsClean(first: Written, others: Written, last: bool)
    requires Clean(first) && Clean(others)
    ensures Clean(Joined(first, others, last))
  {
    if Joined(first, others, last).Written? && !last { AroundMark(first.text, COMMA, others.text); }
  }

  lemma MemberIsClean(order: KeyOrder, key: Str, value: Written)
    requires Clean(value)
    ensures Clean(Member(order, key, value))
  {
    if Member(order, key, value).Written? {
      QuoteIsWellFormed(key);
      AroundMark(Quote(key), COLON, value.text);
    }
  }

  /** Under either order, whatever is printed is well-formed: also of values that hold stranded halves. */
  lemma {:induction false} PrintedIsWellFormed(order: KeyOrder, v: Json)
    ensures Canonical(order, v).Written? ==> WellFormed(Canonical(order, v).text)
    decreases v, 1
  {
    match v {
      case Null => NoSurrogate(NULL);
      case Bool(truth) => NoSurrogate(if truth then TRUE else FALSE);
      case Num(n) => NumberIsWellFormed(n);
      case String(s) => QuoteIsWellFormed(s);
      case Arr(items) =>
        ItemsAreClean(order, items);
        ArrayIsClean(order, v);
      case Obj(members) =>
        SortedKeysList(order, members.Keys);
        MembersAreClean(order, v, SortedKeys(order, members.Keys));
        ObjectIsClean(order, v);
    }
  }

  lemma ArrayIsClean(order: KeyOrder, v: Json)
    requires v.Arr? && Clean(CanonicalItems(order, v.items))
    ensures Clean(Canonical(order, v))
  {
    var inner := CanonicalItems(order, v.items);
    if inner.Written? { BetweenMarks(OPEN_BRACKET, inner.text, CLOSE_BRACKET); }
  }

  lemma ObjectIsClean(order: KeyOrder, v: Json)
    requires v.Obj? && forall k :: k in SortedKeys(order, v.members.Keys) ==> k in v.members
    requires Clean(CanonicalMembers(order, v, SortedKeys(order, v.members.Keys)))
    ensures Clean(Canonical(order, v))
  {
    var inner := CanonicalMembers(order, v, SortedKeys(order, v.members.Keys));
    if inner.Written? { BetweenMarks(OPEN_BRACE, inner.text, CLOSE_BRACE); }
  }

  lemma {:induction false} ItemsAreClean(order: KeyOrder, items: seq<Json>)
    ensures Clean(CanonicalItems(order, items))
    decreases items, 0
  {
    if items != [] {
      PrintedIsWellFormed(order, items[0]);
      ItemsAreClean(order, items[1..]);
      JoinedIsClean(Canonical(order, items[0]), CanonicalItems(order, items[1..]), |items| == 1);
    }
  }

  lemma {:induction false} MembersAreClean(order: KeyOrder, v: Json, keys: seq<Str>)
    requires v.Obj? && forall k :: k in keys ==> k in v.members
    ensures Clean(CanonicalMembers(order, v, keys))
    decreases v, 0, |keys|
  {
    if keys != [] {
      assert keys[0] in v.members;
      var value := Canonical(order, v.members[keys[0]]);
      PrintedIsWellFormed(order, v.members[keys[0]]);
      MembersAreClean(order, v, keys[1..]);
      MemberIsClean(order, keys[0], value);
      JoinedIsClean(Member(order, keys[0], value), CanonicalMembers(order, v, keys[1..]), |keys| == 1);
    }
  }
}
