/** Folding repeated submissions: a body submitted again inside the window its first arrival opened
    collapses into that arrival, and every entry admitted gets a key of its own. */
module Dedupe {
  import opened Text
  import opened Sequences

  datatype Submission = Submission(id: string, orgId: string, bodySha256: string, createdAt: int)

  /** The entry a submission is measured against, with the instant that named its group. */
  datatype Incumbent = Incumbent(id: string, anchorCreatedAt: int, open: bool)

  datatype Found = NoneFound | Found(incumbent: Incumbent)

  datatype Decision =
    | Fresh(key: string, anchorCreatedAt: int)
    | Collapse(key: string, into: string, anchorCreatedAt: int)

  datatype Admitted = Admitted(submission: Submission, key: string)

  datatype Absorbed = Absorbed(submission: Submission, into: string)

  datatype Folded = Folded(openGroups: map<string, Incumbent>, admitted: seq<Admitted>, collapsed: seq<Absorbed>)

  /** `String(n)` for any integer. */
  function SignedDecimal(n: int): string {
    if n < 0 then "-" + Decimal(-n) else Decimal(n)
  }

  function Content(s: Submission): string { s.orgId + ":" + s.bodySha256 }

  function DedupeKey(orgId: string, bodySha256: string, anchor: int): string {
    orgId + ":" + bodySha256 + ":" + SignedDecimal(anchor)
  }

  function Decide(s: Submission, incumbent: Found, windowMs: int): Decision {
    var anew := Fresh(DedupeKey(s.orgId, s.bodySha256, s.createdAt), s.createdAt);
    if incumbent.NoneFound? || !incumbent.incumbent.open then anew
    else
      var anchor := incumbent.incumbent.anchorCreatedAt;
      var gap := s.createdAt - anchor;
      if gap < 0 || gap >= windowMs then anew
      else Collapse(DedupeKey(s.orgId, s.bodySha256, anchor), incumbent.incumbent.id, anchor)
  }

  function Lookup(groups: map<string, Incumbent>, content: string): Found {
    if content in groups then Found(groups[content]) else NoneFound
  }

  function Step(f: Folded, s: Submission, windowMs: int): Folded {
    match Decide(s, Lookup(f.openGroups, Content(s)), windowMs)
    case Collapse(_, into, _) => f.(collapsed := f.collapsed + [Absorbed(s, into)])
    case Fresh(key, anchor) =>
      Folded(f.openGroups[Content(s) := Incumbent(s.id, anchor, true)], f.admitted + [Admitted(s, key)], f.collapsed)
  }

  function Fold(submissions: seq<Submission>, windowMs: int): Folded {
    if submissions == [] then Folded(map[], [], [])
    else Step(Fold(submissions[..|submissions| - 1], windowMs), submissions[|submissions| - 1], windowMs)
  }

  /** `collapseDuplicates`: one walk over the stream, holding the group open per content. */
  method CollapseDuplicates(submissions: seq<Submission>, windowMs: int)
    returns (admitted: seq<Admitted>, collapsed: seq<Absorbed>)
    ensures admitted == Fold(submissions, windowMs).admitted && collapsed == Fold(submissions, windowMs).collapsed
  {
    var openGroups: map<string, Incumbent> := map[];
    admitted, collapsed := [], [];
    for i := 0 to |submissions|
      invariant Folded(openGroups, admitted, collapsed) == Fold(submissions[..i], windowMs)
    {
      var s := submissions[i];
      assert submissions[..i + 1][..i] == submissions[..i];
      var decision := Decide(s, Lookup(openGroups, Content(s)), windowMs);
      if decision.Collapse? {
        collapsed := collapsed + [Absorbed(s, decision.into)];
      } else {
        openGroups := openGroups[Content(s) := Incumbent(s.id, decision.anchorCreatedAt, true)];
        admitted := admitted + [Admitted(s, decision.key)];
      }
    }
    assert submissions[..|submissions|] == submissions;
  }

  // ----- what the texts determine -----

  /** The last separator splits a text in one way when what follows it holds none. */
  lemma LastSeparator(a: string, x: string, b: string, y: string)
    requires a + ":" + x == b + ":" + y && ':' !in x && ':' !in y
    ensures a == b && x == y
  {
    SeparatorAt(a, x);
    SeparatorAt(b, y);
    assert |a| == |b|;
    var s := a + ":" + x;
    assert a == s[..|a|] && b == s[..|b|];
    assert x == s[|a| + 1..] && y == s[|b| + 1..];
  }

  lemma SeparatorAt(a: string, x: string)
    requires ':' !in x
    ensures var s := a + ":" + x; s[|a|] == ':' && forall k :: |a| < k < |s| ==> s[k] != ':'
  {
  }

  lemma SignOpens(n: int)
    ensures SignedDecimal(n) != [] && (SignedDecimal(n)[0] == '-' <==> n < 0)
  {
  }

  lemma SignedDecimalIsUnique(m: int, n: int)
    requires SignedDecimal(m) == SignedDecimal(n)
    ensures m == n
  {
    SignOpens(m);
    SignOpens(n);
    if m >= 0 && n >= 0 { ValueOfDecimal(m); ValueOfDecimal(n); }
    if m < 0 && n < 0 {
      assert Decimal(-m) == SignedDecimal(m)[1..] && Decimal(-n) == SignedDecimal(n)[1..];
      ValueOfDecimal(-m);
      ValueOfDecimal(-n);
    }
  }

  lemma NoSeparatorInNumbers(n: int)
    ensures ':' !in SignedDecimal(n)
  {
    var d := Decimal(if n < 0 then -n else n);
    assert forall i :: 0 <= i < |d| ==> IsDigit(d[i]);
  }

  /** Two keys are one text only for one content and one anchor. */
  lemma KeysIdentify(s: Submission, t: Submission, m: int, n: int)
    requires DedupeKey(s.orgId, s.bodySha256, m) == DedupeKey(t.orgId, t.bodySha256, n)
    ensures Content(s) == Content(t) && m == n
  {
    NoSeparatorInNumbers(m);
    NoSeparatorInNumbers(n);
    LastSeparator(Content(s), SignedDecimal(m), Content(t), SignedDecimal(n));
    SignedDecimalIsUnique(m, n);
  }

  /** A digest holds no separator, so one content is one organisation and one body. */
  lemma ContentIdentifies(s: Submission, t: Submission)
    requires ':' !in s.bodySha256 && ':' !in t.bodySha256
    ensures Content(s) == Content(t) <==> s.orgId == t.orgId && s.bodySha256 == t.bodySha256
  {
    if Content(s) == Content(t) { LastSeparator(s.orgId, s.bodySha256, t.orgId, t.bodySha256); }
  }

  // ----- what every fold keeps -----

  ghost predicate SortedStream(s: seq<Submission>) {
    forall i, j :: 0 <= i < j < |s| ==> s[i].createdAt <= s[j].createdAt
  }

  function Submissions(a: seq<Admitted>): seq<Submission> {
    seq(|a|, i requires 0 <= i < |a| => a[i].submission)
  }

  function AbsorbedOnes(c: seq<Absorbed>): seq<Submission> {
    seq(|c|, i requires 0 <= i < |c| => c[i].submission)
  }

  /** The entry an absorbed submission names: same content, opened less than a window before it. */
  ghost predicate Absorbs(a: Admitted, c: Absorbed, windowMs: int) {
    && a.submission.id == c.into && Content(a.submission) == Content(c.submission)
    && 0 <= c.submission.createdAt - a.submission.createdAt < windowMs
  }

  ghost predicate NamesAnEntry(admitted: seq<Admitted>, c: Absorbed, windowMs: int) {
    exists i :: 0 <= i < |admitted| && Absorbs(admitted[i], c, windowMs)
  }

  /** Entry `i` is the last of its content, and holds the open group. */
  ghost predicate HoldsGroup(f: Folded, content: string, i: nat)
    requires content in f.openGroups
  {
    && i < |f.admitted| && Content(f.admitted[i].submission) == content
    && f.openGroups[content] == Incumbent(f.admitted[i].submission.id, f.admitted[i].submission.createdAt, true)
    && forall j :: i < j < |f.admitted| ==> Content(f.admitted[j].submission) != content
  }

  /** The open group of a content is its entry admitted last. */
  ghost predicate GroupIsLast(f: Folded, content: string) {
    if content in f.openGroups then exists i: nat :: HoldsGroup(f, content, i)
    else forall j :: 0 <= j < |f.admitted| ==> Content(f.admitted[j].submission) != content
  }

  ghost predicate Kept(f: Folded, windowMs: int) {
    && (forall i :: 0 <= i < |f.admitted| ==>
          var s := f.admitted[i].submission; f.admitted[i].key == DedupeKey(s.orgId, s.bodySha256, s.createdAt))
    && (forall i :: 0 <= i < |f.collapsed| ==> NamesAnEntry(f.admitted, f.collapsed[i], windowMs))
    && (forall content :: GroupIsLast(f, content))
  }

  ghost predicate Spaced(f: Folded, windowMs: int) {
    forall i, j :: 0 <= i < j < |f.admitted| ==>
      Content(f.admitted[i].submission) == Content(f.admitted[j].submission) ==>
      f.admitted[j].submission.createdAt - f.admitted[i].submission.createdAt >= windowMs
  }

  lemma GroupsStep(f: Folded, s: Submission, windowMs: int, content: string)
    requires GroupIsLast(f, content)
    ensures GroupIsLast(Step(f, s, windowMs), content)
  {
    var g := Step(f, s, windowMs);
    if Decide(s, Lookup(f.openGroups, Content(s)), windowMs).Fresh? {
      if content == Content(s) {
        assert HoldsGroup(g, content, |f.admitted|);
      } else if content in f.openGroups {
        var i: nat :| HoldsGroup(f, content, i);
        assert HoldsGroup(g, content, i);
      }
    } else if content in f.openGroups {
      var i: nat :| HoldsGroup(f, content, i);
      assert HoldsGroup(g, content, i);
    }
  }

  lemma NamesStep(f: Folded, s: Submission, windowMs: int, k: nat)
    requires Kept(f, windowMs) && k < |Step(f, s, windowMs).collapsed|
    ensures NamesAnEntry(Step(f, s, windowMs).admitted, Step(f, s, windowMs).collapsed[k], windowMs)
  {
    var g := Step(f, s, windowMs);
    if k < |f.collapsed| {
      assert NamesAnEntry(f.admitted, f.collapsed[k], windowMs);
      var i :| 0 <= i < |f.admitted| && Absorbs(f.admitted[i], f.collapsed[k], windowMs);
      assert Absorbs(g.admitted[i], g.collapsed[k], windowMs);
    } else {
      assert GroupIsLast(f, Content(s));
      var i: nat :| HoldsGroup(f, Content(s), i);
      assert Absorbs(g.admitted[i], g.collapsed[k], windowMs);
    }
  }

  lemma KeptStep(f: Folded, s: Submission, windowMs: int)
    requires Kept(f, windowMs)
    ensures Kept(Step(f, s, windowMs), windowMs)
  {
    var g := Step(f, s, windowMs);
    forall content ensures GroupIsLast(g, content) { GroupsStep(f, s, windowMs, content); }
    forall k | 0 <= k < |g.collapsed| ensures NamesAnEntry(g.admitted, g.collapsed[k], windowMs) {
      NamesStep(f, s, windowMs, k);
    }
  }

  /** What is admitted anew stands a window after the last entry of its content, and so after all. */
  lemma AdmittedFarApart(f: Folded, s: Submission, windowMs: int, i: nat)
    requires GroupIsLast(f, Content(s)) && Spaced(f, windowMs) && windowMs > 0
    requires forall k :: 0 <= k < |f.admitted| ==> f.admitted[k].submission.createdAt <= s.createdAt
    requires Decide(s, Lookup(f.openGroups, Content(s)), windowMs).Fresh?
    requires i < |f.admitted| && Content(f.admitted[i].submission) == Content(s)
    ensures s.createdAt - f.admitted[i].submission.createdAt >= windowMs
  {
    var last: nat :| HoldsGroup(f, Content(s), last);
    assert f.admitted[last].submission.createdAt <= s.createdAt;
    if i < last {
      assert f.admitted[last].submission.createdAt - f.admitted[i].submission.createdAt >= windowMs;
    } else {
      assert i == last;
    }
  }

  lemma SpacedStep(f: Folded, s: Submission, windowMs: int)
    requires Kept(f, windowMs) && Spaced(f, windowMs) && windowMs > 0
    requires forall i :: 0 <= i < |f.admitted| ==> f.admitted[i].submission.createdAt <= s.createdAt
    ensures Spaced(Step(f, s, windowMs), windowMs)
  {
    if Decide(s, Lookup(f.openGroups, Content(s)), windowMs).Fresh? {
      forall i | 0 <= i < |f.admitted| && Content(f.admitted[i].submission) == Content(s)
        ensures s.createdAt - f.admitted[i].submission.createdAt >= windowMs
      {
        assert GroupIsLast(f, Content(s));
        AdmittedFarApart(f, s, windowMs, i);
      }
    }
  }

  lemma {:induction false} FoldKeeps(submissions: seq<Submission>, windowMs: int)
    ensures Kept(Fold(submissions, windowMs), windowMs)
  {
    if submissions != [] {
      var n := |submissions| - 1;
      FoldKeeps(submissions[..n], windowMs);
      KeptStep(Fold(submissions[..n], windowMs), submissions[n], windowMs);
    }
  }

  /** The submissions a fold has placed, admitted or absorbed. */
  function Placed(f: Folded): multiset<Submission> {
    multiset(Submissions(f.admitted)) + multiset(AbsorbedOnes(f.collapsed))
  }

  lemma AdmittedNext(a: seq<Admitted>, x: Admitted)
    ensures multiset(Submissions(a + [x])) == multiset(Submissions(a)) + multiset{x.submission}
  {
    assert Submissions(a + [x]) == Submissions(a) + [x.submission];
  }

  lemma AbsorbedNext(c: seq<Absorbed>, x: Absorbed)
    ensures multiset(AbsorbedOnes(c + [x])) == multiset(AbsorbedOnes(c)) + multiset{x.submission}
  {
    assert AbsorbedOnes(c + [x]) == AbsorbedOnes(c) + [x.submission];
  }

  lemma PlacedStep(f: Folded, s: Submission, windowMs: int)
    ensures Placed(Step(f, s, windowMs)) == Placed(f) + multiset{s}
  {
    match Decide(s, Lookup(f.openGroups, Content(s)), windowMs) {
      case Collapse(_, into, _) => AbsorbedNext(f.collapsed, Absorbed(s, into));
      case Fresh(key, _) => AdmittedNext(f.admitted, Admitted(s, key));
    }
  }

  lemma PlacedNext(submissions: seq<Submission>, windowMs: int)
    requires submissions != []
    ensures var n := |submissions| - 1;
      Placed(Fold(submissions, windowMs)) == Placed(Fold(submissions[..n], windowMs)) + multiset{submissions[n]}
  {
    var n := |submissions| - 1;
    PlacedStep(Fold(submissions[..n], windowMs), submissions[n], windowMs);
  }

  /** Nothing submitted is lost or doubled: each is admitted or absorbed, once. */
  lemma {:induction false} FoldConserves(submissions: seq<Submission>, windowMs: int)
    ensures Placed(Fold(submissions, windowMs)) == multiset(submissions)
  {
    if submissions != [] {
      var n := |submissions| - 1;
      FoldConserves(submissions[..n], windowMs);
      PlacedNext(submissions, windowMs);
      WithoutLast(submissions);
    }
  }

  lemma {:induction false} FoldSpaces(submissions: seq<Submission>, windowMs: int)
    requires SortedStream(submissions) && windowMs > 0
    ensures Spaced(Fold(submissions, windowMs), windowMs)
  {
    if submissions != [] {
      var n := |submissions| - 1;
      var f, s := Fold(submissions[..n], windowMs), submissions[n];
      FoldSpaces(submissions[..n], windowMs);
      FoldKeeps(submissions[..n], windowMs);
      FoldConserves(submissions[..n], windowMs);
      forall i | 0 <= i < |f.admitted| ensures f.admitted[i].submission.createdAt <= s.createdAt {
        assert Submissions(f.admitted)[i] in Placed(f);
        assert f.admitted[i].submission in multiset(submissions[..n]);
        var k :| 0 <= k < n && submissions[k] == f.admitted[i].submission;
      }
      SpacedStep(f, s, windowMs);
    }
  }

  ghost predicate DistinctKeys(a: seq<Admitted>) {
    forall i, j :: 0 <= i < j < |a| ==> a[i].key != a[j].key
  }

  /** Every absorbed submission names an admitted entry of its own organisation and body, opened less
      than a window before it and never after it. */
  lemma AbsorbedNamesItsEntry(submissions: seq<Submission>, windowMs: int, k: nat)
    requires forall s :: s in submissions ==> ':' !in s.bodySha256
    requires k < |Fold(submissions, windowMs).collapsed|
    ensures var f := Fold(submissions, windowMs);
            exists i :: 0 <= i < |f.admitted| &&
              var a, c := f.admitted[i].submission, f.collapsed[k].submission;
              && a.id == f.collapsed[k].into && a.orgId == c.orgId && a.bodySha256 == c.bodySha256
              && 0 <= c.createdAt - a.createdAt < windowMs
  {
    var f := Fold(submissions, windowMs);
    FoldKeeps(submissions, windowMs);
    FoldConserves(submissions, windowMs);
    var i :| 0 <= i < |f.admitted| && Absorbs(f.admitted[i], f.collapsed[k], windowMs);
    assert Submissions(f.admitted)[i] in Placed(f) && AbsorbedOnes(f.collapsed)[k] in Placed(f);
    ContentIdentifies(f.admitted[i].submission, f.collapsed[k].submission);
  }

  /** The keys of a sorted stream's entries never collide, exactly because the window is positive. */
  lemma KeysNeverCollide(windowMs: int)
    ensures windowMs > 0 <==>
            forall submissions :: SortedStream(submissions) ==> DistinctKeys(Fold(submissions, windowMs).admitted)
  {
    if windowMs > 0 {
      forall submissions | SortedStream(submissions) ensures DistinctKeys(Fold(submissions, windowMs).admitted) {
        SpacedKeysDiffer(submissions, windowMs);
      }
    } else {
      RepeatedKeys(Submission("T", "org", "sha", 0), windowMs);
    }
  }

  lemma SpacedKeysDiffer(submissions: seq<Submission>, windowMs: int)
    requires SortedStream(submissions) && windowMs > 0
    ensures DistinctKeys(Fold(submissions, windowMs).admitted)
  {
    var a := Fold(submissions, windowMs).admitted;
    FoldKeeps(submissions, windowMs);
    FoldSpaces(submissions, windowMs);
    forall i, j | 0 <= i < j < |a| ensures a[i].key != a[j].key {
      var s, t := a[i].submission, a[j].submission;
      if a[i].key == a[j].key { KeysIdentify(s, t, s.createdAt, t.createdAt); }
    }
  }

  lemma RepeatedKeys(s: Submission, windowMs: int)
    requires windowMs <= 0
    ensures SortedStream([s, s]) && !DistinctKeys(Fold([s, s], windowMs).admitted)
  {
    var one, two := [s], [s, s];
    assert two[..|two| - 1] == one && one[..|one| - 1] == [];
    assert Fold([], windowMs) == Folded(map[], [], []);
    var f := Fold(one, windowMs);
    assert f == Step(Fold([], windowMs), s, windowMs);
    var g := Fold(two, windowMs);
    assert g == Step(f, s, windowMs);
    assert g.admitted[0].key == g.admitted[1].key;
  }
}
