/** The corpus's two self-tests: headroom before anything is written, and reconciliation of what was. */
module Manifest {
  import opened Utf16
  import opened Grammar
  import opened Chain
  import opened Sequences
  import opened Corpus

  // ----- headroom -----

  datatype Refusal = TooFew | NotDisjoint | NoMargin | BelowMinimum

  datatype Headroom = Enough | Short(why: Refusal)

  function Ceil(x: real): int { -((-x).Floor) }

  function Required(sizes: Sizes): nat { Offset(sizes, 4) }

  function AllIds(kinds: seq<SplitEntry>): seq<Str> {
    if kinds == [] then [] else AllIds(kinds[..|kinds| - 1]) + kinds[|kinds| - 1].itemIds
  }

  /** Some set does not hold what it declares, or some id stands twice among the sets. */
  ghost predicate Overlapping(kinds: seq<SplitEntry>) {
    (exists k :: 0 <= k < |kinds| && |kinds[k].itemIds| != kinds[k].n) || !Distinct(AllIds(kinds))
  }

  lemma DistinctAppend(s: seq<Str>, x: Str)
    ensures Distinct(s + [x]) <==> Distinct(s) && x !in s
  {
    var r := s + [x];
    if Distinct(r) {
      forall i, j | 0 <= i < j < |s| ensures s[i] != s[j] { assert r[i] != r[j]; }
      forall i | 0 <= i < |s| ensures s[i] != x { assert r[i] != r[|s|]; }
    }
  }

  lemma {:induction false} DistinctPrefix(s: seq<Str>, t: seq<Str>)
    requires Distinct(s + t)
    ensures Distinct(s)
  {
    forall i, j | 0 <= i < j < |s| ensures s[i] != s[j] { assert (s + t)[i] != (s + t)[j]; }
  }

  /** One id after another against those already seen. */
  method SeeAll(ids: seq<Str>, before: seq<Str>, seen0: set<Str>, overlap0: bool)
    returns (seen: set<Str>, overlap: bool)
    requires (forall x :: x in seen0 <==> x in before) && (!overlap0 ==> Distinct(before))
    ensures forall x :: x in seen <==> x in before + ids
    ensures overlap <==> overlap0 || !Distinct(before + ids)
  {
    seen, overlap := seen0, overlap0;
    assert before + ids[..0] == before;
    for i := 0 to |ids|
      invariant forall x :: x in seen <==> x in before + ids[..i]
      invariant overlap <==> overlap0 || !Distinct(before + ids[..i])
    {
      assert before + ids[..i + 1] == before + ids[..i] + [ids[i]];
      DistinctAppend(before + ids[..i], ids[i]);
      if ids[i] in seen { overlap := true; }
      seen := seen + {ids[i]};
    }
    assert ids[..|ids|] == ids;
  }

  method CheckHeadroom(b: Build, sizes: Sizes, ratio: real) returns (r: Headroom)
    ensures r.Enough? <==>
      && Required(sizes) <= |b.items| && !Overlapping(b.kinds)
      && |b.items| - Required(sizes) >= 1
      && |b.items| - Required(sizes) >= Ceil(Required(sizes) as real * ratio)
    ensures r == Short(TooFew) <==> Required(sizes) > |b.items|
    ensures r == Short(NotDisjoint) <==> Required(sizes) <= |b.items| && Overlapping(b.kinds)
    ensures r == Short(NoMargin) <==> Required(sizes) == |b.items| && !Overlapping(b.kinds)
  {
    var required := 0;
    for k := 0 to 4
      invariant required == Offset(sizes, k)
    {
      required := required + sizes(KIND_ORDER[k]);
    }
    var available := |b.items|;
    var margin := available - required;
    var minMarginItems := Ceil(required as real * ratio);
    var seen: set<Str>, overlap := {}, false;
    assert b.kinds[..0] == [];
    for k := 0 to |b.kinds|
      invariant forall x :: x in seen <==> x in AllIds(b.kinds[..k])
      invariant overlap <==> Overlapping(b.kinds[..k])
    {
      KindsGrow(b.kinds, k);
      seen, overlap := SeeAll(b.kinds[k].itemIds, AllIds(b.kinds[..k]), seen, overlap);
      if |b.kinds[k].itemIds| != b.kinds[k].n { overlap := true; }
    }
    assert b.kinds[..|b.kinds|] == b.kinds;
    if available < required { return Short(TooFew); }
    if overlap { return Short(NotDisjoint); }
    if margin < 1 { return Short(NoMargin); }
    if margin < minMarginItems { return Short(BelowMinimum); }
    return Enough;
  }

  lemma KindsGrow(kinds: seq<SplitEntry>, k: nat)
    requires k < |kinds|
    ensures AllIds(kinds[..k + 1]) == AllIds(kinds[..k]) + kinds[k].itemIds
    ensures Overlapping(kinds[..k + 1]) <==>
      Overlapping(kinds[..k]) || |kinds[k].itemIds| != kinds[k].n || !Distinct(AllIds(kinds[..k + 1]))
  {
    var more := kinds[..k + 1];
    assert more[..k] == kinds[..k];
    if Distinct(AllIds(more)) { DistinctPrefix(AllIds(kinds[..k]), kinds[k].itemIds); }
    if Overlapping(kinds[..k]) && Distinct(AllIds(kinds[..k])) {
      var l :| 0 <= l < k && |kinds[..k][l].itemIds| != kinds[..k][l].n;
      assert |more[l].itemIds| != more[l].n;
    }
    if |kinds[k].itemIds| != kinds[k].n { assert |more[k].itemIds| != more[k].n; }
    if exists l :: 0 <= l < k + 1 && |more[l].itemIds| != more[l].n {
      var l :| 0 <= l < k + 1 && |more[l].itemIds| != more[l].n;
      if l < k { assert |kinds[..k][l].itemIds| != kinds[..k][l].n; }
    }
  }

  // ----- headroom of what was built -----

  lemma SliceJoins(order: seq<Item>, lo: nat, hi: nat)
    requires lo <= hi <= |order|
    ensures multiset(Ids(order[..hi])) == multiset(Ids(order[..lo])) + multiset(SortIds(Ids(order[lo..hi])))
  {
    SortIdsKeeps(order[lo..hi]);
    assert order[..hi] == order[..lo] + order[lo..hi];
    MapConcat((i: Item) => i.itemId, order[..lo], order[lo..hi]);
  }

  lemma {:induction false} TakenInOrder(digest: Digest, order: seq<Item>, sizes: Sizes, kinds: seq<SplitEntry>, k: nat)
    requires k <= 4 && |kinds| == 4 && forall l :: 0 <= l < 4 ==> kinds[l] == EntryOf(digest, order, sizes, l)
    ensures multiset(AllIds(kinds[..k])) == multiset(Ids(order[..Clamped(Offset(sizes, k), |order|)]))
  {
    if k == 0 {
      assert order[..0] == [];
    } else {
      TakenInOrder(digest, order, sizes, kinds, k - 1);
      KindsGrow(kinds, k - 1);
      SliceJoins(order, Clamped(Offset(sizes, k - 1), |order|), Clamped(Offset(sizes, k), |order|));
      assert kinds[k - 1].itemIds == SortIds(Ids(Members(order, sizes, k - 1)));
    }
  }

  /** On a build the second self-test repeats the first: the sets can only fail to be disjoint and full
      by there being too few items. */
  lemma BuiltSetsNeverOverlap(digest: Digest, given: seq<Item>, sizes: Sizes, order: seq<Item>, b: Build)
    requires IsBuild(digest, given, sizes, order, b)
    ensures Overlapping(b.kinds) <==> |b.items| < Required(sizes)
  {
    IdsPermute(b.items, order);
    TakenInOrder(digest, order, sizes, b.kinds, 4);
    assert b.kinds[..4] == b.kinds;
    var taken := order[..Clamped(Offset(sizes, 4), |order|)];
    assert Ids(order) == Ids(taken) + Ids(order[|taken|..]) by {
      assert order == taken + order[|taken|..];
      MapConcat((i: Item) => i.itemId, taken, order[|taken|..]);
    }
    DistinctPrefix(Ids(taken), Ids(order[|taken|..]));
    DistinctPermutes(Ids(taken), AllIds(b.kinds));
    SetsAreFull(digest, given, sizes, order, b);
  }

  // ----- reconciliation -----

  datatype ManifestEntry = ManifestEntry(itemId: Str, templateId: Str, family: Str, bodySha: Str)

  /** A set as the manifest carries it; the report set's ids may have been sealed away. */
  datatype KindEntry = KindEntry(n: nat, itemIds: Option<seq<Str>>, contentSha: Str)

  datatype Manifest = Manifest(entries: seq<ManifestEntry>, byFamily: map<Str, nat>, byTemplate: map<Str, nat>,
                               corpusSha: Str, kinds: seq<KindEntry>, signature: Str)

  /** The serialisations the digests are taken over: of the items, and of a manifest without its
      signature. */
  datatype Texts = Texts(ofItems: seq<Item> -> Str, ofUnsigned: Manifest -> Str)

  datatype Problem =
    | Clean | BodyHash | EntryCount | EntryUnknown | EntryHash | EntryAttribution | FamilyCounts | TemplateCounts
    | CorpusDigest | NullIds | KindCount | KindUnknown | KindContent | Signature

  function Unsigned(m: Manifest): Manifest { m.(signature := []) }

  /** The last item of an id, as a map filled from the front keeps it. */
  function ById(corpus: seq<Item>): map<Str, Item> {
    if corpus == [] then map[] else var n := |corpus| - 1; ById(corpus[..n])[corpus[n].itemId := corpus[n]]
  }

  function CountBy(corpus: seq<Item>, key: Item -> Str): map<Str, nat> {
    if corpus == [] then map[]
    else
      var n := |corpus| - 1;
      var counts := CountBy(corpus[..n], key);
      counts[key(corpus[n]) := (if key(corpus[n]) in counts then counts[key(corpus[n])] else 0) + 1]
  }

  function Family(i: Item): Str { i.family }

  function Template(i: Item): Str { i.templateId }

  predicate EntryAgrees(e: ManifestEntry, byId: map<Str, Item>) {
    && e.itemId in byId && e.bodySha == byId[e.itemId].bodySha
    && e.templateId == byId[e.itemId].templateId && e.family == byId[e.itemId].family
  }

  function Named(ids: seq<Str>, byId: map<Str, Item>): seq<Item>
    requires forall i :: 0 <= i < |ids| ==> ids[i] in byId
  {
    seq(|ids|, i requires 0 <= i < |ids| => byId[ids[i]])
  }

  predicate AllKnown(ids: seq<Str>, byId: map<Str, Item>) { forall i :: 0 <= i < |ids| ==> ids[i] in byId }

  /** Set `k` agrees with the bodies it names; only the report set, number 1, may name none. */
  predicate KindAgrees(digest: Digest, e: KindEntry, k: nat, byId: map<Str, Item>) {
    match e.itemIds
    case None => k == 1
    case Some(ids) => |ids| == e.n && AllKnown(ids, byId) && ContentSha(digest, Named(ids, byId)) == e.contentSha
  }

  ghost predicate Accepts(digest: Digest, t: Texts, corpus: seq<Item>, m: Manifest)
    requires |m.kinds| == 4
  {
    && (forall i :: 0 <= i < |corpus| ==> digest(corpus[i].body) == corpus[i].bodySha)
    && |m.entries| == |corpus| && (forall i :: 0 <= i < |m.entries| ==> EntryAgrees(m.entries[i], ById(corpus)))
    && m.byFamily == CountBy(corpus, Family) && m.byTemplate == CountBy(corpus, Template)
    && m.corpusSha == digest(t.ofItems(corpus))
    && (forall k :: 0 <= k < 4 ==> KindAgrees(digest, m.kinds[k], k, ById(corpus)))
    && m.signature == digest(t.ofUnsigned(Unsigned(m)))
  }

  method CheckBodies(digest: Digest, corpus: seq<Item>) returns (ok: bool, byId: map<Str, Item>)
    ensures ok <==> forall i :: 0 <= i < |corpus| ==> digest(corpus[i].body) == corpus[i].bodySha
    ensures ok ==> byId == ById(corpus)
  {
    byId := map[];
    for i := 0 to |corpus|
      invariant forall j :: 0 <= j < i ==> digest(corpus[j].body) == corpus[j].bodySha
      invariant byId == ById(corpus[..i])
    {
      if digest(corpus[i].body) != corpus[i].bodySha { return false, byId; }
      assert corpus[..i + 1][..i] == corpus[..i];
      byId := byId[corpus[i].itemId := corpus[i]];
    }
    assert corpus[..|corpus|] == corpus;
    ok := true;
  }

  method CheckEntries(entries: seq<ManifestEntry>, byId: map<Str, Item>) returns (p: Problem)
    ensures p.Clean? <==> forall i :: 0 <= i < |entries| ==> EntryAgrees(entries[i], byId)
    ensures p.Clean? || p.EntryUnknown? || p.EntryHash? || p.EntryAttribution?
    ensures p.EntryUnknown? ==> exists i :: 0 <= i < |entries| && entries[i].itemId !in byId
    ensures p.EntryHash? ==>
      exists i :: && 0 <= i < |entries| && entries[i].itemId in byId
                  && entries[i].bodySha != byId[entries[i].itemId].bodySha
  {
    for i := 0 to |entries|
      invariant forall j :: 0 <= j < i ==> EntryAgrees(entries[j], byId)
    {
      var e := entries[i];
      if e.itemId !in byId { return EntryUnknown; }
      if e.bodySha != byId[e.itemId].bodySha { return EntryHash; }
      if e.templateId != byId[e.itemId].templateId || e.family != byId[e.itemId].family { return EntryAttribution; }
    }
    p := Clean;
  }

  method CheckKind(digest: Digest, e: KindEntry, k: nat, byId: map<Str, Item>) returns (p: Problem)
    ensures p.Clean? <==> KindAgrees(digest, e, k, byId)
    ensures p.NullIds? <==> e.itemIds.None? && k != 1
    ensures p.KindCount? <==> e.itemIds.Some? && |e.itemIds.value| != e.n
    ensures p.KindUnknown? <==> e.itemIds.Some? && |e.itemIds.value| == e.n && !AllKnown(e.itemIds.value, byId)
    ensures p.Clean? || p.NullIds? || p.KindCount? || p.KindUnknown? || p.KindContent?
  {
    if e.itemIds.None? { return if k == 1 then Clean else NullIds; }
    var ids := e.itemIds.value;
    if |ids| != e.n { return KindCount; }
    var members: seq<Item> := [];
    for i := 0 to |ids|
      invariant |members| == i && AllKnown(ids[..i], byId) && members == Named(ids[..i], byId)
    {
      if ids[i] !in byId { return KindUnknown; }
      members := members + [byId[ids[i]]];
    }
    assert ids[..|ids|] == ids;
    p := if ContentSha(digest, members) != e.contentSha then KindContent else Clean;
  }

  /** Every hash and count the manifest asserts, recomputed; the first that disagrees is the problem. */
  method Reconcile(digest: Digest, t: Texts, corpus: seq<Item>, m: Manifest) returns (p: Problem)
    requires |m.kinds| == 4
    ensures p.Clean? <==> Accepts(digest, t, corpus, m)
    ensures p.BodyHash? <==> exists i :: 0 <= i < |corpus| && digest(corpus[i].body) != corpus[i].bodySha
    ensures p.Signature? ==> Accepts(digest, t, corpus, m.(signature := digest(t.ofUnsigned(Unsigned(m)))))
  {
    var ok, byId := CheckBodies(digest, corpus);
    if !ok { return BodyHash; }
    if |m.entries| != |corpus| { return EntryCount; }
    p := CheckEntries(m.entries, byId);
    if !p.Clean? { return; }
    if m.byFamily != CountBy(corpus, Family) { return FamilyCounts; }
    if m.byTemplate != CountBy(corpus, Template) { return TemplateCounts; }
    if m.corpusSha != digest(t.ofItems(corpus)) { return CorpusDigest; }
    for k := 0 to 4
      invariant forall l :: 0 <= l < k ==> KindAgrees(digest, m.kinds[l], l, byId)
    {
      p := CheckKind(digest, m.kinds[k], k, byId);
      if !p.Clean? { return; }
    }
    p := if m.signature != digest(t.ofUnsigned(Unsigned(m))) then Signature else Clean;
  }

  // ----- what `main` writes -----

  function EntryFor(i: Item): ManifestEntry { ManifestEntry(i.itemId, i.templateId, i.family, i.bodySha) }

  function WrittenKind(e: SplitEntry): KindEntry { KindEntry(e.n, Some(e.itemIds), e.contentSha) }

  function Written(digest: Digest, t: Texts, b: Build): Manifest {
    var unsigned := Manifest(Map(EntryFor, b.items), CountBy(b.items, Family), CountBy(b.items, Template),
                             digest(t.ofItems(b.items)), Map(WrittenKind, b.kinds), []);
    unsigned.(signature := digest(t.ofUnsigned(unsigned)))
  }

  lemma {:induction false} ByIdFinds(corpus: seq<Item>, x: Item)
    requires x in corpus && Distinct(Ids(corpus))
    ensures x.itemId in ById(corpus) && ById(corpus)[x.itemId] == x
  {
    var n := |corpus| - 1;
    assert corpus == corpus[..n] + [corpus[n]];
    if x.itemId == corpus[n].itemId {
      IdNamesItem(corpus, x, corpus[n]);
    } else {
      assert Ids(corpus) == Ids(corpus[..n]) + [corpus[n].itemId];
      DistinctAppend(Ids(corpus[..n]), corpus[n].itemId);
      ByIdFinds(corpus[..n], x);
    }
  }

  /** A set's ids, looked up again, are its members sorted, and its digest is over exactly those. */
  lemma WrittenKindAgrees(digest: Digest, given: seq<Item>, sizes: Sizes, order: seq<Item>, b: Build, k: nat)
    requires IsBuild(digest, given, sizes, order, b) && Required(sizes) <= |b.items| && k < 4
    ensures KindAgrees(digest, WrittenKind(b.kinds[k]), k, ById(b.items))
  {
    var members, byId := Members(order, sizes, k), ById(b.items);
    var sorted, ids := SortItems(members), SortIds(Ids(members));
    SetsAreFull(digest, given, sizes, order, b);
    SortSorts(members);
    forall i | 0 <= i < |ids| ensures ids[i] in byId && byId[ids[i]] == sorted[i] {
      assert sorted[i] in multiset(sorted);
      assert sorted[i] in members && sorted[i] in order;
      assert sorted[i] in multiset(order);
      ByIdFinds(b.items, sorted[i]);
      assert ids[i] == Ids(sorted)[i];
    }
    assert Named(ids, byId) == sorted;
    MembersDistinct(b, order, sizes, k);
    ContentForgetsOrder(digest, members, sorted);
  }

  lemma MembersDistinct(b: Build, order: seq<Item>, sizes: Sizes, k: nat)
    requires multiset(order) == multiset(b.items) && Distinct(Ids(b.items)) && k < 4
    ensures Distinct(Ids(Members(order, sizes, k)))
  {
    IdsPermute(b.items, order);
    var lo := Clamped(Offset(sizes, k), |order|);
    forall i, j | 0 <= i < j < |Members(order, sizes, k)|
      ensures Ids(Members(order, sizes, k))[i] != Ids(Members(order, sizes, k))[j]
    {
      assert Ids(order)[lo + i] != Ids(order)[lo + j];
    }
  }

  lemma WrittenItemAgrees(digest: Digest, given: seq<Item>, b: Build, i: nat)
    requires b.items == SortItems(given) && Distinct(Ids(b.items)) && i < |b.items|
    requires forall x :: x in given ==> digest(x.body) == x.bodySha
    ensures digest(b.items[i].body) == b.items[i].bodySha && EntryAgrees(EntryFor(b.items[i]), ById(b.items))
  {
    SortSorts(given);
    assert b.items[i] in multiset(b.items);
    assert b.items[i] in given;
    ByIdFinds(b.items, b.items[i]);
  }

  /** Whatever the shuffle, a build with room reconciles as it is written. */
  lemma WrittenReconciles(digest: Digest, t: Texts, given: seq<Item>, sizes: Sizes, order: seq<Item>, b: Build)
    requires IsBuild(digest, given, sizes, order, b) && Required(sizes) <= |b.items|
    requires forall i :: i in given ==> digest(i.body) == i.bodySha
    ensures Accepts(digest, t, b.items, Written(digest, t, b))
  {
    forall i | 0 <= i < |b.items|
      ensures digest(b.items[i].body) == b.items[i].bodySha && EntryAgrees(EntryFor(b.items[i]), ById(b.items))
    {
      WrittenItemAgrees(digest, given, b, i);
    }
    forall k | 0 <= k < 4 ensures KindAgrees(digest, WrittenKind(b.kinds[k]), k, ById(b.items)) {
      WrittenKindAgrees(digest, given, sizes, order, b, k);
    }
    WrittenParts(digest, t, b);
  }

  lemma WrittenParts(digest: Digest, t: Texts, b: Build)
    ensures var m := Written(digest, t, b);
      && m.entries == Map(EntryFor, b.items) && m.kinds == Map(WrittenKind, b.kinds)
      && m.byFamily == CountBy(b.items, Family) && m.byTemplate == CountBy(b.items, Template)
      && m.corpusSha == digest(t.ofItems(b.items)) && m.signature == digest(t.ofUnsigned(Unsigned(m)))
  {
  }
}
