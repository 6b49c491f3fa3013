/** The corpus builder: items in canonical order, shuffled, cut into the four sets, and a content digest
    per set that does not depend on the shuffle. */
module Corpus {
  import opened Utf16
  import opened Chain
  import opened Sequences
  import opened Shuffle

  datatype Item = Item(itemId: Str, templateId: Str, family: Str, body: Str, bodySha: Str)

  // ----- sorting by id -----

  function Ids(s: seq<Item>): seq<Str> { Map((i: Item) => i.itemId, s) }

  predicate Ahead(a: Str, b: Str) { KeyCompare(ByUnit, a, b) <= 0 }

  predicate ItemAhead(a: Item, b: Item) { Ahead(a.itemId, b.itemId) }

  function SortIds(s: seq<Str>): seq<Str> { Sort(Ahead, s) }

  function SortItems(s: seq<Item>): seq<Item> { Sort(ItemAhead, s) }

  ghost predicate InIdOrder(s: seq<Item>) {
    forall i, j {:trigger Ahead(s[i].itemId, s[j].itemId)} :: 0 <= i < j < |s| ==> Ahead(s[i].itemId, s[j].itemId)
  }

  lemma InsertAhead(x: Item, s: seq<Item>)
    requires InIdOrder(s) && (s == [] || Ahead(x.itemId, s[0].itemId))
    ensures InIdOrder([x] + s)
  {
    forall j | 0 <= j < |s| ensures Ahead(x.itemId, s[j].itemId) {
      assert j == 0 || Ahead(s[0].itemId, s[j].itemId);
      KeysCompare(ByUnit, x.itemId, s[0].itemId, s[j].itemId);
    }
    OrderPrepends(x, s);
  }

  lemma TailInOrder(s: seq<Item>)
    requires InIdOrder(s) && s != []
    ensures InIdOrder(s[1..]) && forall j :: 0 <= j < |s[1..]| ==> Ahead(s[0].itemId, s[1..][j].itemId)
  {
    var t := s[1..];
    forall i, j | 0 <= i < j < |t|
      ensures Ahead(t[i].itemId, t[j].itemId)
    {
      assert Ahead(s[i + 1].itemId, s[j + 1].itemId);
    }
    forall j | 0 <= j < |t| ensures Ahead(s[0].itemId, t[j].itemId) { assert Ahead(s[0].itemId, s[j + 1].itemId); }
  }

  lemma StaysBehind(a: Str, x: Item, s: seq<Item>, t: seq<Item>)
    requires multiset(t) == multiset(s) + multiset{x} && Ahead(a, x.itemId)
    requires forall j :: 0 <= j < |s| ==> Ahead(a, s[j].itemId)
    ensures forall j :: 0 <= j < |t| ==> Ahead(a, t[j].itemId)
  {
    forall j | 0 <= j < |t| ensures Ahead(a, t[j].itemId) {
      assert t[j] in multiset(t);
      assert t[j] == x || t[j] in s;
    }
  }

  lemma {:induction false} InsertSorts(x: Item, s: seq<Item>)
    requires InIdOrder(s)
    ensures InIdOrder(Insert(ItemAhead, x, s)) && multiset(Insert(ItemAhead, x, s)) == multiset(s) + multiset{x}
  {
    if s == [] || Ahead(x.itemId, s[0].itemId) {
      InsertAhead(x, s);
    } else {
      TailInOrder(s);
      InsertSorts(x, s[1..]);
      assert s == [s[0]] + s[1..];
      KeysCompare(ByUnit, x.itemId, s[0].itemId, x.itemId);
      StaysBehind(s[0].itemId, x, s[1..], Insert(ItemAhead, x, s[1..]));
      OrderPrepends(s[0], Insert(ItemAhead, x, s[1..]));
    }
  }

  lemma {:induction false} InsertIds(x: Item, s: seq<Item>)
    ensures Ids(Insert(ItemAhead, x, s)) == Insert(Ahead, x.itemId, Ids(s))
  {
    if s == [] || Ahead(x.itemId, s[0].itemId) {
      assert Ids([x] + s) == [x.itemId] + Ids(s);
    } else {
      InsertIds(x, s[1..]);
      assert Ids(s)[1..] == Ids(s[1..]);
      assert Ids([s[0]] + Insert(ItemAhead, x, s[1..])) == [s[0].itemId] + Ids(Insert(ItemAhead, x, s[1..]));
    }
  }

  lemma OrderPrepends(x: Item, s: seq<Item>)
    requires InIdOrder(s) && forall j :: 0 <= j < |s| ==> Ahead(x.itemId, s[j].itemId)
    ensures InIdOrder([x] + s)
  {
    var r := [x] + s;
    forall i, j | 0 <= i < j < |r| ensures Ahead(r[i].itemId, r[j].itemId) {
      if i > 0 { assert Ahead(s[i - 1].itemId, s[j - 1].itemId); }
    }
  }

  lemma {:induction false} SortSorts(s: seq<Item>)
    ensures InIdOrder(SortItems(s)) && multiset(SortItems(s)) == multiset(s)
    ensures Ids(SortItems(s)) == SortIds(Ids(s))
  {
    if s != [] {
      SortSorts(s[1..]);
      InsertSorts(s[0], SortItems(s[1..]));
      InsertIds(s[0], SortItems(s[1..]));
      assert s == [s[0]] + s[1..];
      assert Ids(s)[1..] == Ids(s[1..]);
    }
  }

  lemma SortedAscends(s: seq<Item>)
    requires InIdOrder(s) && Distinct(Ids(s))
    ensures Ascending(ByUnit, Ids(s))
  {
    forall i, j | 0 <= i < j < |s| ensures KeyCompare(ByUnit, Ids(s)[i], Ids(s)[j]) < 0 {
      assert Ahead(s[i].itemId, s[j].itemId);
      KeysCompare(ByUnit, Ids(s)[i], Ids(s)[j], Ids(s)[i]);
    }
  }

  lemma IdsPermute(s: seq<Item>, t: seq<Item>)
    requires multiset(s) == multiset(t)
    ensures multiset(Ids(s)) == multiset(Ids(t))
    ensures Distinct(Ids(s)) ==> Distinct(Ids(t))
  {
    MapPermutes((i: Item) => i.itemId, s, t);
    if Distinct(Ids(s)) { DistinctPermutes(Ids(s), Ids(t)); }
  }

  lemma IdNamesItem(s: seq<Item>, x: Item, y: Item)
    requires Distinct(Ids(s)) && x in s && y in s && x.itemId == y.itemId
    ensures x == y
  {
    var i :| 0 <= i < |s| && s[i] == x;
    var j :| 0 <= j < |s| && s[j] == y;
    assert Ids(s)[i] == Ids(s)[j];
  }

  /** Items with ids of their own have one sorted arrangement, however they were dealt. */
  lemma SortForgetsOrder(s: seq<Item>, t: seq<Item>)
    requires multiset(s) == multiset(t) && Distinct(Ids(s))
    ensures SortItems(s) == SortItems(t)
  {
    var a, b := SortItems(s), SortItems(t);
    SortSorts(s);
    SortSorts(t);
    IdsPermute(s, a);
    IdsPermute(s, b);
    SortedAscends(a);
    SortedAscends(b);
    SameIds(a, b);
    forall i | 0 <= i < |a| ensures a[i] == b[i] {
      assert Ids(a)[i] == Ids(b)[i];
      assert a[i] in multiset(s) && b[i] in multiset(s);
      IdNamesItem(s, a[i], b[i]);
    }
  }

  lemma SameIds(a: seq<Item>, b: seq<Item>)
    requires multiset(Ids(a)) == multiset(Ids(b)) && Ascending(ByUnit, Ids(a)) && Ascending(ByUnit, Ids(b))
    ensures Ids(a) == Ids(b) && |a| == |b|
  {
    var keys := set x | x in Ids(a);
    assert forall x :: x in Ids(b) <==> x in multiset(Ids(b));
    assert forall x :: x in Ids(a) <==> x in multiset(Ids(a));
    AscendingDiffer(ByUnit, Ids(a));
    AscendingDiffer(ByUnit, Ids(b));
    SortedKeysAreTheOnlyArrangement(ByUnit, Ids(a), keys);
    SortedKeysAreTheOnlyArrangement(ByUnit, Ids(b), keys);
  }

  // ----- the content digest -----

  const COLON_TEXT := Name(":")
  const NEWLINE: Str := [0x0A]

  function ContentText(s: seq<Item>): Str {
    if s == [] then []
    else s[0].itemId + COLON_TEXT + s[0].bodySha + if |s| == 1 then [] else NEWLINE + ContentText(s[1..])
  }

  /** Over the members sorted by id, whatever order they are handed in. */
  function ContentSha(digest: Digest, members: seq<Item>): Str { digest(ContentText(SortItems(members))) }

  lemma ContentForgetsOrder(digest: Digest, s: seq<Item>, t: seq<Item>)
    requires multiset(s) == multiset(t) && Distinct(Ids(s))
    ensures ContentSha(digest, s) == ContentSha(digest, t)
  {
    SortForgetsOrder(s, t);
  }

  // ----- the cut -----

  /** The sets in the order they are cut. */
  datatype Kind = Selection | Report | Ood | BlindLabel

  const KIND_ORDER: seq<Kind> := [Selection, Report, Ood, BlindLabel]

  datatype SplitEntry = SplitEntry(n: nat, itemIds: seq<Str>, contentSha: Str)

  type Sizes = Kind -> nat

  function Offset(sizes: Sizes, k: nat): nat
    requires k <= 4
  {
    if k == 0 then 0 else Offset(sizes, k - 1) + sizes(KIND_ORDER[k - 1])
  }

  function Clamped(x: nat, n: nat): nat { if x < n then x else n }

  /** `order.slice(cursor, cursor + n)`, short where the items run out. */
  function Members(order: seq<Item>, sizes: Sizes, k: nat): seq<Item>
    requires k < 4
  {
    order[Clamped(Offset(sizes, k), |order|)..Clamped(Offset(sizes, k + 1), |order|)]
  }

  function EntryOf(digest: Digest, order: seq<Item>, sizes: Sizes, k: nat): SplitEntry
    requires k < 4
  {
    var members := Members(order, sizes, k);
    SplitEntry(sizes(KIND_ORDER[k]), SortIds(Ids(members)), ContentSha(digest, members))
  }

  datatype Build = Build(items: seq<Item>, kinds: seq<SplitEntry>)

  datatype Outcome = DuplicateId | Built(build: Build)

  /** Everything the build of `given` under one shuffle is; `order` is the shuffle's result. */
  ghost predicate IsBuild(digest: Digest, given: seq<Item>, sizes: Sizes, order: seq<Item>, b: Build) {
    && b.items == SortItems(given) && Distinct(Ids(b.items)) && multiset(order) == multiset(b.items)
    && |b.kinds| == 4 && forall k :: 0 <= k < 4 ==> b.kinds[k] == EntryOf(digest, order, sizes, k)
  }

  function SetOf(ids: seq<Str>): set<Str> { set i | i in ids }

  /** As many ids as items, or some id stands twice. */
  lemma {:induction false} SetCounts(ids: seq<Str>)
    ensures |SetOf(ids)| <= |ids|
    ensures |SetOf(ids)| == |ids| <==> Distinct(ids)
  {
    if ids == [] {
      assert SetOf(ids) == {};
    } else {
      var x, t := ids[0], ids[1..];
      SetCounts(t);
      assert ids == [x] + t;
      assert SetOf(ids) == {x} + SetOf(t);
      HeadDiffers(x, t);
    }
  }

  lemma HeadDiffers(x: Str, s: seq<Str>)
    ensures Distinct([x] + s) <==> Distinct(s) && x !in s
  {
    var r := [x] + s;
    if Distinct(r) {
      forall i, j | 0 <= i < j < |s| ensures s[i] != s[j] { assert r[i + 1] != r[j + 1]; }
      forall j | 0 <= j < |s| ensures s[j] != x { assert r[0] != r[j + 1]; }
    }
  }

  /** Sort, refuse repeated ids, shuffle, cut. */
  method BuildCorpus(digest: Digest, given: seq<Item>, sizes: Sizes, rng: nat -> real)
    returns (r: Outcome, ghost order: seq<Item>)
    requires Uniform(rng)
    ensures r.DuplicateId? <==> !Distinct(Ids(given))
    ensures r.Built? ==> IsBuild(digest, given, sizes, order, r.build)
    ensures r.Built? ==>
        Choices(ChoicesOf(rng, |given|), |r.build.items|) && order == Shuffled(r.build.items, ChoicesOf(rng, |given|))
  {
    var items := SortItems(given);
    SortSorts(given);
    IdsPermute(given, items);
    IdsPermute(items, given);
    SetCounts(Ids(items));
    PermutedLength(given, items);
    if |SetOf(Ids(items))| != |items| { return DuplicateId, []; }
    var list := new Item[|items|](i requires 0 <= i < |items| => items[i]);
    assert list[..] == items;
    ShuffleInPlace(list, rng);
    order := list[..];
    ShuffledPermutes(items, ChoicesOf(rng, |items|));
    var kinds := CutSets(digest, list, sizes);
    r := Built(Build(items, kinds));
  }

  method CutSets(digest: Digest, list: array<Item>, sizes: Sizes) returns (kinds: seq<SplitEntry>)
    ensures |kinds| == 4 && forall k :: 0 <= k < 4 ==> kinds[k] == EntryOf(digest, list[..], sizes, k)
  {
    kinds := [];
    var cursor: nat := 0;
    for k := 0 to 4
      invariant |kinds| == k && cursor == Offset(sizes, k)
      invariant forall l :: 0 <= l < k ==> kinds[l] == EntryOf(digest, list[..], sizes, l)
    {
      var n := sizes(KIND_ORDER[k]);
      var members := list[..][Clamped(cursor, list.Length)..Clamped(cursor + n, list.Length)];
      kinds := kinds + [SplitEntry(n, SortIds(Ids(members)), ContentSha(digest, members))];
      cursor := cursor + n;
    }
  }

  // ----- what the four sets are -----

  lemma SortIdsKeeps(s: seq<Item>)
    ensures multiset(SortIds(Ids(s))) == multiset(Ids(s)) && |SortIds(Ids(s))| == |s|
  {
    SortSorts(s);
    IdsPermute(s, SortItems(s));
    PermutedLength(s, SortItems(s));
  }

  lemma {:induction false} OffsetsGrow(sizes: Sizes, j: nat, k: nat)
    requires j <= k <= 4
    ensures Offset(sizes, j) <= Offset(sizes, k)
  {
    if j < k { OffsetsGrow(sizes, j, k - 1); }
  }

  lemma IdInSlice(members: seq<Item>, id: Str) returns (i: nat)
    requires id in SortIds(Ids(members))
    ensures i < |members| && members[i].itemId == id
  {
    SortIdsKeeps(members);
    assert id in multiset(SortIds(Ids(members)));
    assert id in Ids(members);
    i :| 0 <= i < |members| && Ids(members)[i] == id;
  }

  /** An id of set `k` stands in the shuffled order inside that set's stretch. */
  lemma IdStands(digest: Digest, order: seq<Item>, sizes: Sizes, k: nat, id: Str) returns (at: nat)
    requires k < 4 && id in EntryOf(digest, order, sizes, k).itemIds
    ensures at < |order| && order[at].itemId == id && Offset(sizes, k) <= at < Offset(sizes, k + 1)
  {
    var i := IdInSlice(Members(order, sizes, k), id);
    at := Clamped(Offset(sizes, k), |order|) + i;
  }

  /** No item is in two of the sets, and every member is one of the items. */
  lemma SetsAreDisjoint(digest: Digest, given: seq<Item>, sizes: Sizes, order: seq<Item>, b: Build, j: nat, k: nat,
                        id: Str)
    requires IsBuild(digest, given, sizes, order, b) && j < 4 && k < 4
    requires id in b.kinds[j].itemIds && id in b.kinds[k].itemIds
    ensures j == k && id in Ids(b.items)
  {
    IdsPermute(b.items, order);
    var p := IdStands(digest, order, sizes, j, id);
    var q := IdStands(digest, order, sizes, k, id);
    assert Ids(order)[p] == Ids(order)[q];
    assert p == q;
    if j < k { OffsetsGrow(sizes, j + 1, k); }
    if k < j { OffsetsGrow(sizes, k + 1, j); }
    assert Ids(order)[p] in multiset(Ids(b.items));
  }

  lemma EntryCounts(digest: Digest, order: seq<Item>, sizes: Sizes, k: nat)
    requires k < 4
    ensures |EntryOf(digest, order, sizes, k).itemIds|
        == Clamped(Offset(sizes, k + 1), |order|) - Clamped(Offset(sizes, k), |order|)
  {
    SortIdsKeeps(Members(order, sizes, k));
  }

  /** The sets hold what they declare exactly when the items suffice. */
  lemma SetsAreFull(digest: Digest, given: seq<Item>, sizes: Sizes, order: seq<Item>, b: Build)
    requires IsBuild(digest, given, sizes, order, b)
    ensures (forall k :: 0 <= k < 4 ==> |b.kinds[k].itemIds| == b.kinds[k].n) <==> Offset(sizes, 4) <= |b.items|
  {
    PermutedLength(order, b.items);
    forall k | 0 <= k < 4
      ensures |b.kinds[k].itemIds| == b.kinds[k].n <==> Whole(sizes, k, |order|)
    {
      EntryCounts(digest, order, sizes, k);
    }
    AllFit(sizes, |order|);
  }

  /** Set `k` is cut from within the first `n` items, or takes none. */
  predicate Whole(sizes: Sizes, k: nat, n: nat)
    requires k < 4
  {
    Offset(sizes, k + 1) <= n || Offset(sizes, k + 1) == Offset(sizes, k)
  }

  lemma AllFit(sizes: Sizes, n: nat)
    ensures (forall k {:trigger Whole(sizes, k, n)} :: 0 <= k < 4 ==> Whole(sizes, k, n)) <==> Offset(sizes, 4) <= n
  {
    OffsetsGrow(sizes, 1, 4);
    OffsetsGrow(sizes, 2, 4);
    OffsetsGrow(sizes, 3, 4);
    if forall k {:trigger Whole(sizes, k, n)} :: 0 <= k < 4 ==> Whole(sizes, k, n) {
      assert Whole(sizes, 0, n) && Whole(sizes, 1, n) && Whole(sizes, 2, n) && Whole(sizes, 3, n);
    }
  }

  /** What no set takes: the margin, to an item. */
  lemma MarginIsLeftOver(digest: Digest, given: seq<Item>, sizes: Sizes, order: seq<Item>, b: Build, at: nat)
    requires IsBuild(digest, given, sizes, order, b) && at < |order|
    ensures |order| == |b.items|
    ensures at >= Offset(sizes, 4) ==> forall k :: 0 <= k < 4 ==> order[at].itemId !in b.kinds[k].itemIds
    ensures at < Offset(sizes, 4) ==> exists k :: 0 <= k < 4 && order[at].itemId in b.kinds[k].itemIds
  {
    PermutedLength(order, b.items);
    IdsPermute(b.items, order);
    if at >= Offset(sizes, 4) {
      forall k | 0 <= k < 4 ensures order[at].itemId !in b.kinds[k].itemIds {
        if order[at].itemId in b.kinds[k].itemIds {
          var p := IdStands(digest, order, sizes, k, order[at].itemId);
          assert Ids(order)[p] == Ids(order)[at];
          OffsetsGrow(sizes, k + 1, 4);
        }
      }
    } else {
      var k := StretchOf(sizes, at);
      OffsetsGrow(sizes, k, 4);
      var members := Members(order, sizes, k);
      var i := at - Offset(sizes, k);
      assert members[i] == order[at];
      SortIdsKeeps(members);
      assert Ids(members)[i] in multiset(Ids(members));
      assert order[at].itemId in multiset(SortIds(Ids(members)));
      assert order[at].itemId in b.kinds[k].itemIds;
    }
  }

  lemma StretchOf(sizes: Sizes, at: nat) returns (k: nat)
    requires at < Offset(sizes, 4)
    ensures k < 4 && Offset(sizes, k) <= at < Offset(sizes, k + 1)
  {
    k := 0;
    while at >= Offset(sizes, k + 1)
      invariant k < 4 && Offset(sizes, k) <= at
      decreases 4 - k
    {
      k := k + 1;
    }
  }
}
