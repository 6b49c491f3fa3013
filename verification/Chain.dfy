/** A ledger row, the digest that links it, and what a verified chain's head determines. */
module Chain {
  import opened Sequences
  import opened Utf16
  import opened Values
  import opened RoundTrip
  import opened Grammar

  datatype Class =
    | AgentCall | Start | PromotionAttempt | ModificationEvent | Commitment | PreregAnchor
    | AgreementR3 | KbAdmission | Checkpoint

  /** An ASCII name as host text. */
  function Name(s: string): (n: Str)
    ensures |n| == |s|
  {
    seq(|s|, i requires 0 <= i < |s| => if s[i] < 128 as char then s[i] as int else 0)
  }

  function ClassName(c: Class): Str {
    match c
    case AgentCall => Name("agent_call")
    case Start => Name("start")
    case PromotionAttempt => Name("promotion_attempt")
    case ModificationEvent => Name("modification_event")
    case Commitment => Name("commitment")
    case PreregAnchor => Name("prereg_anchor")
    case AgreementR3 => Name("agreement_r3")
    case KbAdmission => Name("kb_admission")
    case Checkpoint => Name("checkpoint")
  }

  /** A row without its two chain columns: those the protocol reads, and the rest by name. */
  datatype Content = Content(run: Str, org: Str, seqNo: nat, class_: Class, tokensIn: nat, tokensOut: nat,
                             cumTokens: nat, output: map<Str, Json>, others: map<Str, Json>)

  const RUN_ID := Name("run_id")
  const ORG_ID := Name("org_id")
  const SEQ := Name("seq")
  const CLASS := Name("class")
  const TOKENS_IN := Name("tokens_in")
  const TOKENS_OUT := Name("tokens_out")
  const CUM_TOKENS := Name("cum_tokens")
  const OUTPUT := Name("output")

  function Named(c: Content): map<Str, Json> {
    map[RUN_ID := String(c.run), ORG_ID := String(c.org), SEQ := Num(c.seqNo), CLASS := String(ClassName(c.class_)),
        TOKENS_IN := Num(c.tokensIn), TOKENS_OUT := Num(c.tokensOut), CUM_TOKENS := Num(c.cumTokens),
        OUTPUT := Obj(c.output)]
  }

  function Columns(c: Content): map<Str, Json> { c.others + Named(c) }

  const GENESIS := Name("GENESIS")

  datatype Row = Row(content: Content, prev: Str, hash: Str)

  /** The digest is any function on texts; nothing is supposed of it but what a statement names. */
  type Digest = Str -> Str

  function CanonicalRow(c: Content): Str {
    UnitAlwaysWrites(Obj(Columns(c)));
    Canonical(ByUnit, Obj(Columns(c))).text
  }

  function RowHash(digest: Digest, prev: Str, c: Content): Str { digest(prev + CanonicalRow(c)) }

  predicate IsHex64(s: Str) {
    |s| == 64 && forall i :: 0 <= i < 64 ==> 0x30 <= s[i] <= 0x39 || 0x61 <= s[i] <= 0x66
  }

  ghost predicate VerifyRowHash(digest: Digest, row: Row) {
    IsHex64(row.hash) && RowHash(digest, row.prev, row.content) == row.hash
  }

  // ----- canonical text -----

  lemma {:induction false} UnitAlwaysWrites(v: Json)
    ensures Canonical(ByUnit, v).Written?
    decreases v, 1
  {
    match v {
      case Arr(items) => ItemsAlwaysWrite(items);
      case Obj(members) =>
        var keys := SortedKeys(ByUnit, members.Keys);
        SortedKeysList(ByUnit, members.Keys);
        MembersAlwaysWrite(v, keys);
        ObjectWrites(v);
      case _ =>
    }
  }

  lemma ObjectWrites(v: Json)
    requires v.Obj? && (forall k :: k in SortedKeys(ByUnit, v.members.Keys) ==> k in v.members)
    requires CanonicalMembers(ByUnit, v, SortedKeys(ByUnit, v.members.Keys)).Written?
    ensures Canonical(ByUnit, v).Written?
  {
  }

  lemma {:induction false} ItemsAlwaysWrite(items: seq<Json>)
    ensures CanonicalItems(ByUnit, items).Written?
    decreases items, 0
  {
    if items != [] {
      UnitAlwaysWrites(items[0]);
      ItemsAlwaysWrite(items[1..]);
    }
  }

  lemma {:induction false} MembersAlwaysWrite(v: Json, keys: seq<Str>)
    requires v.Obj? && forall k :: k in keys ==> k in v.members
    ensures CanonicalMembers(ByUnit, v, keys).Written?
    decreases v, 0, |keys|
  {
    if keys != [] {
      assert keys[0] in keys;
      UnitAlwaysWrites(v.members[keys[0]]);
      MembersAlwaysWrite(v, keys[1..]);
    }
  }

  // ----- what a row's text determines -----

  const NAMES := {RUN_ID, ORG_ID, SEQ, CLASS, TOKENS_IN, TOKENS_OUT, CUM_TOKENS, OUTPUT}

  lemma NamedKeys(c: Content)
    ensures Named(c).Keys == NAMES
  {
  }

  /** The named columns keep apart from one another and from the rest of the row. */
  ghost predicate Shaped(c: Content, rest: set<Str>) {
    c.others.Keys == rest && rest !! Named(c).Keys
  }

  lemma NamesDiffer()
    ensures RUN_ID != ORG_ID && RUN_ID != OUTPUT && ORG_ID != OUTPUT && TOKENS_OUT != CUM_TOKENS
  {
    assert RUN_ID[0] != ORG_ID[0] && RUN_ID[0] != OUTPUT[0] && ORG_ID[1] != OUTPUT[1] && TOKENS_OUT[0] != CUM_TOKENS[0];
  }

  lemma NamedReads(c: Content)
    ensures var m := Named(c);
      && RUN_ID in m && m[RUN_ID] == String(c.run) && ORG_ID in m && m[ORG_ID] == String(c.org)
      && SEQ in m && m[SEQ] == Num(c.seqNo) && CLASS in m && m[CLASS] == String(ClassName(c.class_))
      && TOKENS_IN in m && m[TOKENS_IN] == Num(c.tokensIn) && TOKENS_OUT in m && m[TOKENS_OUT] == Num(c.tokensOut)
      && CUM_TOKENS in m && m[CUM_TOKENS] == Num(c.cumTokens) && OUTPUT in m && m[OUTPUT] == Obj(c.output)
  {
    NamesDiffer();
    assert |RUN_ID| == 6 && |ORG_ID| == 6 && |SEQ| == 3 && |CLASS| == 5 && |TOKENS_IN| == 9;
    assert |TOKENS_OUT| == 10 && |CUM_TOKENS| == 10 && |OUTPUT| == 6;
  }

  lemma ClassNamesDiffer(c: Class, d: Class)
    requires ClassName(c) == ClassName(d)
    ensures c == d
  {
    assert |ClassName(c)| == |ClassName(d)|;
    assert Name("agent_call")[1] != Name("checkpoint")[1] && Name("agent_call")[1] != Name("commitment")[1];
    assert Name("checkpoint")[1] != Name("commitment")[1];
    assert Name("agreement_r3")[0] != Name("kb_admission")[0];
  }

  lemma ColumnsDetermine(c: Content, d: Content, rest: set<Str>)
    requires Shaped(c, rest) && Shaped(d, rest) && Columns(c) == Columns(d)
    ensures c == d
  {
    NamedReads(c);
    NamedReads(d);
    assert Named(c) == Named(d) by {
      assert Named(c).Keys == Named(d).Keys;
      forall k | k in Named(c) ensures Named(c)[k] == Named(d)[k] {
        assert Columns(c)[k] == Named(c)[k] && Columns(d)[k] == Named(d)[k];
      }
    }
    assert c.others == d.others by {
      forall k | k in c.others ensures c.others[k] == d.others[k] {
        assert Columns(c)[k] == c.others[k] && Columns(d)[k] == d.others[k];
      }
    }
    ClassNamesDiffer(c.class_, d.class_);
  }

  /** The digest's input is cut in one way only: no previous hash holds a brace, every row opens with one. */
  lemma CutAtBrace(a: Str, x: Str, b: Str, y: Str)
    requires a + x == b + y && At(x, OPEN_BRACE) && At(y, OPEN_BRACE) && OPEN_BRACE !in a && OPEN_BRACE !in b
    ensures a == b && x == y
  {
    BraceStands(a, x);
    BraceStands(b, y);
    assert |a| == |b|;
    var s := a + x;
    assert a == s[..|a|] && b == s[..|b|] && x == s[|a|..] && y == s[|b|..];
  }

  lemma BraceStands(a: Str, x: Str)
    requires At(x, OPEN_BRACE) && OPEN_BRACE !in a
    ensures (a + x)[|a|] == OPEN_BRACE && forall i :: 0 <= i < |a| ==> (a + x)[i] != OPEN_BRACE
  {
  }

  predicate IsPrev(s: Str) { s == GENESIS || IsHex64(s) }

  lemma NoBraceInPrev(s: Str)
    requires IsPrev(s)
    ensures OPEN_BRACE !in s
  {
    if s == GENESIS {
      assert GENESIS == [0x47, 0x45, 0x4E, 0x45, 0x53, 0x49, 0x53];
    }
  }

  /** Two digests of one text that were taken over different rows: the only way out of what follows. */
  ghost predicate Collide(digest: Digest, r: Row, s: Row) {
    r.prev + CanonicalRow(r.content) != s.prev + CanonicalRow(s.content)
    && RowHash(digest, r.prev, r.content) == RowHash(digest, s.prev, s.content)
  }

  lemma HashDeterminesRow(digest: Digest, r: Row, s: Row, rest: set<Str>)
    requires Sound(digest, r, rest) && Sound(digest, s, rest) && IsPrev(r.prev) && IsPrev(s.prev)
    requires r.hash == s.hash
    ensures r == s || Collide(digest, r, s)
  {
    if Collide(digest, r, s) { return; }
    var v, w := Obj(Columns(r.content)), Obj(Columns(s.content));
    UnitAlwaysWrites(v);
    UnitAlwaysWrites(w);
    CanonicalOpens(ByUnit, v);
    CanonicalOpens(ByUnit, w);
    NoBraceInPrev(r.prev);
    NoBraceInPrev(s.prev);
    CutAtBrace(r.prev, CanonicalRow(r.content), s.prev, CanonicalRow(s.content));
    CanonicalDetermines(ByUnit, v, w);
    ColumnsDetermine(r.content, s.content, rest);
  }

  // ----- verified chains -----

  function PrevAt(chain: seq<Row>, i: nat): Str
    requires i <= |chain|
  {
    if i == 0 then GENESIS else chain[i - 1].hash
  }

  /** Each row hangs on the one before it, the first on the genesis mark. */
  ghost predicate Linked(chain: seq<Row>) {
    forall i :: 0 <= i < |chain| ==> chain[i].prev == PrevAt(chain, i)
  }

  ghost predicate Sound(digest: Digest, row: Row, rest: set<Str>) {
    VerifyRowHash(digest, row) && Shaped(row.content, rest)
  }

  /** What an auditor recomputes, row by row. */
  ghost predicate Verified(digest: Digest, chain: seq<Row>, rest: set<Str>) {
    && Linked(chain)
    && forall i {:trigger Sound(digest, chain[i], rest)} :: 0 <= i < |chain| ==> Sound(digest, chain[i], rest)
  }

  ghost predicate SomeCollision(digest: Digest, a: seq<Row>, b: seq<Row>) {
    exists i, j :: 0 <= i < |a| && 0 <= j < |b| && Collide(digest, a[i], b[j])
  }

  lemma GenesisIsNoHash(s: Str)
    requires IsHex64(s)
    ensures s != GENESIS
  {
  }

  lemma HeadIsNotGenesis(digest: Digest, a: seq<Row>, rest: set<Str>)
    requires Verified(digest, a, rest)
    ensures PrevAt(a, |a|) == GENESIS ==> a == []
  {
    if a != [] {
      assert Sound(digest, a[|a| - 1], rest);
      GenesisIsNoHash(a[|a| - 1].hash);
    }
  }

  lemma DropLast(digest: Digest, a: seq<Row>, m: nat, rest: set<Str>)
    requires Verified(digest, a, rest) && |a| == m + 1
    ensures Verified(digest, a[..m], rest) && PrevAt(a[..m], m) == a[m].prev
    ensures Sound(digest, a[m], rest) && IsPrev(a[m].prev)
  {
    var p := a[..m];
    assert Sound(digest, a[m], rest);
    forall i | 0 <= i < m ensures Sound(digest, p[i], rest) { assert Sound(digest, a[i], rest); }
    forall i | 0 <= i < m ensures p[i].prev == PrevAt(p, i) { assert a[i].prev == PrevAt(a, i); }
    PrevIsPrev(digest, a, m, rest);
  }

  lemma CollisionGrows(digest: Digest, a: seq<Row>, b: seq<Row>, m: nat, n: nat)
    requires m <= |a| && n <= |b| && SomeCollision(digest, a[..m], b[..n])
    ensures SomeCollision(digest, a, b)
  {
    var i, j :| 0 <= i < m && 0 <= j < n && Collide(digest, a[..m][i], b[..n][j]);
    assert Collide(digest, a[i], b[j]);
  }

  lemma CollisionShows(digest: Digest, a: seq<Row>, b: seq<Row>, i: nat, j: nat)
    requires i < |a| && j < |b| && Collide(digest, a[i], b[j])
    ensures SomeCollision(digest, a, b)
  {
  }

  /** Both verify and end in one hash, and the digest tells their rows apart. */
  ghost predicate SameHead(digest: Digest, a: seq<Row>, b: seq<Row>, rest: set<Str>) {
    forall k {:trigger Open(k)} :: Open(k) ==>
      && Verified(digest, a, rest) && Verified(digest, b, rest)
      && PrevAt(a, |a|) == PrevAt(b, |b|) && !SomeCollision(digest, a, b)
  }

  lemma BothEnd(digest: Digest, a: seq<Row>, b: seq<Row>, rest: set<Str>)
    requires SameHead(digest, a, b, rest)
    ensures a == [] <==> b == []
  {
    assert Open(0);
    HeadIsNotGenesis(digest, a, rest);
    HeadIsNotGenesis(digest, b, rest);
  }

  /** One step back from a shared head: the last rows agree, and what is before them shares a head again. */
  lemma StepBack(digest: Digest, a: seq<Row>, b: seq<Row>, m: nat, n: nat, rest: set<Str>)
    requires SameHead(digest, a, b, rest) && |a| == m + 1 && |b| == n + 1
    ensures a[m] == b[n] && SameHead(digest, a[..m], b[..n], rest)
  {
    assert Open(0);
    DropLast(digest, a, m, rest);
    DropLast(digest, b, n, rest);
    HashDeterminesRow(digest, a[m], b[n], rest);
    if a[m] != b[n] { CollisionShows(digest, a, b, m, n); }
    if SomeCollision(digest, a[..m], b[..n]) { CollisionGrows(digest, a, b, m, n); }
  }

  lemma {:induction false} SameHeadSameChain(digest: Digest, a: seq<Row>, b: seq<Row>, rest: set<Str>)
    requires SameHead(digest, a, b, rest)
    ensures a == b
  {
    BothEnd(digest, a, b, rest);
    if a != [] {
      var m, n := |a| - 1, |b| - 1;
      StepBack(digest, a, b, m, n, rest);
      SameHeadSameChain(digest, a[..m], b[..n], rest);
      assert a == a[..m] + [a[m]] && b == b[..n] + [b[n]];
    }
  }

  /** Two verified chains that end in one hash are one chain, whatever their lengths were thought to
      be: the alternative is two rows on which the digest collides. */
  lemma HeadDeterminesChain(digest: Digest, a: seq<Row>, b: seq<Row>, rest: set<Str>)
    requires Verified(digest, a, rest) && Verified(digest, b, rest)
    requires PrevAt(a, |a|) == PrevAt(b, |b|)
    ensures a == b || SomeCollision(digest, a, b)
  {
    if !SomeCollision(digest, a, b) { SameHeadSameChain(digest, a, b, rest); }
  }

  lemma PrevIsPrev(digest: Digest, a: seq<Row>, i: nat, rest: set<Str>)
    requires Verified(digest, a, rest) && i < |a|
    ensures IsPrev(a[i].prev)
  {
    if i > 0 { assert Sound(digest, a[i - 1], rest); }
  }
}
