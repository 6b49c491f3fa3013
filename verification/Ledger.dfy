/** The chain under contention: writers that read a head, build the row after it and insert it, against
    a table that takes a row only on the current head of its run. */
module Ledger {
  import opened Utf16
  import opened Values
  import opened Grammar
  import opened Chain

  /** The digest of a row, over the previous hash and the row's content. */
  type Hashing = (Str, Content) -> Str

  const APPEND_ATTEMPTS: nat := 6

  // ----- the table -----

  datatype Verdict = Accepted | ChainConflict | Incomplete | Misshapen

  /** `order by seq desc limit 1` over a run: the whole run for the trigger, one tenant's rows for a
      writer. */
  function LastBySeq(rows: seq<Row>, run: Str, org: Option<Str>): Option<Row> {
    if rows == [] then None
    else
      var n := |rows| - 1;
      var best := LastBySeq(rows[..n], run, org);
      if Sees(rows[n], run, org) && (best.None? || rows[n].content.seqNo > best.value.content.seqNo)
      then Some(rows[n]) else best
  }

  predicate Sees(r: Row, run: Str, org: Option<Str>) {
    r.content.run == run && (org.Some? ==> r.content.org == org.value)
  }

  const ATTEMPT_ID := Name("attempt_id")

  /** The attempt a row opens or closes; the index ignores rows that name none. */
  function AttemptOf(c: Content): Option<Str> {
    if (c.class_.Start? || c.class_.PromotionAttempt?) && ATTEMPT_ID in c.output && c.output[ATTEMPT_ID].String?
    then Some(c.output[ATTEMPT_ID].chars) else None
  }

  /** Two rows no unique index lets stand together. */
  predicate Clash(r: Row, s: Row) {
    || (r.content.run == s.content.run && (r.content.seqNo == s.content.seqNo || r.prev == s.prev))
    || (r.content.class_ == s.content.class_ && AttemptOf(r.content).Some?
        && AttemptOf(r.content) == AttemptOf(s.content))
  }

  predicate Present(m: map<Str, Json>, key: Str) { key in m && m[key] != Null }

  /** The columns an agent call must carry, and the keys each other class must name. */
  function RequiredColumns(c: Class): set<Str> {
    if c.AgentCall? then
      {Name("prompt_version_id"), Name("model_requested"), Name("model_returned"), Name("sampling"),
       Name("input_hash"), Name("input_path"), Name("prompt_hash"), Name("response_hash")}
    else {}
  }

  function RequiredKeys(c: Class): set<Str> {
    match c
    case AgentCall => {}
    case Start => {ATTEMPT_ID, Name("started_at"), Name("budget_reserved"), Name("code_sha")}
    case PromotionAttempt =>
      {ATTEMPT_ID, Name("candidate_prompt_version_id"), Name("incumbent_prompt_version_id"), Name("conjuncts"),
       Name("power"), Name("outcome"), Name("interpretation")}
    case ModificationEvent =>
      {Name("modification_id"), Name("gating_arm"), Name("verdict"), Name("would_have_been_rejected"), Name("reason"),
       Name("dag_node_id")}
    case Commitment => {Name("commitment_kind"), Name("sha256"), Name("covers"), Name("committed_before")}
    case PreregAnchor => {Name("document"), Name("sha256"), Name("field_count"), Name("blocks")}
    case AgreementR3 =>
      {Name("item_id"), Name("template_id"), Name("agreement"), Name("r"), Name("rollout_seeds"), Name("temperature")}
    case KbAdmission =>
      {Name("admission_id"), Name("gap_id"), Name("approved_by"), Name("snapshot_from"), Name("snapshot_to"),
       Name("content_hash"), Name("provenance_source")}
    case Checkpoint => {Name("seq_covered"), Name("head_row_hash"), Name("k")}
  }

  /** A terminal names the conjunct that failed, or none when it promoted, and why it aborted. */
  predicate TerminalComplete(o: map<Str, Json>) {
    var outcome := if Name("outcome") in o then o[Name("outcome")] else Null;
    && Name("failing_conjunct") in o
    && (o[Name("failing_conjunct")] == Null ==> outcome == String(Name("PROMOTED")))
    && (outcome == String(Name("ABORTED")) ==> Name("abort_reason") in o)
  }

  predicate IsComplete(c: Content) {
    && (forall k :: k in RequiredColumns(c.class_) ==> Present(c.others, k))
    && (forall k :: k in RequiredKeys(c.class_) ==> Present(c.output, k))
    && (c.class_.PromotionAttempt? ==> TerminalComplete(c.output))
    && (!c.class_.AgentCall? ==> c.tokensIn == 0 && c.tokensOut == 0)
  }

  predicate WellShaped(r: Row) { IsHex64(r.hash) && IsPrev(r.prev) && r.hash != r.prev }

  /** What the trigger, the checks and the indexes make of a row, in that order. */
  function Judge(rows: seq<Row>, row: Row): Verdict {
    var head := LastBySeq(rows, row.content.run, None);
    if head.Some? && row.content.seqNo <= head.value.content.seqNo then ChainConflict
    else if row.prev != (if head.Some? then head.value.hash else GENESIS) then ChainConflict
    else if !IsComplete(row.content) then Incomplete
    else if !WellShaped(row) then Misshapen
    else if exists i :: 0 <= i < |rows| && Clash(rows[i], row) then ChainConflict
    else Accepted
  }

  function Insert(rows: seq<Row>, row: Row): seq<Row> {
    if Judge(rows, row).Accepted? then rows + [row] else rows
  }

  function InsertAll(rows: seq<Row>, proposals: seq<Row>): seq<Row> {
    if proposals == [] then rows
    else Insert(InsertAll(rows, proposals[..|proposals| - 1]), proposals[|proposals| - 1])
  }

  // ----- the writers -----

  datatype Draft = Draft(class_: Class, tokensIn: nat, tokensOut: nat, output: map<Str, Json>, others: map<Str, Json>)

  /** The row after a head: its place and its running total both count from there. */
  function BuildRow(run: Str, org: Str, head: Option<Row>, d: Draft): Content {
    var seqNo := if head.Some? then head.value.content.seqNo else 0;
    var cum := if head.Some? then head.value.content.cumTokens else 0;
    Content(run, org, seqNo + 1, d.class_, d.tokensIn, d.tokensOut, cum + d.tokensIn + d.tokensOut, d.output, d.others)
  }

  /** `linkRow`: the row attached to the head it was built for. */
  function Attach(hash: Hashing, c: Content, head: Option<Row>): Row {
    var prev := if head.Some? then head.value.hash else GENESIS;
    Row(c, prev, hash(prev, c))
  }

  function Propose(hash: Hashing, run: Str, org: Str, head: Option<Row>, d: Draft): Row {
    Attach(hash, BuildRow(run, org, head, d), head)
  }

  // ----- one run's chain -----

  function ChainOf(rows: seq<Row>, run: Str): seq<Row> {
    if rows == [] then []
    else
      var n := |rows| - 1;
      ChainOf(rows[..n], run) + if rows[n].content.run == run then [rows[n]] else []
  }

  lemma ChainAppend(rows: seq<Row>, row: Row, run: Str)
    ensures row.content.run == run ==> ChainOf(rows + [row], run) == ChainOf(rows, run) + [row]
    ensures row.content.run != run ==> ChainOf(rows + [row], run) == ChainOf(rows, run)
  {
    assert (rows + [row])[..|rows|] == rows;
  }

  lemma {:induction false} ChainMembers(rows: seq<Row>, run: Str, r: Row)
    ensures r in ChainOf(rows, run) <==> r in rows && r.content.run == run
  {
    if rows != [] {
      var n := |rows| - 1;
      ChainMembers(rows[..n], run, r);
      assert rows == rows[..n] + [rows[n]];
    }
  }

  /** Row `i` hangs on the row before it, under a higher number and a hash of the right shape. */
  ghost predicate Follows(c: seq<Row>, i: nat)
    requires i < |c|
  {
    c[i].prev == PrevAt(c, i) && (i > 0 ==> c[i - 1].content.seqNo < c[i].content.seqNo) && IsHex64(c[i].hash)
  }

  /** A chain any accepted rows keep. */
  ghost predicate Rising(c: seq<Row>) {
    forall i {:trigger Follows(c, i)} :: 0 <= i < |c| ==> Follows(c, i)
  }

  function Last(c: seq<Row>): Option<Row> { if c == [] then None else Some(c[|c| - 1]) }

  /** On a rising chain the trigger's head is the row inserted last. */
  lemma {:induction false} HeadIsLast(rows: seq<Row>, run: Str)
    requires Rising(ChainOf(rows, run))
    ensures LastBySeq(rows, run, None) == Last(ChainOf(rows, run))
  {
    if rows != [] {
      var n := |rows| - 1;
      var c, before := ChainOf(rows, run), ChainOf(rows[..n], run);
      assert before == c[..|before|];
      RisingPrefix(c, |before|);
      HeadIsLast(rows[..n], run);
      if rows[n].content.run == run && before != [] {
        assert Follows(c, |before|);
        assert c[|before| - 1] == before[|before| - 1] && c[|before|] == rows[n];
      }
    }
  }

  lemma RisingPrefix(c: seq<Row>, n: nat)
    requires Rising(c) && n <= |c|
    ensures Rising(c[..n])
  {
    forall i | 0 <= i < n ensures Follows(c[..n], i) { assert Follows(c, i); }
  }

  /** What a tenant reads as the head is some row of the run, its own. */
  lemma {:induction false} VisibleHead(rows: seq<Row>, run: Str, org: Option<Str>)
    ensures var h := LastBySeq(rows, run, org); h.Some? ==> h.value in rows && Sees(h.value, run, org)
    ensures LastBySeq(rows, run, org).None? ==> forall r :: r in rows ==> !Sees(r, run, org)
  {
    if rows != [] {
      var n := |rows| - 1;
      VisibleHead(rows[..n], run, org);
      assert rows == rows[..n] + [rows[n]];
    }
  }

  lemma AcceptedHangsOnHead(rows: seq<Row>, row: Row)
    requires Judge(rows, row).Accepted? && Rising(ChainOf(rows, row.content.run))
    ensures var c := ChainOf(rows, row.content.run);
      row.prev == PrevAt(c, |c|) && (c != [] ==> row.content.seqNo > c[|c| - 1].content.seqNo) && IsHex64(row.hash)
  {
    HeadIsLast(rows, row.content.run);
  }

  lemma RisingAppend(c: seq<Row>, row: Row)
    requires Rising(c) && row.prev == PrevAt(c, |c|) && IsHex64(row.hash)
    requires c != [] ==> row.content.seqNo > c[|c| - 1].content.seqNo
    ensures Rising(c + [row])
  {
    var d := c + [row];
    forall i | 0 <= i < |d| ensures Follows(d, i) {
      if i < |c| { assert Follows(c, i); }
    }
  }

  /** Whoever wrote it and whatever it holds, no row that is accepted ever forks or breaks a run. */
  lemma InsertKeepsRising(rows: seq<Row>, row: Row, run: Str)
    requires Rising(ChainOf(rows, run))
    ensures Rising(ChainOf(Insert(rows, row), run))
  {
    if Judge(rows, row).Accepted? {
      ChainAppend(rows, row, run);
      if row.content.run == run {
        AcceptedHangsOnHead(rows, row);
        RisingAppend(ChainOf(rows, run), row);
      }
    }
  }

  lemma {:induction false} InsertAllKeepsRising(rows: seq<Row>, proposals: seq<Row>, run: Str)
    requires Rising(ChainOf(rows, run))
    ensures Rising(ChainOf(InsertAll(rows, proposals), run))
  {
    if proposals != [] {
      var n := |proposals| - 1;
      InsertAllKeepsRising(rows, proposals[..n], run);
      InsertKeepsRising(InsertAll(rows, proposals[..n]), proposals[n], run);
    }
  }

  // ----- numbering -----

  function Spent(r: Row): nat { r.content.tokensIn + r.content.tokensOut }

  function TokensUpTo(c: seq<Row>, n: nat): nat
    requires n <= |c|
  {
    if n == 0 then 0 else TokensUpTo(c, n - 1) + Spent(c[n - 1])
  }

  /** Row `i` is number `i + 1` and carries the tokens of the rows up to and including itself. */
  ghost predicate Counted(c: seq<Row>) {
    forall i :: 0 <= i < |c| ==> c[i].content.seqNo == i + 1 && c[i].content.cumTokens == TokensUpTo(c, i + 1)
  }

  lemma {:induction false} TokensStay(c: seq<Row>, row: Row, n: nat)
    requires n <= |c|
    ensures TokensUpTo(c + [row], n) == TokensUpTo(c, n)
  {
    if n > 0 { TokensStay(c, row, n - 1); }
  }

  lemma CountedAppend(c: seq<Row>, row: Row)
    requires Counted(c) && row.content.seqNo == |c| + 1
    requires row.content.cumTokens == TokensUpTo(c, |c|) + Spent(row)
    ensures Counted(c + [row])
  {
    var d := c + [row];
    forall i | 0 <= i < |d| ensures d[i].content.seqNo == i + 1 && d[i].content.cumTokens == TokensUpTo(d, i + 1) {
      TokensStay(c, row, if i < |c| then i + 1 else |c|);
    }
  }

  /** A row built on a head read at any earlier time is accepted only if that head is still the head:
      the number it took from a stale head can no longer advance. */
  lemma OnlyTheCurrentHeadAccepts(rows: seq<Row>, hash: Hashing, run: Str, org: Str, head: Option<Row>, d: Draft)
    requires Rising(ChainOf(rows, run)) && Counted(ChainOf(rows, run))
    requires head.Some? ==> head.value in ChainOf(rows, run)
    requires Judge(rows, Propose(hash, run, org, head, d)).Accepted?
    ensures head == Last(ChainOf(rows, run))
  {
    var c := ChainOf(rows, run);
    AcceptedHangsOnHead(rows, Propose(hash, run, org, head, d));
    if c != [] { LastIsNotGenesis(c); }
    if head.Some? {
      var i :| 0 <= i < |c| && c[i] == head.value;
      assert c[i].content.seqNo == i + 1 && c[|c| - 1].content.seqNo == |c|;
    }
  }

  lemma LastIsNotGenesis(c: seq<Row>)
    requires Rising(c) && c != []
    ensures c[|c| - 1].hash != GENESIS
  {
    assert Follows(c, |c| - 1);
    GenesisIsNoHash(c[|c| - 1].hash);
  }

  lemma ProposedContinues(rows: seq<Row>, hash: Hashing, run: Str, org: Str, head: Option<Row>, d: Draft)
    requires Rising(ChainOf(rows, run)) && Counted(ChainOf(rows, run))
    requires head.Some? ==> head.value in ChainOf(rows, run)
    requires Judge(rows, Propose(hash, run, org, head, d)).Accepted?
    ensures var row := Propose(hash, run, org, head, d);
      ChainOf(rows + [row], run) == ChainOf(rows, run) + [row] && Counted(ChainOf(rows + [row], run))
  {
    var c, row := ChainOf(rows, run), Propose(hash, run, org, head, d);
    OnlyTheCurrentHeadAccepts(rows, hash, run, org, head, d);
    ChainAppend(rows, row, run);
    if c != [] { assert c[|c| - 1].content.cumTokens == TokensUpTo(c, |c|); }
    CountedAppend(c, row);
  }

  // ----- every run of the protocol -----

  /** What a writer holds between its two statements. */
  datatype View = View(run: Str, org: Str, head: Option<Row>)

  datatype World = World(rows: seq<Row>, views: map<nat, View>)

  datatype Step = Look(writer: nat, run: Str, org: Str) | Write(writer: nat, draft: Draft)

  function Do(hash: Hashing, w: World, s: Step): World {
    match s
    case Look(writer, run, org) => w.(views := w.views[writer := View(run, org, LastBySeq(w.rows, run, Some(org)))])
    case Write(writer, draft) =>
      if writer !in w.views then w
      else var v := w.views[writer]; w.(rows := Insert(w.rows, Propose(hash, v.run, v.org, v.head, draft)))
  }

  function Reach(hash: Hashing, steps: seq<Step>): World {
    if steps == [] then World([], map[])
    else Do(hash, Reach(hash, steps[..|steps| - 1]), steps[|steps| - 1])
  }

  ghost predicate Linear(c: seq<Row>) { Rising(c) && Counted(c) }

  ghost predicate Held(rows: seq<Row>, v: View) {
    v.head.Some? ==> v.head.value in rows && v.head.value.content.run == v.run
  }

  ghost predicate Hashed(hash: Hashing, rows: seq<Row>) {
    forall r :: r in rows ==> r.hash == hash(r.prev, r.content)
  }

  lemma WriteKeepsLinear(hash: Hashing, rows: seq<Row>, v: View, d: Draft, run: Str)
    requires Linear(ChainOf(rows, run)) && Held(rows, v)
    ensures Linear(ChainOf(Insert(rows, Propose(hash, v.run, v.org, v.head, d)), run))
  {
    var row := Propose(hash, v.run, v.org, v.head, d);
    InsertKeepsRising(rows, row, run);
    if Judge(rows, row).Accepted? {
      ChainAppend(rows, row, run);
      if v.run == run {
        if v.head.Some? { ChainMembers(rows, run, v.head.value); }
        ProposedContinues(rows, hash, run, v.org, v.head, d);
      }
    }
  }

  /** However writers interleave, lose heads and come back with stale ones, every run stays one list:
      numbered 1 to n, each row on its predecessor's hash, running totals exact, hashes the writer's. */
  lemma {:induction false} EveryRunKeepsItsChain(hash: Hashing, steps: seq<Step>, run: Str)
    ensures Linear(ChainOf(Reach(hash, steps).rows, run))
    ensures Hashed(hash, Reach(hash, steps).rows)
    ensures forall k :: k in Reach(hash, steps).views ==> Held(Reach(hash, steps).rows, Reach(hash, steps).views[k])
  {
    if steps != [] {
      var n := |steps| - 1;
      var w, s := Reach(hash, steps[..n]), steps[n];
      EveryRunKeepsItsChain(hash, steps[..n], run);
      match s {
        case Look(writer, r, org) => VisibleHead(w.rows, r, Some(org));
        case Write(writer, draft) =>
          if writer in w.views { WriteKeepsLinear(hash, w.rows, w.views[writer], draft, run); }
      }
    }
  }

  // ----- what an auditor finds -----

  ghost predicate Drafted(rows: seq<Row>, rest: set<Str>) {
    forall r :: r in rows ==> r.content.others.Keys == rest
  }

  lemma {:induction false} DraftsStay(hash: Hashing, steps: seq<Step>, rest: set<Str>)
    requires forall i :: 0 <= i < |steps| && steps[i].Write? ==> steps[i].draft.others.Keys == rest
    ensures Drafted(Reach(hash, steps).rows, rest)
  {
    if steps != [] {
      DraftsStay(hash, steps[..|steps| - 1], rest);
    }
  }

  lemma LinearIsLinked(c: seq<Row>)
    requires Rising(c)
    ensures Linked(c) && forall i :: 0 <= i < |c| ==> IsHex64(c[i].hash)
  {
    forall i | 0 <= i < |c| ensures c[i].prev == PrevAt(c, i) && IsHex64(c[i].hash) { assert Follows(c, i); }
  }

  /** Every chain the protocol can reach passes the auditor's check, so its head fixes all of it. */
  lemma EveryRunVerifies(digest: Digest, steps: seq<Step>, run: Str, rest: set<Str>)
    requires rest !! NAMES
    requires forall i :: 0 <= i < |steps| && steps[i].Write? ==> steps[i].draft.others.Keys == rest
    ensures Verified(digest, ChainOf(Reach((p, c) => RowHash(digest, p, c), steps).rows, run), rest)
  {
    var hash: Hashing := (p, c) => RowHash(digest, p, c);
    var rows := Reach(hash, steps).rows;
    var chain := ChainOf(rows, run);
    EveryRunKeepsItsChain(hash, steps, run);
    DraftsStay(hash, steps, rest);
    LinearIsLinked(chain);
    forall i | 0 <= i < |chain| ensures Sound(digest, chain[i], rest) {
      ChainMembers(rows, run, chain[i]);
      NamedKeys(chain[i].content);
      assert chain[i].hash == hash(chain[i].prev, chain[i].content);
    }
  }
}
