/** `PgLedgerStore.append`: read the head, build, insert, and start again when another writer was first. */
module Append {
  import opened Utf16
  import opened Grammar
  import opened Chain
  import opened Ledger

  datatype Appended = Wrote(row: Row) | Refused(verdict: Verdict) | WriteFailed

  // ----- what the attempts meet -----

  /** The table after `k` attempts have each let their interleaved proposals through. */
  function Committed(rows: seq<Row>, others: seq<seq<Row>>, k: nat): seq<Row>
    requires k <= |others|
  {
    if k == 0 then rows else InsertAll(Committed(rows, others, k - 1), others[k - 1])
  }

  /** The row attempt `k` builds: on the head its tenant could see before the others committed. */
  function RowAt(hash: Hashing, rows: seq<Row>, run: Str, org: Str, d: Draft, others: seq<seq<Row>>, k: nat): Row
    requires k < |others|
  {
    Propose(hash, run, org, LastBySeq(Committed(rows, others, k), run, Some(org)), d)
  }

  function VerdictAt(hash: Hashing, rows: seq<Row>, run: Str, org: Str, d: Draft, others: seq<seq<Row>>,
                     k: nat)
    : Verdict
    requires k < |others|
  {
    Judge(Committed(rows, others, k + 1), RowAt(hash, rows, run, org, d, others, k))
  }

  /** The first `k` attempts all lost the head. */
  predicate AllLost(hash: Hashing, rows: seq<Row>, run: Str, org: Str, d: Draft, others: seq<seq<Row>>, k: nat)
    requires k <= |others|
  {
    k == 0 || (AllLost(hash, rows, run, org, d, others, k - 1)
        && VerdictAt(hash, rows, run, org, d, others, k - 1).ChainConflict?)
  }

  class Store {
    var rows: seq<Row>

    constructor ()
      ensures rows == []
    {
      rows := [];
    }

    /** `others[k]` is what other transactions try to commit between the read and the insert of attempt
        `k`; nothing is supposed of it. */
    method AppendRow(hash: Hashing, run: Str, org: Str, d: Draft, others: seq<seq<Row>>)
      returns (r: Appended, ghost lost: nat)
      requires |others| == APPEND_ATTEMPTS
      modifies this
      ensures lost <= APPEND_ATTEMPTS && AllLost(hash, old(rows), run, org, d, others, lost)
      ensures r.WriteFailed? <==> lost == APPEND_ATTEMPTS
      ensures r.WriteFailed? ==> rows == Committed(old(rows), others, APPEND_ATTEMPTS)
      ensures r.Wrote? ==> VerdictAt(hash, old(rows), run, org, d, others, lost).Accepted?
                           && r.row == RowAt(hash, old(rows), run, org, d, others, lost)
                           && rows == Committed(old(rows), others, lost + 1) + [r.row]
      ensures r.Refused? ==> r.verdict == VerdictAt(hash, old(rows), run, org, d, others, lost)
                             && !r.verdict.Accepted? && !r.verdict.ChainConflict?
                             && rows == Committed(old(rows), others, lost + 1)
    {
      ghost var was := rows;
      var attempt := 0;
      while attempt < APPEND_ATTEMPTS
        invariant 0 <= attempt <= APPEND_ATTEMPTS
        invariant rows == Committed(was, others, attempt)
        invariant AllLost(hash, was, run, org, d, others, attempt)
      {
        var verdict, row := TryOnce(hash, run, org, d, others[attempt], was, others, attempt);
        if verdict.Accepted? { return Wrote(row), attempt; }
        if !verdict.ChainConflict? { return Refused(verdict), attempt; }
        attempt := attempt + 1;
      }
      return WriteFailed, APPEND_ATTEMPTS;
    }

    /** One transaction: the head is read, the others commit, the row is inserted or refused. */
    method TryOnce(hash: Hashing, run: Str, org: Str, d: Draft, meanwhile: seq<Row>,
                   ghost was: seq<Row>, ghost others: seq<seq<Row>>, ghost k: nat)
      returns (verdict: Verdict, row: Row)
      requires k < |others| && meanwhile == others[k] && rows == Committed(was, others, k)
      modifies this
      ensures verdict == VerdictAt(hash, was, run, org, d, others, k) && row == RowAt(hash, was, run, org, d, others, k)
      ensures rows == if verdict.Accepted? then Committed(was, others, k + 1) + [row] else Committed(was, others, k + 1)
    {
      var head := LastBySeq(rows, run, Some(org));
      row := Propose(hash, run, org, head, d);
      rows := InsertAll(rows, meanwhile);
      verdict := Judge(rows, row);
      if verdict.Accepted? { rows := rows + [row]; }
    }
  }

  // ----- what a returned append means -----

  lemma {:induction false} CommittedKeepsRising(rows: seq<Row>, others: seq<seq<Row>>, k: nat, run: Str)
    requires k <= |others| && Rising(ChainOf(rows, run))
    ensures Rising(ChainOf(Committed(rows, others, k), run))
  {
    if k > 0 {
      CommittedKeepsRising(rows, others, k - 1, run);
      InsertAllKeepsRising(Committed(rows, others, k - 1), others[k - 1], run);
    }
  }

  /** The rows an append leaves in its run: the others', and its own once, at the end, hanging on them. */
  lemma ReturnedAppendAddsOneRow(hash: Hashing, rows: seq<Row>, run: Str, org: Str, d: Draft, others: seq<seq<Row>>,
                                 k: nat)
    requires k < |others| && Rising(ChainOf(rows, run))
    requires VerdictAt(hash, rows, run, org, d, others, k).Accepted?
    ensures var row := RowAt(hash, rows, run, org, d, others, k);
      var base := ChainOf(Committed(rows, others, k + 1), run);
      && ChainOf(Committed(rows, others, k + 1) + [row], run) == base + [row]
      && row !in Committed(rows, others, k + 1)
      && row.prev == PrevAt(base, |base|) && Rising(base + [row])
  {
    CommittedKeepsRising(rows, others, k + 1, run);
    AcceptedExtends(Committed(rows, others, k + 1), RowAt(hash, rows, run, org, d, others, k), run);
  }

  lemma AcceptedExtends(rows: seq<Row>, row: Row, run: Str)
    requires Judge(rows, row).Accepted? && row.content.run == run && Rising(ChainOf(rows, run))
    ensures var base := ChainOf(rows, run);
      && ChainOf(rows + [row], run) == base + [row] && row !in rows
      && row.prev == PrevAt(base, |base|) && Rising(base + [row])
  {
    ChainAppend(rows, row, run);
    AcceptedHangsOnHead(rows, row);
    RisingAppend(ChainOf(rows, run), row);
    AcceptedIsNew(rows, row);
  }

  lemma AcceptedIsNew(rows: seq<Row>, row: Row)
    requires Judge(rows, row).Accepted?
    ensures row !in rows
  {
    assert forall i :: 0 <= i < |rows| ==> !Clash(rows[i], row);
  }

  // ----- when it cannot succeed -----

  /** The last row of a run belongs to another organisation than the writer's. */
  predicate ForeignHead(rows: seq<Row>, run: Str, org: Str) {
    var c := ChainOf(rows, run); c != [] && c[|c| - 1].content.org != org
  }

  lemma {:induction false} RisingOrders(c: seq<Row>, i: nat, j: nat)
    requires Rising(c) && i < j < |c|
    ensures c[i].content.seqNo < c[j].content.seqNo
    decreases j
  {
    assert Follows(c, j);
    if i < j - 1 { RisingOrders(c, i, j - 1); }
  }

  /** Under a foreign head a writer's own view is clipped, and what it builds on any row it has seen is
      a conflict, even when digests happen to agree. */
  lemma ForeignHeadConflicts(hash: Hashing, rows: seq<Row>, run: Str, org: Str, head: Option<Row>, d: Draft)
    requires Rising(ChainOf(rows, run)) && ForeignHead(rows, run, org)
    requires head.Some? ==> head.value in rows && Sees(head.value, run, Some(org))
    ensures Judge(rows, Propose(hash, run, org, head, d)).ChainConflict?
  {
    var c := ChainOf(rows, run);
    HeadIsLast(rows, run);
    LastIsNotGenesis(c);
    if head.Some? {
      ChainMembers(rows, run, head.value);
      var i :| 0 <= i < |c| && c[i] == head.value;
      RisingOrders(c, i, |c| - 1);
    }
  }

  lemma {:induction false} CommittedGrows(rows: seq<Row>, others: seq<seq<Row>>, k: nat, r: Row)
    requires k < |others| && r in Committed(rows, others, k)
    ensures r in Committed(rows, others, k + 1)
  {
    InsertAllGrows(Committed(rows, others, k), others[k], r);
  }

  lemma {:induction false} InsertAllGrows(rows: seq<Row>, proposals: seq<Row>, r: Row)
    requires r in rows
    ensures r in InsertAll(rows, proposals)
  {
    if proposals != [] { InsertAllGrows(rows, proposals[..|proposals| - 1], r); }
  }

  /** In a run that another organisation keeps the head of, every one of the six attempts loses it. */
  lemma ForeignRunNeverAppends(hash: Hashing, rows: seq<Row>, run: Str, org: Str, d: Draft, others: seq<seq<Row>>,
                               k: nat)
    requires k < |others| && Rising(ChainOf(rows, run))
    requires ForeignHead(Committed(rows, others, k + 1), run, org)
    ensures VerdictAt(hash, rows, run, org, d, others, k).ChainConflict?
  {
    var head := LastBySeq(Committed(rows, others, k), run, Some(org));
    VisibleHead(Committed(rows, others, k), run, Some(org));
    if head.Some? { CommittedGrows(rows, others, k, head.value); }
    CommittedKeepsRising(rows, others, k + 1, run);
    ForeignHeadConflicts(hash, Committed(rows, others, k + 1), run, org, head, d);
  }

  /** Some row of the run already hangs on its last hash: two of its rows were given one digest. */
  predicate HeadTaken(rows: seq<Row>, run: Str) {
    var c := ChainOf(rows, run);
    exists i :: 0 <= i < |rows| && rows[i].content.run == run && rows[i].prev == PrevAt(c, |c|)
  }

  /** With nobody else about, the append of a complete row on a fresh attempt returns exactly when the
      run is empty or its last row is the writer's own organisation's, and no digest repeats: trying
      again changes nothing. */
  lemma AloneAppendsExactlyOnOwnHead(hash: Hashing, rows: seq<Row>, run: Str, org: Str, d: Draft)
    requires Linear(ChainOf(rows, run)) && LegalDraft(rows, run, org, d)
    requires WellShaped(Propose(hash, run, org, LastBySeq(rows, run, Some(org)), d))
    ensures Judge(rows, Propose(hash, run, org, LastBySeq(rows, run, Some(org)), d)).Accepted?
       <==> !ForeignHead(rows, run, org) && !HeadTaken(rows, run)
  {
    if ForeignHead(rows, run, org) {
      VisibleHead(rows, run, Some(org));
      ForeignHeadConflicts(hash, rows, run, org, LastBySeq(rows, run, Some(org)), d);
    } else {
      OwnHeadIsVisible(rows, run, org);
      OwnHeadAccepts(hash, rows, run, org, d);
    }
  }

  /** The draft lacks nothing its class must name and opens or closes no attempt already filed. */
  predicate LegalDraft(rows: seq<Row>, run: Str, org: Str, d: Draft) {
    var c := BuildRow(run, org, None, d);
    IsComplete(c) && forall r :: r in rows && r.content.class_ == d.class_ && AttemptOf(c).Some? ==>
        AttemptOf(r.content) != AttemptOf(c)
  }

  lemma OwnHeadIsVisible(rows: seq<Row>, run: Str, org: Str)
    requires Linear(ChainOf(rows, run)) && !ForeignHead(rows, run, org)
    ensures LastBySeq(rows, run, Some(org)) == Last(ChainOf(rows, run))
  {
    var c, h := ChainOf(rows, run), LastBySeq(rows, run, Some(org));
    VisibleHead(rows, run, Some(org));
    if c != [] {
      var last := c[|c| - 1];
      ChainMembers(rows, run, last);
      HighestIsRead(rows, run, Some(org), last);
      ChainMembers(rows, run, h.value);
      var i :| 0 <= i < |c| && c[i] == h.value;
      assert i == |c| - 1;
    } else if h.Some? {
      ChainMembers(rows, run, h.value);
    }
  }

  /** No row a reader can see carries a higher number than the one it reads. */
  lemma {:induction false} HighestIsRead(rows: seq<Row>, run: Str, org: Option<Str>, r: Row)
    requires r in rows && Sees(r, run, org)
    ensures var h := LastBySeq(rows, run, org); h.Some? && r.content.seqNo <= h.value.content.seqNo
  {
    var n := |rows| - 1;
    assert rows == rows[..n] + [rows[n]];
    if r in rows[..n] { HighestIsRead(rows[..n], run, org, r); }
  }

  lemma OwnHeadAccepts(hash: Hashing, rows: seq<Row>, run: Str, org: Str, d: Draft)
    requires Linear(ChainOf(rows, run)) && LegalDraft(rows, run, org, d)
    requires WellShaped(Propose(hash, run, org, Last(ChainOf(rows, run)), d))
    ensures Judge(rows, Propose(hash, run, org, Last(ChainOf(rows, run)), d)).Accepted? <==> !HeadTaken(rows, run)
  {
    var c := ChainOf(rows, run);
    var row := Propose(hash, run, org, Last(c), d);
    HeadIsLast(rows, run);
    assert row.prev == PrevAt(c, |c|) && row.content.seqNo == |c| + 1;
    forall i | 0 <= i < |rows| ensures Clash(rows[i], row) <==> rows[i].content.run == run && rows[i].prev == row.prev {
      if rows[i].content.run == run { NumberIsFree(rows, run, rows[i]); }
    }
  }

  lemma NumberIsFree(rows: seq<Row>, run: Str, r: Row)
    requires Linear(ChainOf(rows, run)) && r in rows && r.content.run == run
    ensures r.content.seqNo <= |ChainOf(rows, run)|
  {
    var c := ChainOf(rows, run);
    ChainMembers(rows, run, r);
    var j :| 0 <= j < |c| && c[j] == r;
  }
}
