/** The panel's reconciliation: set equality of openings and closings by attempt, in both directions. */
module Reconcile {
  import opened Utf16
  import opened Grammar
  import opened Chain
  import opened Ledger
  import opened Attempts

  datatype Kind = Opening | Closing

  /** A row as the reader hands it over; `outcome` is none where the output names no text. */
  datatype Filing = Filing(kind: Kind, attempt: Str, outcome: Option<Str>)

  datatype Verdict = Reconciled | NotReconciled | NothingFiled

  datatype Reconciliation = Reconciliation(verdict: Verdict, starts: nat, terminals: nat,
                                           dangling: seq<Str>, orphan: seq<Str>, invalid: seq<Str>)

  predicate Opens(f: Filing, a: Str) { f.kind.Opening? && f.attempt == a }

  predicate Closes(f: Filing, a: Str) { f.kind.Closing? && f.attempt == a && ValidOutcome(f.outcome) }

  predicate Claims(f: Filing, a: Str) { f.kind.Closing? && f.attempt == a && !ValidOutcome(f.outcome) }

  predicate Started(rows: seq<Filing>, a: Str) { exists i :: 0 <= i < |rows| && Opens(rows[i], a) }

  predicate Ended(rows: seq<Filing>, a: Str) { exists i :: 0 <= i < |rows| && Closes(rows[i], a) }

  predicate Misnamed(rows: seq<Filing>, a: Str) { exists i :: 0 <= i < |rows| && Claims(rows[i], a) }

  /** `[...set].sort()`: each once, in code-unit order. */
  method Sorted(ids: set<Str>) returns (r: seq<Str>)
    ensures Lists(r, ids) && Ascending(ByUnit, r)
  {
    r := [];
    var rest := ids;
    while rest != {}
      invariant rest <= ids && Lists(r, ids - rest) && Ascending(ByUnit, r)
      decreases |rest|
    {
      var x :| x in rest;
      assert x !in r;
      ghost var was := r;
      r := Placed(r, x);
      rest := rest - {x};
      AscendingDiffer(ByUnit, r);
      assert forall y :: y in ids - rest <==> y in was || y == x;
    }
    assert ids - rest == ids;
  }

  method Placed(s: seq<Str>, x: Str) returns (r: seq<Str>)
    requires Ascending(ByUnit, s) && x !in s
    ensures Ascending(ByUnit, r) && |r| == |s| + 1
    ensures forall y :: y in r <==> y in s || y == x
  {
    var at := 0;
    while at < |s| && KeyCompare(ByUnit, s[at], x) < 0
      invariant 0 <= at <= |s|
      invariant forall i :: 0 <= i < at ==> KeyCompare(ByUnit, s[i], x) < 0
    {
      at := at + 1;
    }
    r := s[..at] + [x] + s[at..];
    PlacedAscends(s, x, at);
    assert s == s[..at] + s[at..];
  }

  lemma PlacedAscends(s: seq<Str>, x: Str, at: nat)
    requires Ascending(ByUnit, s) && x !in s && at <= |s|
    requires forall i :: 0 <= i < at ==> KeyCompare(ByUnit, s[i], x) < 0
    requires at < |s| ==> KeyCompare(ByUnit, s[at], x) >= 0
    ensures Ascending(ByUnit, s[..at] + [x] + s[at..])
  {
    var r := s[..at] + [x] + s[at..];
    forall i | at <= i < |s| ensures KeyCompare(ByUnit, x, s[i]) < 0 {
      KeysCompare(ByUnit, x, s[at], s[i]);
      KeysCompare(ByUnit, x, s[i], x);
      assert i == at || KeyCompare(ByUnit, s[at], s[i]) < 0;
    }
    forall i, j | 0 <= i < j < |r| ensures KeyCompare(ByUnit, r[i], r[j]) < 0 {
      if i < at && j > at { assert r[i] == s[i] && r[j] == s[j - 1]; }
      else if i > at { assert r[i] == s[i - 1] && r[j] == s[j - 1]; }
    }
  }

  /** One pass over the rows into three sets, then the two anti-joins. A closing whose outcome is not
      one of the three published ones closes nothing. */
  method ReconcileAttempts(rows: seq<Filing>) returns (r: Reconciliation)
    ensures Ascending(ByUnit, r.dangling) && forall a :: a in r.dangling <==> Started(rows, a) && !Ended(rows, a)
    ensures Ascending(ByUnit, r.orphan) && forall a :: a in r.orphan <==> Ended(rows, a) && !Started(rows, a)
    ensures Ascending(ByUnit, r.invalid) && forall a :: a in r.invalid <==> Misnamed(rows, a)
    ensures r.verdict.NothingFiled? <==> rows == []
    ensures r.verdict.Reconciled? <==>
      rows != [] && forall a :: (Started(rows, a) <==> Ended(rows, a)) && !Misnamed(rows, a)
  {
    var starts: set<Str>, terminals: set<Str>, invalid: set<Str> := {}, {}, {};
    for i := 0 to |rows|
      invariant Sorting(rows[..i], starts, terminals, invalid)
    {
      var row := rows[i];
      SortingStep(rows, i, starts, terminals, invalid);
      if row.kind.Opening? {
        starts := starts + {row.attempt};
      } else if !ValidOutcome(row.outcome) {
        invalid := invalid + {row.attempt};
      } else {
        terminals := terminals + {row.attempt};
      }
    }
    assert rows[..|rows|] == rows;
    var dangling := Sorted(starts - terminals);
    var orphan := Sorted(terminals - starts);
    var invalidIds := Sorted(invalid);
    var verdict;
    EmptyExactly(rows, starts, terminals, invalid);
    NoneListed(dangling, starts - terminals);
    NoneListed(orphan, terminals - starts);
    NoneListed(invalidIds, invalid);
    if starts == {} && terminals == {} && |invalidIds| == 0 {
      verdict := NothingFiled;
    } else if |dangling| == 0 && |orphan| == 0 && |invalidIds| == 0 {
      verdict := Reconciled;
    } else {
      verdict := NotReconciled;
    }
    Judged(rows, starts, terminals, invalid);
    r := Reconciliation(verdict, |starts|, |terminals|, dangling, orphan, invalidIds);
  }

  ghost predicate Sorting(rows: seq<Filing>, starts: set<Str>, terminals: set<Str>, invalid: set<Str>) {
    && (forall a :: a in starts <==> Started(rows, a))
    && (forall a :: a in terminals <==> Ended(rows, a))
    && (forall a :: a in invalid <==> Misnamed(rows, a))
  }

  lemma OneMore(rows: seq<Filing>, f: Filing, a: Str)
    ensures Started(rows + [f], a) <==> Started(rows, a) || Opens(f, a)
    ensures Ended(rows + [f], a) <==> Ended(rows, a) || Closes(f, a)
    ensures Misnamed(rows + [f], a) <==> Misnamed(rows, a) || Claims(f, a)
  {
    var more := rows + [f];
    assert more[|rows|] == f;
    if Started(rows, a) { var i :| 0 <= i < |rows| && Opens(rows[i], a); assert Opens(more[i], a); }
    if Ended(rows, a) { var i :| 0 <= i < |rows| && Closes(rows[i], a); assert Closes(more[i], a); }
    if Misnamed(rows, a) { var i :| 0 <= i < |rows| && Claims(rows[i], a); assert Claims(more[i], a); }
  }

  lemma SortingStep(rows: seq<Filing>, i: nat, starts: set<Str>, terminals: set<Str>, invalid: set<Str>)
    requires i < |rows| && Sorting(rows[..i], starts, terminals, invalid)
    ensures var f := rows[i];
      Sorting(rows[..i + 1], if f.kind.Opening? then starts + {f.attempt} else starts,
              if f.kind.Closing? && ValidOutcome(f.outcome) then terminals + {f.attempt} else terminals,
              if f.kind.Closing? && !ValidOutcome(f.outcome) then invalid + {f.attempt} else invalid)
  {
    assert rows[..i + 1] == rows[..i] + [rows[i]];
    forall a
      ensures Started(rows[..i + 1], a) <==> Started(rows[..i], a) || Opens(rows[i], a)
      ensures Ended(rows[..i + 1], a) <==> Ended(rows[..i], a) || Closes(rows[i], a)
      ensures Misnamed(rows[..i + 1], a) <==> Misnamed(rows[..i], a) || Claims(rows[i], a)
    {
      OneMore(rows[..i], rows[i], a);
    }
  }

  lemma EmptyExactly(rows: seq<Filing>, starts: set<Str>, terminals: set<Str>, invalid: set<Str>)
    requires Sorting(rows, starts, terminals, invalid)
    ensures rows == [] <==> starts == {} && terminals == {} && invalid == {}
  {
    if rows != [] {
      var a := rows[0].attempt;
      assert Opens(rows[0], a) || Closes(rows[0], a) || Claims(rows[0], a);
      assert a in starts || a in terminals || a in invalid;
    }
  }

  lemma NoneListed(ids: seq<Str>, all: set<Str>)
    requires Lists(ids, all)
    ensures |ids| == 0 <==> all == {}
  {
    if |ids| > 0 { assert ids[0] in ids; }
  }

  lemma Judged(rows: seq<Filing>, starts: set<Str>, terminals: set<Str>, invalid: set<Str>)
    requires Sorting(rows, starts, terminals, invalid)
    ensures starts - terminals == {} && terminals - starts == {} && invalid == {} <==>
            forall a :: (Started(rows, a) <==> Ended(rows, a)) && !Misnamed(rows, a)
  {
    if starts - terminals == {} && terminals - starts == {} && invalid == {} {
      forall a ensures (Started(rows, a) <==> Ended(rows, a)) && !Misnamed(rows, a) {
        assert a !in starts - terminals && a !in terminals - starts && a !in invalid;
      }
    }
  }

  // ----- what it says of a table the writers made -----

  function FilingOf(c: Content): Filing
    requires AttemptOf(c).Some?
  {
    Filing(if c.class_.Start? then Opening else Closing, AttemptOf(c).value, OutcomeOf(c))
  }

  /** The rows of the two classes, as a reader of the whole table takes them. */
  function Filings(rows: seq<Row>): seq<Filing> {
    if rows == [] then []
    else
      var n := |rows| - 1;
      Filings(rows[..n]) + if AttemptOf(rows[n].content).Some? then [FilingOf(rows[n].content)] else []
  }

  lemma {:induction false} FilingsTell(rows: seq<Row>, a: Str)
    ensures Started(Filings(rows), a) <==> IsIn(rows, Start, a)
    ensures Ended(Filings(rows), a) || Misnamed(Filings(rows), a) <==> IsIn(rows, PromotionAttempt, a)
    ensures NoneUnopened(rows) ==> !Misnamed(Filings(rows), a)
  {
    if rows != [] {
      var n := |rows| - 1;
      var row := rows[n];
      assert rows == rows[..n] + [row];
      FilingsTell(rows[..n], a);
      IsInGrows(rows[..n], row, Start, a);
      IsInGrows(rows[..n], row, PromotionAttempt, a);
      if AttemptOf(row.content).Some? {
        OneMore(Filings(rows[..n]), FilingOf(row.content), a);
      } else {
        assert Filings(rows) == Filings(rows[..n]);
      }
      if NoneUnopened(rows) {
        UnopenedPrefix(rows, n);
        assert Opened(rows, n);
      }
    }
  }

  lemma UnopenedPrefix(rows: seq<Row>, n: nat)
    requires NoneUnopened(rows) && n <= |rows|
    ensures NoneUnopened(rows[..n])
  {
    forall j | 0 <= j < n ensures Opened(rows[..n], j) {
      assert Opened(rows, j);
      assert rows[..n][..j] == rows[..j];
    }
  }

  lemma ClosedWasOpened(rows: seq<Row>, a: Str)
    requires NoneUnopened(rows) && IsIn(rows, PromotionAttempt, a)
    ensures IsIn(rows, Start, a)
  {
    var j :| 0 <= j < |rows| && IsOf(rows[j], PromotionAttempt, a);
    assert Opened(rows, j);
    var i :| 0 <= i < j && IsOf(rows[..j][i], Start, a);
    assert IsOf(rows[i], Start, a);
  }

  /** Over every table the writers can leave, nothing is orphaned or misnamed and the dangling attempts
      are exactly those with one row. So the verdict is green only when every filed attempt has both. */
  lemma ReconciliationIsExact(steps: seq<Attempts.Step>, a: Str)
    ensures var rows := Attempts.Reach(steps).rows; var f := Filings(rows);
      && !Misnamed(f, a)
      && (Ended(f, a) ==> Started(f, a))
      && (Started(f, a) && !Ended(f, a) <==> IsIn(rows, Start, a) && !IsIn(rows, PromotionAttempt, a))
      && (f == [] <==> forall b :: !IsIn(rows, Start, b))
  {
    var rows := Attempts.Reach(steps).rows;
    EveryRunIsSafe(steps);
    FilingsTell(rows, a);
    if IsIn(rows, PromotionAttempt, a) { ClosedWasOpened(rows, a); }
    NothingFiledExactly(rows);
  }

  lemma NothingFiledExactly(rows: seq<Row>)
    requires NoneUnopened(rows)
    ensures Filings(rows) == [] <==> forall b :: !IsIn(rows, Start, b)
  {
    var f := Filings(rows);
    if f == [] {
      forall b ensures !IsIn(rows, Start, b) { FilingsTell(rows, b); }
    } else {
      var b := f[0].attempt;
      assert Opens(f[0], b) || Closes(f[0], b) || Claims(f[0], b);
      FilingsTell(rows, b);
      if !IsIn(rows, Start, b) { ClosedWasOpened(rows, b); }
    }
  }
}
