/** A promotion attempt's two rows, filed by writers that may crash between them, lose an answer, run
    twice or run at once. */
module Attempts {
  import opened Utf16
  import opened Grammar
  import opened Chain
  import opened Ledger
  import opened Append

  const OUTCOME := Name("outcome")
  const OUTCOMES := {Name("PROMOTED"), Name("REJECTED"), Name("ABORTED")}

  function OutcomeOf(c: Content): Option<Str> {
    if OUTCOME in c.output && c.output[OUTCOME].String? then Some(c.output[OUTCOME].chars) else None
  }

  predicate ValidOutcome(outcome: Option<Str>) { outcome.Some? && outcome.value in OUTCOMES }

  // ----- the writer, step by step -----

  datatype Action = AlreadyFiled | Resumed | Filed

  /** Where `appendPromotionPair` stands between two of its statements. */
  datatype Stage = PreRead | NeedStart | NeedTerminal(resumed: bool) | ReRead | Done(action: Action) | Stopped

  datatype Process = Process(attempt: Str, org: Str, stage: Stage)

  datatype State = State(rows: seq<Row>, crews: map<nat, Process>)

  /** `answered` is false when the row is in the table and the writer was told otherwise. */
  datatype Step =
    | Begin(p: nat, attempt: Str, org: Str)
    | ReadPair(p: nat)
    | FileStart(p: nat, row: Row, answered: bool)
    | FileTerminal(p: nat, row: Row, answered: bool)
    | ReadAgain(p: nat)
    | Crash(p: nat)
    | Other(row: Row)

  predicate IsOf(r: Row, class_: Class, attempt: Str) {
    r.content.class_ == class_ && AttemptOf(r.content) == Some(attempt)
  }

  predicate IsIn(rows: seq<Row>, class_: Class, attempt: Str) {
    exists i :: 0 <= i < |rows| && IsOf(rows[i], class_, attempt)
  }

  /** What one tenant finds of an attempt. */
  predicate Found(rows: seq<Row>, org: Str, class_: Class, attempt: Str) {
    exists i :: 0 <= i < |rows| && rows[i].content.org == org && IsOf(rows[i], class_, attempt)
  }

  function Read(rows: seq<Row>, c: Process): Stage {
    if Found(rows, c.org, Start, c.attempt) then
      if Found(rows, c.org, PromotionAttempt, c.attempt) then Done(AlreadyFiled) else NeedTerminal(true)
    else NeedStart
  }

  function ReadAfterFailure(rows: seq<Row>, c: Process): Stage {
    if Found(rows, c.org, Start, c.attempt) && Found(rows, c.org, PromotionAttempt, c.attempt)
    then Done(AlreadyFiled) else Stopped
  }

  function AfterStart(rows: seq<Row>, row: Row, answered: bool): Stage {
    if Judge(rows, row).Accepted? && answered then NeedTerminal(false) else Stopped
  }

  function AfterTerminal(rows: seq<Row>, row: Row, answered: bool, resumed: bool): Stage {
    if Judge(rows, row).Accepted? && answered then Done(if resumed then Resumed else Filed) else ReRead
  }

  function At(s: State, p: nat): Stage { if p in s.crews then s.crews[p].stage else Stopped }

  function Move(s: State, p: nat, stage: Stage): State
    requires p in s.crews
  {
    s.(crews := s.crews[p := s.crews[p].(stage := stage)])
  }

  /** One step; a step the writer is not at, or a row it would not build, changes nothing. */
  function Do(s: State, step: Step): State {
    match step
    case Begin(p, attempt, org) => s.(crews := s.crews[p := Process(attempt, org, PreRead)])
    case ReadPair(p) => if At(s, p).PreRead? then Move(s, p, Read(s.rows, s.crews[p])) else s
    case FileStart(p, row, answered) =>
      if At(s, p).NeedStart? && IsOf(row, Start, s.crews[p].attempt)
      then Move(s, p, AfterStart(s.rows, row, answered)).(rows := Insert(s.rows, row)) else s
    case FileTerminal(p, row, answered) =>
      if At(s, p).NeedTerminal? && IsOf(row, PromotionAttempt, s.crews[p].attempt)
         && ValidOutcome(OutcomeOf(row.content))
      then Move(s, p, AfterTerminal(s.rows, row, answered, At(s, p).resumed)).(rows := Insert(s.rows, row)) else s
    case ReadAgain(p) => if At(s, p).ReRead? then Move(s, p, ReadAfterFailure(s.rows, s.crews[p])) else s
    case Crash(p) => if p in s.crews then Move(s, p, Stopped) else s
    case Other(row) => if AttemptOf(row.content).None? then s.(rows := Insert(s.rows, row)) else s
  }

  function Reach(steps: seq<Step>): State {
    if steps == [] then State([], map[]) else Do(Reach(steps[..|steps| - 1]), steps[|steps| - 1])
  }

  // ----- what every run keeps -----

  /** At most one start and at most one terminal of any attempt. */
  ghost predicate OneOfEach(rows: seq<Row>) {
    forall i, j :: 0 <= i < j < |rows| ==>
      rows[i].content.class_ == rows[j].content.class_ && AttemptOf(rows[i].content).Some? ==>
      AttemptOf(rows[i].content) != AttemptOf(rows[j].content)
  }

  /** Row `j`, if it closes an attempt, has that attempt's opening among the rows before it, and an
      outcome the panel knows. */
  ghost predicate Opened(rows: seq<Row>, j: nat)
    requires j < |rows|
  {
    var a := AttemptOf(rows[j].content);
    rows[j].content.class_.PromotionAttempt? && a.Some? ==>
      IsIn(rows[..j], Start, a.value) && ValidOutcome(OutcomeOf(rows[j].content))
  }

  ghost predicate NoneUnopened(rows: seq<Row>) {
    forall j {:trigger Opened(rows, j)} :: 0 <= j < |rows| ==> Opened(rows, j)
  }

  /** What a writer's stage already guarantees about the table. */
  ghost predicate Stands(rows: seq<Row>, c: Process) {
    && (c.stage.NeedTerminal? || c.stage.ReRead? || c.stage.Done? ==> IsIn(rows, Start, c.attempt))
    && (c.stage.Done? ==> IsIn(rows, PromotionAttempt, c.attempt))
  }

  ghost predicate Safe(s: State) {
    OneOfEach(s.rows) && NoneUnopened(s.rows) && forall p :: p in s.crews ==> Stands(s.rows, s.crews[p])
  }

  lemma FoundIsIn(rows: seq<Row>, org: Str, class_: Class, attempt: Str)
    ensures Found(rows, org, class_, attempt) ==> IsIn(rows, class_, attempt)
  {
  }

  lemma IsInGrows(rows: seq<Row>, row: Row, class_: Class, attempt: Str)
    ensures IsIn(rows + [row], class_, attempt) <==> IsIn(rows, class_, attempt) || IsOf(row, class_, attempt)
  {
    var more := rows + [row];
    assert more[|rows|] == row;
    if IsIn(rows, class_, attempt) {
      var i :| 0 <= i < |rows| && IsOf(rows[i], class_, attempt);
      assert IsOf(more[i], class_, attempt);
    }
  }

  lemma InsertKeepsStands(rows: seq<Row>, row: Row, c: Process)
    requires Stands(rows, c)
    ensures Stands(Insert(rows, row), c)
  {
    IsInGrows(rows, row, Start, c.attempt);
    IsInGrows(rows, row, PromotionAttempt, c.attempt);
  }

  lemma InsertKeepsOne(rows: seq<Row>, row: Row)
    requires OneOfEach(rows)
    ensures OneOfEach(Insert(rows, row))
  {
    if Judge(rows, row).Accepted? {
      assert forall i :: 0 <= i < |rows| ==> !Clash(rows[i], row);
    }
  }

  lemma InsertKeepsOpened(rows: seq<Row>, row: Row)
    requires NoneUnopened(rows)
    requires row.content.class_.PromotionAttempt? && AttemptOf(row.content).Some? ==>
               IsIn(rows, Start, AttemptOf(row.content).value) && ValidOutcome(OutcomeOf(row.content))
    ensures NoneUnopened(Insert(rows, row))
  {
    var more := rows + [row];
    forall j | 0 <= j < |more| ensures Opened(more, j) {
      if j < |rows| {
        assert Opened(rows, j);
        assert more[..j] == rows[..j];
      } else {
        assert more[..j] == rows;
      }
    }
  }

  lemma FilingKeepsSafe(s: State, p: nat, row: Row, stage: Stage)
    requires Safe(s) && p in s.crews
    requires row.content.class_.PromotionAttempt? && AttemptOf(row.content).Some? ==>
               IsIn(s.rows, Start, AttemptOf(row.content).value) && ValidOutcome(OutcomeOf(row.content))
    requires Stands(Insert(s.rows, row), s.crews[p].(stage := stage))
    ensures Safe(Move(s, p, stage).(rows := Insert(s.rows, row)))
  {
    var t := Move(s, p, stage).(rows := Insert(s.rows, row));
    InsertKeepsOne(s.rows, row);
    InsertKeepsOpened(s.rows, row);
    forall q | q in t.crews ensures Stands(t.rows, t.crews[q]) {
      if q != p { InsertKeepsStands(s.rows, row, s.crews[q]); }
    }
  }

  lemma StartStands(rows: seq<Row>, row: Row, answered: bool, c: Process)
    requires IsOf(row, Start, c.attempt)
    ensures Stands(Insert(rows, row), c.(stage := AfterStart(rows, row, answered)))
  {
    IsInGrows(rows, row, Start, c.attempt);
  }

  lemma TerminalStands(rows: seq<Row>, row: Row, answered: bool, c: Process)
    requires Stands(rows, c) && c.stage.NeedTerminal? && IsOf(row, PromotionAttempt, c.attempt)
    ensures Stands(Insert(rows, row), c.(stage := AfterTerminal(rows, row, answered, c.stage.resumed)))
  {
    IsInGrows(rows, row, Start, c.attempt);
    IsInGrows(rows, row, PromotionAttempt, c.attempt);
  }

  lemma StepKeepsSafe(s: State, step: Step)
    requires Safe(s)
    ensures Safe(Do(s, step))
  {
    match step {
      case FileStart(p, row, answered) =>
        if At(s, p).NeedStart? && IsOf(row, Start, s.crews[p].attempt) {
          StartStands(s.rows, row, answered, s.crews[p]);
          FilingKeepsSafe(s, p, row, AfterStart(s.rows, row, answered));
        }
      case FileTerminal(p, row, answered) =>
        if At(s, p).NeedTerminal? && IsOf(row, PromotionAttempt, s.crews[p].attempt)
           && ValidOutcome(OutcomeOf(row.content))
        {
          TerminalStands(s.rows, row, answered, s.crews[p]);
          FilingKeepsSafe(s, p, row, AfterTerminal(s.rows, row, answered, At(s, p).resumed));
        }
      case Other(row) =>
        if AttemptOf(row.content).None? {
          InsertKeepsOne(s.rows, row);
          InsertKeepsOpened(s.rows, row);
          forall q | q in s.crews ensures Stands(Insert(s.rows, row), s.crews[q]) {
            InsertKeepsStands(s.rows, row, s.crews[q]);
          }
        }
      case ReadPair(p) =>
        if At(s, p).PreRead? {
          FoundIsIn(s.rows, s.crews[p].org, Start, s.crews[p].attempt);
          FoundIsIn(s.rows, s.crews[p].org, PromotionAttempt, s.crews[p].attempt);
        }
      case ReadAgain(p) =>
        if At(s, p).ReRead? {
          FoundIsIn(s.rows, s.crews[p].org, Start, s.crews[p].attempt);
          FoundIsIn(s.rows, s.crews[p].org, PromotionAttempt, s.crews[p].attempt);
        }
      case _ =>
    }
  }

  /** Through any crashes, lost answers, re-runs and races: at most one start, at most one terminal,
      never a terminal without an earlier start, and whoever returns leaves both rows behind. */
  lemma {:induction false} EveryRunIsSafe(steps: seq<Step>)
    ensures Safe(Reach(steps))
  {
    if steps != [] {
      EveryRunIsSafe(steps[..|steps| - 1]);
      StepKeepsSafe(Reach(steps[..|steps| - 1]), steps[|steps| - 1]);
    }
  }

  /** The terminal a mandate files for an attempt. */
  predicate Terminates(d: Draft, run: Str, org: Str, attempt: Str) {
    var c := BuildRow(run, org, None, d);
    d.class_.PromotionAttempt? && IsComplete(c) && AttemptOf(c) == Some(attempt) && ValidOutcome(OutcomeOf(c))
  }

  lemma TerminalIsLegal(rows: seq<Row>, run: Str, org: Str, attempt: Str, d: Draft)
    requires Terminates(d, run, org, attempt) && !IsIn(rows, PromotionAttempt, attempt)
    ensures LegalDraft(rows, run, org, d)
  {
    forall r | r in rows && r.content.class_ == d.class_ ensures AttemptOf(r.content) != Some(attempt) {
      var i :| 0 <= i < |rows| && rows[i] == r;
      assert !IsOf(rows[i], PromotionAttempt, attempt);
    }
  }

  /** A crash between the rows is repaired by running the mandate again, with nobody else about, exactly
      when the run's head is the writer's own and no digest repeats: the re-run finds the start, files the
      terminal alone and returns. Otherwise it files nothing. */
  lemma RerunCompletesTheHalf(hash: Hashing, s: State, p: nat, attempt: Str, run: Str, org: Str, d: Draft)
    requires Linear(ChainOf(s.rows, run)) && Terminates(d, run, org, attempt)
    requires Found(s.rows, org, Start, attempt) && !IsIn(s.rows, PromotionAttempt, attempt)
    requires WellShaped(Propose(hash, run, org, LastBySeq(s.rows, run, Some(org)), d))
    ensures var row := Propose(hash, run, org, LastBySeq(s.rows, run, Some(org)), d);
      var t := Do(Do(Do(s, Begin(p, attempt, org)), ReadPair(p)), FileTerminal(p, row, true));
      && (At(t, p) == Done(Resumed) <==> !ForeignHead(s.rows, run, org) && !HeadTaken(s.rows, run))
      && t.rows == if At(t, p) == Done(Resumed) then s.rows + [row] else s.rows
  {
    var row := Propose(hash, run, org, LastBySeq(s.rows, run, Some(org)), d);
    FoundIsIn(s.rows, org, PromotionAttempt, attempt);
    TerminalIsLegal(s.rows, run, org, attempt, d);
    AloneAppendsExactlyOnOwnHead(hash, s.rows, run, org, d);
    assert IsOf(row, PromotionAttempt, attempt) && OutcomeOf(row.content) == OutcomeOf(BuildRow(run, org, None, d));
  }
}
