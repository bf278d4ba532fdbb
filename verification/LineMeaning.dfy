/**
 Exactly which lines each reader of a head record is given, in terms of the
 record's fields.

 Source: kstrl/acceptance/acceptance_lines.py.
 */
module LineMeaning {
  import opened Checks
  import opened HeadRecord
  import opened Lines

  /** How many of the runs exited 0. */
  lemma {:induction false} ZerosCounts(exits: seq<Exit>)
    ensures Zeros(exits) == multiset(exits)[Some(0)]
  {
    if exits != [] {
      ZerosCounts(exits[..|exits| - 1]);
      assert exits == exits[..|exits| - 1] + [exits[|exits| - 1]];
    }
  }

  /** A row's line: its id, whether it is held out, its base exit, and how many
      runs passed or what each gave when it did not run. */
  lemma ShownRowSays(row: Row, runs: nat)
    ensures ShownRow(row, runs) ==
            RowLine(row.id, row.heldOut,
                    if row.verdict == Pass then PassedOf(multiset(row.headExits)[Some(0)], runs)
                    else if row.verdict == Fail then FailedOf(multiset(row.headExits)[Some(0)], runs)
                    else DidNotRun(row.headExits),
                    row.baseExit)
  {
    ZerosCounts(row.headExits);
  }

  // --- The retry --------------------------------------------------------------

  /** What a failing row adds to a retry. */
  ghost predicate RowTells(row: Row, runs: nat, checks: seq<Check>, shown: seq<VisibleFailure>, line: Line) {
    && row.verdict != Pass
    && (|| line == ShownRow(row, runs)
        || exists c | c in checks ::
             && !c.heldOut && c.id == row.id
             && (|| line == Criterion(c.criterion) || line == Command(c.argv)
                 || exists v | v in shown :: v.id == row.id && line.Output? && line.text in v.tail))
  }

  predicate DistinctShown(shown: seq<VisibleFailure>) {
    forall i, j | 0 <= i < j < |shown| :: shown[i].id != shown[j].id
  }

  lemma VisibleByIdIs(checks: seq<Check>, c: Check)
    requires DistinctIds(checks) && c in checks && !c.heldOut
    ensures VisibleById(checks, c.id) == Some(c)
  {
    assert c in Visible(checks);
    var found := ById(Visible(checks), c.id);
    SameIdSameCheck(checks, found.value, c);
  }

  lemma ShownByIdIs(shown: seq<VisibleFailure>, v: VisibleFailure)
    requires DistinctShown(shown) && v in shown
    ensures ShownById(shown, v.id) == Some(v)
  {
    var found := ShownById(shown, v.id).value;
    var i :| 0 <= i < |shown| && shown[i] == v;
    var j :| 0 <= j < |shown| && shown[j] == found;
    assert i == j;
  }

  lemma OutputsHold(tail: seq<string>, line: Line)
    ensures line in Outputs(tail) <==> line.Output? && line.text in tail
  {
    if line.Output? && line.text in tail {
      var i :| 0 <= i < |tail| && tail[i] == line.text;
      assert Outputs(tail)[i] == line;
    }
  }

  lemma {:induction false} ToldRowExactly(
    row: Row, runs: nat, checks: seq<Check>, shown: seq<VisibleFailure>, line: Line)
    requires DistinctIds(checks) && DistinctShown(shown)
    ensures line in ToldRow(row, runs, checks, shown) <==> RowTells(row, runs, checks, shown, line)
  {
    var found := VisibleById(checks, row.id);
    OutputsHold(TailShown(shown, row.id), line);
    forall c | c in checks && !c.heldOut && c.id == row.id ensures found == Some(c) { VisibleByIdIs(checks, c); }
    forall v | v in shown && v.id == row.id ensures TailShown(shown, row.id) == v.tail { ShownByIdIs(shown, v); }
    if found.Some? { assert found.value in Visible(checks); }
    if ShownById(shown, row.id).Some? { assert ShownById(shown, row.id).value in shown; }
  }

  lemma {:induction false} ToldRowsExactly(
    rows: seq<Row>, runs: nat, checks: seq<Check>, shown: seq<VisibleFailure>, line: Line)
    requires DistinctIds(checks) && DistinctShown(shown)
    ensures line in ToldRows(rows, runs, checks, shown) <==>
            exists row | row in rows :: RowTells(row, runs, checks, shown, line)
  {
    if rows != [] {
      var init, last := rows[..|rows| - 1], rows[|rows| - 1];
      assert rows == init + [last];
      ToldRowsExactly(init, runs, checks, shown, line);
      ToldRowExactly(last, runs, checks, shown, line);
    }
  }

  lemma RejectedExactly(rejected: seq<Rejection>, line: Line)
    ensures line in RejectedLines(rejected) <==> line.RejectedLine? && line.rejection in rejected
  {
    if line.RejectedLine? && line.rejection in rejected {
      var i :| 0 <= i < |rejected| && rejected[i] == line.rejection;
      assert RejectedLines(rejected)[i] == line;
    }
  }

  /** What a retry tells: where the replay stopped, what each failing row adds,
      and each rejected dispute; nothing else. */
  lemma ToldExactly(document: Document, checks: seq<Check>, line: Line)
    requires DistinctIds(checks) && DistinctShown(document.visibleFailures)
    ensures line in ToldLines(document, checks) <==>
            || (document.record.replay.failed != None && line == ReplayStopped("", document.record.replay.detail))
            || (exists row | row in document.record.rows ::
                  RowTells(row, document.record.headRuns, checks, document.visibleFailures, line))
            || (line.RejectedLine? && line.rejection in document.dispute.rejected)
  {
    ToldRowsExactly(document.record.rows, document.record.headRuns, checks, document.visibleFailures, line);
    RejectedExactly(document.dispute.rejected, line);
  }

  // --- The halt -----------------------------------------------------------------

  /** The command or a line of output of one visible failure. */
  predicate IsOf(line: Line, v: VisibleFailure) {
    line == Command(v.argv) || (line.Output? && line.text in v.tail)
  }

  lemma ShownExactly(v: VisibleFailure, line: Line)
    ensures line in Shown(v) <==> IsOf(line, v)
  {
    OutputsHold(v.tail, line);
  }

  lemma {:induction false} BlockExactly(accepted: seq<Dispute>, shown: seq<VisibleFailure>, line: Line)
    requires DistinctShown(shown)
    ensures line in DisputeBlock(accepted, shown) <==>
            exists d | d in accepted ::
              line == DisputedLine(d.id, d.cause) || exists v | v in shown :: v.id == d.id && IsOf(line, v)
  {
    if accepted != [] {
      var init, last := accepted[..|accepted| - 1], accepted[|accepted| - 1];
      assert accepted == init + [last];
      BlockExactly(init, shown, line);
      DisputeLinesExactly(last, shown, line);
    }
  }

  lemma DisputeLinesExactly(d: Dispute, shown: seq<VisibleFailure>, line: Line)
    requires DistinctShown(shown)
    ensures line in DisputeLinesOf(d, shown) <==>
            line == DisputedLine(d.id, d.cause) || exists v | v in shown :: v.id == d.id && IsOf(line, v)
  {
    forall v | v in shown && v.id == d.id ensures ShownById(shown, d.id) == Some(v) { ShownByIdIs(shown, v); }
    var found := ShownById(shown, d.id);
    if found.Some? {
      assert found.value in shown;
      ShownExactly(found.value, line);
    }
  }

  lemma {:induction false} OthersExactly(shown: seq<VisibleFailure>, accepted: seq<Dispute>, line: Line)
    ensures line in OtherFailures(shown, accepted) <==>
            exists v | v in shown ::
              (forall d | d in accepted :: d.id != v.id) && (line == Named(v.id) || IsOf(line, v))
  {
    if shown != [] {
      var init, last := shown[..|shown| - 1], shown[|shown| - 1];
      assert shown == init + [last];
      OthersExactly(init, accepted, line);
      ShownExactly(last, line);
      assert forall v :: v in shown <==> v in init || v == last;
    }
  }

  /** What a halt adds: each accepted dispute with its check's command and
      output, and for a designed plan with a failing check the designer's line
      and each visible failure nobody disputes; nothing else. */
  lemma StopExactly(document: Document, line: Line)
    requires DistinctShown(document.visibleFailures)
    ensures line in StopLines(document) <==>
            || (exists d | d in document.dispute.accepted ::
                  line == DisputedLine(d.id, d.cause) ||
                  exists v | v in document.visibleFailures :: v.id == d.id && IsOf(line, v))
            || (&& document.record.designed && (exists row | row in document.record.rows :: row.verdict != Pass)
                && (line == DesignedStopLine ||
                    exists v | v in document.visibleFailures ::
                      (forall d | d in document.dispute.accepted :: d.id != v.id) &&
                      (line == Named(v.id) || IsOf(line, v))))
  {
    BlockExactly(document.dispute.accepted, document.visibleFailures, line);
    OthersExactly(document.visibleFailures, document.dispute.accepted, line);
    FailingEmptyIff(document.record.rows);
  }

  // --- The terminal and the pull request -------------------------------------------

  lemma RowLinesExactly(rows: seq<Row>, runs: nat, line: Line)
    ensures line in ShownRows(rows, runs) <==> exists row | row in rows :: line == ShownRow(row, runs)
  {
    if row :| row in rows && line == ShownRow(row, runs) {
      var i :| 0 <= i < |rows| && rows[i] == row;
      assert ShownRows(rows, runs)[i] == line;
    }
  }

  /** What the terminal and the pull request show beside the stop lines. */
  lemma RenderExactly(document: Document, line: Line)
    ensures var record := document.record;
            && RenderLines(document) != []
            && RenderLines(document)[0] ==
                 Header(record.component, record.attempt, Prefix(record.planId, 12), Prefix(record.headSha, 12),
                        record.base,
                        if "test" in record.replay.isolation then record.replay.isolation["test"] else "host")
            && (line in RenderLines(document) <==>
                || line == RenderLines(document)[0]
                || (record.designed && line == DesignedLine)
                || line == EngineerLine(document.sandbox)
                || (record.replay.error != "" && line == ReplayStopped(record.replay.error, NoDetail))
                || (record.replay.error == "" && record.replay.failed != None &&
                    line == ReplayStopped("", record.replay.detail))
                || (exists row | row in record.rows :: line == ShownRow(row, record.headRuns))
                || line in StopLines(document)
                || (line.RejectedLine? && line.rejection in document.dispute.rejected)
                || (document.override.Some? &&
                    line == MergedOver(Failing(record.rows), Prefix(document.override.value.item, 8),
                                       document.override.value.who, document.override.value.when)))
  {
    RowLinesExactly(document.record.rows, document.record.headRuns, line);
    RejectedExactly(document.dispute.rejected, line);
  }

  // --- A head's own document meets the assumptions --------------------------------

  lemma {:induction false} VisibleFailuresAreDistinct(
    comp: string, checks: seq<Check>, failing: seq<string>, runs: Runs)
    requires DistinctIds(checks)
    ensures DistinctShown(VisibleFailures(comp, checks, failing, runs))
  {
    if checks != [] {
      var init, last := checks[..|checks| - 1], checks[|checks| - 1];
      VisibleFailuresAreDistinct(comp, init, failing, runs);
      forall v | v in VisibleFailures(comp, init, failing, runs) ensures v.id != last.id {
        VisibleFailuresExactly(comp, init, failing, runs, v);
        var c :| c in init && c.id == v.id;
        var i :| 0 <= i < |init| && init[i] == c;
        assert checks[i].id != checks[|checks| - 1].id;
      }
    }
  }
}
