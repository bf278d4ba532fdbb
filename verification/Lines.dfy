/**
 The lines a head record is shown as: to the engineer's retry, to a person
 reading a halt, and on the terminal and the pull request. A line is a value
 holding the fields its text depends on; the wording is not modelled.

 Source: kstrl/acceptance/acceptance_lines.py.
 */
module Lines {
  import opened Checks
  import opened HeadRecord

  datatype Said = PassedOf(passed: nat, runs: nat) | FailedOf(passed: nat, runs: nat) | DidNotRun(exits: seq<Exit>)

  datatype Line =
    | Header(component: string, attempt: nat, plan: string, head: string, base: string, isolation: string)
    | DesignedLine
    | EngineerLine(sandbox: string)
    | ReplayStopped(error: string, detail: Detail)
    | RowLine(id: string, heldOut: bool, said: Said, baseExit: Exit)
    | Criterion(text: string)
    | Command(argv: seq<string>)
    | Output(text: string)
    | DisputedLine(id: string, cause: string)
    | DesignedStopLine
    | Named(id: string)
    | RejectedLine(rejection: Rejection)
    | MergedOver(failing: seq<string>, item: string, who: string, when: string)
    | NothingRan(component: string, reason: string)

  /** An approved acceptance halt: the commit it was taken on and the checks it names. */
  datatype Override = Override(item: string, who: string, when: string, headSha: string, named: set<string>)

  datatype Document = Document(
    record: Record, override: Option<Override>, visibleFailures: seq<VisibleFailure>, dispute: Disputes,
    sandbox: string)

  const HOST_LABEL := "host"

  function Prefix(s: string, n: nat): string {
    if |s| <= n then s else s[..n]
  }

  function Zeros(exits: seq<Exit>): nat {
    if exits == [] then 0
    else Zeros(exits[..|exits| - 1]) + if exits[|exits| - 1] == Some(0) then 1 else 0
  }

  function ShownRow(row: Row, runs: nat): Line {
    RowLine(row.id, row.heldOut,
            match row.verdict
            case Pass => PassedOf(Zeros(row.headExits), runs)
            case Fail => FailedOf(Zeros(row.headExits), runs)
            case NotRun => DidNotRun(row.headExits),
            row.baseExit)
  }

  function Outputs(tail: seq<string>): (lines: seq<Line>)
    ensures |lines| == |tail| && forall i | 0 <= i < |tail| :: lines[i] == Output(tail[i])
  {
    seq(|tail|, i requires 0 <= i < |tail| => Output(tail[i]))
  }

  function Shown(entry: VisibleFailure): seq<Line> {
    [Command(entry.argv)] + Outputs(entry.tail)
  }

  /** The entry an id names among the visible failures; the last one wins. */
  function ShownById(shown: seq<VisibleFailure>, id: string): (found: Option<VisibleFailure>)
    ensures found.Some? <==> exists entry | entry in shown :: entry.id == id
    ensures found.Some? ==> found.value in shown && found.value.id == id
  {
    if shown == [] then None
    else
      var init, last := shown[..|shown| - 1], shown[|shown| - 1];
      assert shown == init + [last];
      if last.id == id then
        assert last in shown;
        Some(last)
      else ShownById(init, id)
  }

  function RejectedLines(rejected: seq<Rejection>): (lines: seq<Line>)
    ensures |lines| == |rejected| && forall i | 0 <= i < |rejected| :: lines[i] == RejectedLine(rejected[i])
  {
    seq(|rejected|, i requires 0 <= i < |rejected| => RejectedLine(rejected[i]))
  }

  // --- What a retry tells the engineer -------------------------------------

  function VisibleById(checks: seq<Check>, id: string): Option<Check> {
    ById(Visible(checks), id)
  }

  function Visible(checks: seq<Check>): (visible: seq<Check>)
    ensures forall c :: c in visible <==> c in checks && !c.heldOut
  {
    if checks == [] then []
    else
      var init, last := checks[..|checks| - 1], checks[|checks| - 1];
      assert checks == init + [last];
      Visible(init) + if last.heldOut then [] else [last]
  }

  /** Every failing row of a visible check has its output on record, so no
      lookup of `told_lines` fails. */
  predicate CanTell(document: Document, checks: seq<Check>) {
    forall i | 0 <= i < |document.record.rows| :: CanTellRow(document.record.rows[i], checks, document.visibleFailures)
  }

  predicate CanTellRow(row: Row, checks: seq<Check>, shown: seq<VisibleFailure>) {
    row.verdict != Pass && VisibleById(checks, row.id).Some? ==> ShownById(shown, row.id).Some?
  }

  /** What one row adds. A held-out check is its row line alone. */
  function ToldRow(row: Row, runs: nat, checks: seq<Check>, shown: seq<VisibleFailure>): seq<Line> {
    if row.verdict == Pass then []
    else
      [ShownRow(row, runs)] +
      match VisibleById(checks, row.id)
      case None => []
      case Some(check) =>
        [Criterion(check.criterion), Command(check.argv)] + Outputs(TailShown(shown, row.id))
  }

  function TailShown(shown: seq<VisibleFailure>, id: string): seq<string> {
    match ShownById(shown, id)
    case None => []
    case Some(entry) => entry.tail
  }

  function ToldRows(rows: seq<Row>, runs: nat, checks: seq<Check>, shown: seq<VisibleFailure>): seq<Line> {
    if rows == [] then []
    else ToldRows(rows[..|rows| - 1], runs, checks, shown) + ToldRow(rows[|rows| - 1], runs, checks, shown)
  }

  function ToldOpening(replay: ReplayRecord): seq<Line> {
    if replay.failed.Some? then [ReplayStopped("", replay.detail)] else []
  }

  function ToldLines(document: Document, checks: seq<Check>): seq<Line> {
    ToldOpening(document.record.replay) +
    ToldRows(document.record.rows, document.record.headRuns, checks, document.visibleFailures) +
    RejectedLines(document.dispute.rejected)
  }

  method TellRow(row: Row, runs: nat, checks: seq<Check>, shown: seq<VisibleFailure>) returns (told: seq<Line>)
    requires CanTellRow(row, checks, shown)
    ensures told == ToldRow(row, runs, checks, shown)
  {
    if row.verdict == Pass { return []; }
    told := [ShownRow(row, runs)];
    var check := VisibleById(checks, row.id);
    if check.Some? {
      told := told + ([Criterion(check.value.criterion), Command(check.value.argv)] +
                      Outputs(ShownById(shown, row.id).value.tail));
    }
  }

  lemma ToldMore(rows: seq<Row>, runs: nat, checks: seq<Check>, shown: seq<VisibleFailure>, i: nat)
    requires i < |rows|
    ensures ToldRows(rows[..i + 1], runs, checks, shown) ==
            ToldRows(rows[..i], runs, checks, shown) + ToldRow(rows[i], runs, checks, shown)
  {
    assert rows[..i + 1][..i] == rows[..i];
  }

  method Tell(document: Document, checks: seq<Check>) returns (told: seq<Line>)
    requires CanTell(document, checks)
    ensures told == ToldLines(document, checks)
  {
    var rows, runs, shown := document.record.rows, document.record.headRuns, document.visibleFailures;
    var lines: seq<Line> := [];
    for i := 0 to |rows|
      invariant lines == ToldRows(rows[..i], runs, checks, shown)
    {
      ToldMore(rows, runs, checks, shown, i);
      assert CanTellRow(rows[i], checks, shown);
      var more := TellRow(rows[i], runs, checks, shown);
      lines := lines + more;
    }
    assert rows[..|rows|] == rows;
    told := ToldOpening(document.record.replay) + lines + RejectedLines(document.dispute.rejected);
  }

  // --- What a halt says after its cause ------------------------------------

  /** Every accepted dispute has its check among the visible failures. */
  predicate CanStop(document: Document) {
    forall d | d in document.dispute.accepted :: ShownById(document.visibleFailures, d.id).Some?
  }

  function DisputeBlock(accepted: seq<Dispute>, shown: seq<VisibleFailure>): seq<Line> {
    if accepted == [] then []
    else DisputeBlock(accepted[..|accepted| - 1], shown) + DisputeLinesOf(accepted[|accepted| - 1], shown)
  }

  function DisputeLinesOf(dispute: Dispute, shown: seq<VisibleFailure>): seq<Line> {
    [DisputedLine(dispute.id, dispute.cause)] +
    match ShownById(shown, dispute.id)
    case None => []
    case Some(entry) => Shown(entry)
  }

  predicate IsDisputed(accepted: seq<Dispute>, id: string) {
    exists d | d in accepted :: d.id == id
  }

  /** The visible failures nobody disputes, each with its command and output. */
  function OtherFailures(shown: seq<VisibleFailure>, accepted: seq<Dispute>): seq<Line> {
    if shown == [] then []
    else
      var last := shown[|shown| - 1];
      OtherFailures(shown[..|shown| - 1], accepted) +
      if IsDisputed(accepted, last.id) then [] else [Named(last.id)] + Shown(last)
  }

  function StopLines(document: Document): seq<Line> {
    DisputeBlock(document.dispute.accepted, document.visibleFailures) +
    if document.record.designed && Failing(document.record.rows) != []
    then [DesignedStopLine] + OtherFailures(document.visibleFailures, document.dispute.accepted)
    else []
  }

  method Stop(document: Document) returns (lines: seq<Line>)
    requires CanStop(document)
    ensures lines == StopLines(document)
  {
    lines := ListDisputes(document);
    var failed := exists r | r in document.record.rows :: r.verdict != Pass;
    FailingEmptyIff(document.record.rows);
    if document.record.designed && failed {
      var others := ListOthers(document.visibleFailures, document.dispute.accepted);
      lines := lines + ([DesignedStopLine] + others);
    }
  }

  method ListDisputes(document: Document) returns (lines: seq<Line>)
    requires CanStop(document)
    ensures lines == DisputeBlock(document.dispute.accepted, document.visibleFailures)
  {
    var shown, accepted := document.visibleFailures, document.dispute.accepted;
    lines := [];
    for i := 0 to |accepted|
      invariant lines == DisputeBlock(accepted[..i], shown)
    {
      BlockMore(accepted, shown, i);
      assert accepted[i] in document.dispute.accepted;
      var entry := ShownById(shown, accepted[i].id).value;
      lines := lines + ([DisputedLine(accepted[i].id, accepted[i].cause)] + Shown(entry));
    }
    assert accepted[..|accepted|] == accepted;
  }

  lemma BlockMore(accepted: seq<Dispute>, shown: seq<VisibleFailure>, i: nat)
    requires i < |accepted|
    ensures DisputeBlock(accepted[..i + 1], shown) ==
            DisputeBlock(accepted[..i], shown) + DisputeLinesOf(accepted[i], shown)
  {
    assert accepted[..i + 1][..i] == accepted[..i];
  }

  method ListOthers(shown: seq<VisibleFailure>, accepted: seq<Dispute>) returns (lines: seq<Line>)
    ensures lines == OtherFailures(shown, accepted)
  {
    lines := [];
    for i := 0 to |shown|
      invariant lines == OtherFailures(shown[..i], accepted)
    {
      assert shown[..i + 1][..i] == shown[..i];
      lines := lines + if IsDisputed(accepted, shown[i].id) then [] else [Named(shown[i].id)] + Shown(shown[i]);
    }
    assert shown[..|shown|] == shown;
  }

  lemma FailingEmptyIff(rows: seq<Row>)
    ensures Failing(rows) == [] <==> forall r | r in rows :: r.verdict == Pass
  {
    if Failing(rows) != [] {
      assert Failing(rows)[0] in Failing(rows);
    } else {
      assert forall r | r in rows && r.verdict != Pass :: r.id in Failing(rows);
    }
  }

  // --- The record, on the terminal and in the pull request ------------------

  function ShownRows(rows: seq<Row>, runs: nat): (lines: seq<Line>)
    ensures |lines| == |rows| && forall i | 0 <= i < |rows| :: lines[i] == ShownRow(rows[i], runs)
  {
    seq(|rows|, i requires 0 <= i < |rows| => ShownRow(rows[i], runs))
  }

  function Isolation(replay: ReplayRecord): string {
    if "test" in replay.isolation then replay.isolation["test"] else HOST_LABEL
  }

  function StoppedWhy(replay: ReplayRecord): seq<Line> {
    if replay.error != "" then [ReplayStopped(replay.error, NoDetail)]
    else if replay.failed.Some? then [ReplayStopped("", replay.detail)]
    else []
  }

  function OverrideLine(document: Document): seq<Line> {
    match document.override
    case None => []
    case Some(o) => [MergedOver(Failing(document.record.rows), Prefix(o.item, 8), o.who, o.when)]
  }

  function RenderLines(document: Document): seq<Line> {
    var record := document.record;
    [Header(record.component, record.attempt, Prefix(record.planId, 12), Prefix(record.headSha, 12), record.base,
            Isolation(record.replay))] +
    (if record.designed then [DesignedLine] else []) +
    [EngineerLine(document.sandbox)] +
    StoppedWhy(record.replay) +
    ShownRows(record.rows, record.headRuns) +
    StopLines(document) +
    RejectedLines(document.dispute.rejected) +
    OverrideLine(document)
  }

  method Render(document: Document) returns (lines: seq<Line>)
    requires CanStop(document)
    ensures lines == RenderLines(document)
  {
    var record := document.record;
    lines := [Header(record.component, record.attempt, Prefix(record.planId, 12), Prefix(record.headSha, 12),
                     record.base, Isolation(record.replay))];
    lines := lines + (if record.designed then [DesignedLine] else []);
    lines := lines + [EngineerLine(document.sandbox)];
    lines := lines + StoppedWhy(record.replay);
    lines := lines + ShownRows(record.rows, record.headRuns);
    var stop := Stop(document);
    lines := lines + stop;
    lines := lines + RejectedLines(document.dispute.rejected);
    lines := lines + OverrideLine(document);
  }

  // --- A halt with no retry -------------------------------------------------

  datatype Cause = HeldOutFailed(ids: seq<string>) | Disputed(ids: seq<string>) | WholeRecord(lines: seq<Line>)
  datatype Halt = Halt(cause: Cause, head: string, component: string, stopped: seq<Line>)

  function HaltText(heldOut: seq<string>, disputed: seq<string>, lines: seq<Line>, stopped: seq<Line>,
                    head: string, comp: string): (halt: Halt)
    ensures heldOut != [] ==> halt.cause == HeldOutFailed(heldOut) && halt.stopped == stopped
    ensures halt.cause.Disputed? ==> heldOut == []
  {
    if heldOut != [] then Halt(HeldOutFailed(heldOut), Prefix(head, 12), comp, stopped)
    else if disputed != [] then Halt(Disputed(disputed), Prefix(head, 12), comp, stopped)
    else Halt(WholeRecord(lines), Prefix(head, 12), comp, [])
  }

  /** Everything a halt shows. */
  function HaltLines(halt: Halt): seq<Line> {
    (if halt.cause.WholeRecord? then halt.cause.lines else []) + halt.stopped
  }

  // --- What the lines promise ------------------------------------------------

  /** Each accepted dispute is named, with its cause and its check's command. */
  lemma {:induction false} DisputeIsNamed(accepted: seq<Dispute>, shown: seq<VisibleFailure>, d: Dispute)
    requires d in accepted
    ensures DisputedLine(d.id, d.cause) in DisputeBlock(accepted, shown)
    ensures ShownById(shown, d.id).Some? ==> Command(ShownById(shown, d.id).value.argv) in DisputeBlock(accepted, shown)
  {
    var init, last := accepted[..|accepted| - 1], accepted[|accepted| - 1];
    assert accepted == init + [last];
    if d == last {
      var added := DisputeLinesOf(d, shown);
      assert added[0] == DisputedLine(d.id, d.cause);
      assert ShownById(shown, d.id).Some? ==> added[1] == Command(ShownById(shown, d.id).value.argv);
    } else {
      DisputeIsNamed(init, shown, d);
    }
  }

  /** The stop lines are a contiguous part of what the terminal and the pull
      request show. */
  lemma StopLinesInsideRender(document: Document) returns (before: seq<Line>, after: seq<Line>)
    ensures RenderLines(document) == before + StopLines(document) + after
    ensures forall line | line in before || line in after :: !FromACheck(line)
  {
    var record := document.record;
    before := [Header(record.component, record.attempt, Prefix(record.planId, 12), Prefix(record.headSha, 12),
                      record.base, Isolation(record.replay))] +
              (if record.designed then [DesignedLine] else []) +
              [EngineerLine(document.sandbox)] +
              StoppedWhy(record.replay) +
              ShownRows(record.rows, record.headRuns);
    after := RejectedLines(document.dispute.rejected) + OverrideLine(document);
  }

  /** `line` is the command or a line of output of a visible failure. */
  predicate ShowsOne(line: Line, shown: seq<VisibleFailure>) {
    exists v | v in shown :: line in Shown(v)
  }

  /** A line that a halt or a record takes from a check: its command or what
      it printed. */
  predicate FromACheck(line: Line) { line.Command? || line.Output? }

  lemma {:induction false} BlockShowsOnly(accepted: seq<Dispute>, shown: seq<VisibleFailure>, line: Line)
    requires FromACheck(line) && line in DisputeBlock(accepted, shown)
    ensures ShowsOne(line, shown)
  {
    var init, last := accepted[..|accepted| - 1], accepted[|accepted| - 1];
    if line in DisputeBlock(init, shown) {
      BlockShowsOnly(init, shown, line);
    } else {
      assert line in DisputeLinesOf(last, shown);
    }
  }

  lemma {:induction false} OthersShowOnly(shown: seq<VisibleFailure>, accepted: seq<Dispute>, line: Line)
    requires FromACheck(line) && line in OtherFailures(shown, accepted)
    ensures ShowsOne(line, shown)
  {
    var init, last := shown[..|shown| - 1], shown[|shown| - 1];
    assert shown == init + [last];
    if line in OtherFailures(init, accepted) {
      OthersShowOnly(init, accepted, line);
    } else {
      assert last in shown && line in Shown(last);
    }
  }

  /** Every command and every line of output that the record, the terminal or
      the pull request shows is that of a visible failure. */
  lemma RenderShowsOnlyVisible(document: Document, line: Line)
    requires FromACheck(line) && line in RenderLines(document)
    ensures line in StopLines(document) && ShowsOne(line, document.visibleFailures)
  {
    var before, after := StopLinesInsideRender(document);
    assert line in StopLines(document);
    if line in DisputeBlock(document.dispute.accepted, document.visibleFailures) {
      BlockShowsOnly(document.dispute.accepted, document.visibleFailures, line);
    } else {
      OthersShowOnly(document.visibleFailures, document.dispute.accepted, line);
    }
  }
}
