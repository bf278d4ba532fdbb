/**
 The record of one head run of a component's checks, the failures the
 engineer may see, and the engineer's disputes of them.

 Source: kstrl/acceptance/acceptance_record.py.
 */
module HeadRecord {
  import opened Checks
  import opened BaseScreening

  datatype Row = Row(
    id: string, sha256: string, heldOut: bool, baseExit: Exit, headExits: seq<Exit>, verdict: Verdict)

  datatype Record = Record(
    component: string, attempt: nat, planId: string, designed: bool, headSha: string,
    base: string, headRuns: nat, replay: ReplayRecord, rows: seq<Row>, removed: seq<string>)

  function RowOf(comp: string, check: Check, baseExit: Exit, runs: Runs): Row {
    var exits := Exits(StagesOf(runs, (comp, check.id)));
    Row(check.id, check.sha256, check.heldOut, baseExit, exits, HeadVerdict(exits))
  }

  function RowsOf(comp: string, checks: seq<Check>, exits: map<string, Exit>, runs: Runs): (rows: seq<Row>)
    requires CoversPart(exits, checks)
    ensures |rows| == |checks|
    ensures forall i | 0 <= i < |checks| :: rows[i] == RowOf(comp, checks[i], exits[checks[i].id], runs)
  {
    seq(|checks|, i requires 0 <= i < |checks| => RowOf(comp, checks[i], exits[checks[i].id], runs))
  }

  /** The ids of the planned checks that no head runs, in plan order. */
  function RemovedFrom(planned: seq<Check>, kept: seq<Check>): (ids: seq<string>)
    ensures forall id :: id in ids <==> exists c | c in planned :: c.id == id && c !in kept
  {
    if planned == [] then []
    else
      var init, last := planned[..|planned| - 1], planned[|planned| - 1];
      assert planned == init + [last];
      RemovedFrom(init, kept) + if last in kept then [] else [last.id]
  }

  predicate Readable(plan: PinnedPlan, base: BaseReading, comp: string) {
    && comp in base.kept && comp in plan.components && comp in base.exits
    && CoversPart(base.exits[comp], base.kept[comp].checks)
  }

  function RecordOf(
    plan: PinnedPlan, base: BaseReading, record: ReplayRecord, comp: string, headSha: string, attempt: nat,
    runs: Runs): Record
    requires Readable(plan, base, comp)
  {
    Record(comp, attempt, plan.digest, plan.designed, headSha,
           if comp in base.said then base.said[comp] else "", HEAD_RUNS, record,
           RowsOf(comp, base.kept[comp].checks, base.exits[comp], runs),
           RemovedFrom(plan.components[comp].checks, base.kept[comp].checks))
  }

  method BuildRecord(
    plan: PinnedPlan, base: BaseReading, record: ReplayRecord, comp: string, headSha: string, attempt: nat,
    runs: Runs) returns (document: Record)
    requires Readable(plan, base, comp)
    ensures document == RecordOf(plan, base, record, comp, headSha, attempt, runs)
  {
    var part := base.kept[comp];
    var rows: seq<Row> := [];
    for i := 0 to |part.checks|
      invariant |rows| == i
      invariant forall j | 0 <= j < i ::
                  rows[j] == RowOf(comp, part.checks[j], base.exits[comp][part.checks[j].id], runs)
    {
      var check := part.checks[i];
      var stages := StagesOf(runs, (comp, check.id));
      var exits := Exits(stages);
      rows := rows + [Row(check.id, check.sha256, check.heldOut, base.exits[comp][check.id], exits,
                          HeadVerdict(exits))];
    }
    assert rows == RowsOf(comp, part.checks, base.exits[comp], runs);
    document := Record(comp, attempt, plan.digest, plan.designed, headSha,
                       if comp in base.said then base.said[comp] else "", HEAD_RUNS, record, rows,
                       RemovedFrom(plan.components[comp].checks, part.checks));
  }

  /** The ids of the rows that did not pass, in order. */
  function Failing(rows: seq<Row>): (ids: seq<string>)
    ensures forall id :: id in ids <==> exists r | r in rows :: r.id == id && r.verdict != Pass
  {
    if rows == [] then []
    else
      var init, last := rows[..|rows| - 1], rows[|rows| - 1];
      assert rows == init + [last];
      Failing(init) + if last.verdict == Pass then [] else [last.id]
  }

  /** The failing ids stand in the order of their rows. */
  lemma {:induction false} FailingInOrder(rows: seq<Row>, p: nat, q: nat) returns (i: nat, j: nat)
    requires p < q < |Failing(rows)|
    ensures i < j < |rows| && rows[i].id == Failing(rows)[p] && rows[j].id == Failing(rows)[q]
  {
    var n := |rows| - 1;
    if q < |Failing(rows[..n])| {
      i, j := FailingInOrder(rows[..n], p, q);
    } else {
      i := FailingAt(rows[..n], p);
      j := n;
    }
  }

  lemma {:induction false} FailingAt(rows: seq<Row>, p: nat) returns (i: nat)
    requires p < |Failing(rows)|
    ensures i < |rows| && rows[i].id == Failing(rows)[p]
  {
    var n := |rows| - 1;
    if p < |Failing(rows[..n])| {
      i := FailingAt(rows[..n], p);
    } else {
      i := n;
    }
  }

  // --- What an engineer may see of a failure -------------------------------

  datatype VisibleFailure = VisibleFailure(id: string, argv: seq<string>, tail: seq<string>)

  /** What the last run that did not exit 0 printed. */
  function LastFailedTail(stages: seq<Stage>): seq<string> {
    if stages == [] then []
    else if stages[|stages| - 1].exit != Some(0) then stages[|stages| - 1].tail
    else LastFailedTail(stages[..|stages| - 1])
  }

  /** It is the tail of the last stage whose exit is not 0, and nothing when
      every stage exited 0. */
  lemma {:induction false} LastFailedTailIs(stages: seq<Stage>)
    ensures if forall st | st in stages :: st.exit == Some(0) then LastFailedTail(stages) == []
            else exists k | 0 <= k < |stages| ::
              && stages[k].exit != Some(0) && LastFailedTail(stages) == stages[k].tail
              && forall j | k < j < |stages| :: stages[j].exit == Some(0)
  {
    if stages != [] {
      var n := |stages| - 1;
      assert stages == stages[..n] + [stages[n]];
      if stages[n].exit == Some(0) {
        LastFailedTailIs(stages[..n]);
        if !(forall st | st in stages[..n] :: st.exit == Some(0)) {
          var k :| 0 <= k < n && stages[..n][k].exit != Some(0) && LastFailedTail(stages[..n]) == stages[..n][k].tail
                   && forall j | k < j < n :: stages[..n][j].exit == Some(0);
          assert stages[k] == stages[..n][k] && forall j | k < j < n :: stages[j] == stages[..n][j];
        }
      } else {
        assert stages[n] in stages;
      }
    }
  }

  function VisibleFailures(comp: string, checks: seq<Check>, failing: seq<string>, runs: Runs): seq<VisibleFailure> {
    if checks == [] then []
    else
      var init, last := checks[..|checks| - 1], checks[|checks| - 1];
      VisibleFailures(comp, init, failing, runs) +
      if last.heldOut || last.id !in failing then []
      else [VisibleFailure(last.id, last.argv, LastFailedTail(StagesOf(runs, (comp, last.id))))]
  }

  /** No held-out check is ever shown, and every visible one that failed is. */
  lemma {:induction false} VisibleFailuresExactly(
    comp: string, checks: seq<Check>, failing: seq<string>, runs: Runs, shown: VisibleFailure)
    ensures shown in VisibleFailures(comp, checks, failing, runs) <==>
            exists c | c in checks :: !c.heldOut && c.id in failing &&
              shown == VisibleFailure(c.id, c.argv, LastFailedTail(StagesOf(runs, (comp, c.id))))
  {
    if checks != [] {
      var init, last := checks[..|checks| - 1], checks[|checks| - 1];
      assert checks == init + [last];
      VisibleFailuresExactly(comp, init, failing, runs, shown);
      assert forall c :: c in checks <==> c in init || c == last;
    }
  }

  // --- The engineer's disputes ---------------------------------------------

  /** A line of the progress log: whether it starts an iteration entry, and
      what it is to a reader of disputes. */
  datatype Kind = NotADispute | Malformed(text: string) | WellFormed(id: string, cause: string)
  datatype ProgressLine = ProgressLine(heading: bool, kind: Kind)
  datatype Progress = NoLog | UnreadableLog | Log(lines: seq<ProgressLine>)

  datatype Dispute = Dispute(id: string, cause: string)
  datatype Reason =
    | NotInForm(text: string) | NotACheck(id: string) | IsHeldOut(id: string)
    | PassedHere(id: string) | DisputedEarlier(id: string)
  datatype Rejection = LogUnreadable | Rejection(number: nat, reason: Reason)
  datatype Disputes = Disputes(accepted: seq<Dispute>, rejected: seq<Rejection>)

  /** The last line that starts an entry, or the first line. */
  function LatestEntry(lines: seq<ProgressLine>): (start: nat)
    ensures start <= |lines|
    ensures forall i | start < i < |lines| :: !lines[i].heading
    ensures start == 0 || (start < |lines| && lines[start].heading)
  {
    if lines == [] then 0
    else if lines[|lines| - 1].heading then |lines| - 1
    else LatestEntry(lines[..|lines| - 1])
  }

  /** The check an id names; the last one wins, as in a dictionary. */
  function ById(checks: seq<Check>, id: string): (found: Option<Check>)
    ensures found.Some? ==> found.value in checks && found.value.id == id
    ensures found.None? ==> forall c | c in checks :: c.id != id
  {
    if checks == [] then None
    else if checks[|checks| - 1].id == id then Some(checks[|checks| - 1])
    else
      assert checks == checks[..|checks| - 1] + [checks[|checks| - 1]];
      ById(checks[..|checks| - 1], id)
  }

  /** Why one line is not taken, given what was taken before it. */
  function Refusal(kind: Kind, checks: seq<Check>, failing: seq<string>, taken: seq<Dispute>): Option<Reason>
    requires !kind.NotADispute?
  {
    match kind
    case Malformed(text) => Some(NotInForm(text))
    case WellFormed(id, _) =>
      var check := ById(checks, id);
      if check.None? then Some(NotACheck(id))
      else if check.value.heldOut then Some(IsHeldOut(id))
      else if id !in failing then Some(PassedHere(id))
      else if exists d | d in taken :: d.id == id then Some(DisputedEarlier(id))
      else None
  }

  /** Which reason a line is refused for: the first that applies. */
  lemma RefusalSays(kind: Kind, checks: seq<Check>, failing: seq<string>, taken: seq<Dispute>)
    requires !kind.NotADispute? && DistinctIds(checks)
    ensures Refusal(kind, checks, failing, taken) ==
            if kind.Malformed? then Some(NotInForm(kind.text))
            else if !exists c | c in checks :: c.id == kind.id then Some(NotACheck(kind.id))
            else if exists c | c in checks :: c.id == kind.id && c.heldOut then Some(IsHeldOut(kind.id))
            else if kind.id !in failing then Some(PassedHere(kind.id))
            else if exists d | d in taken :: d.id == kind.id then Some(DisputedEarlier(kind.id))
            else None
  {
    if kind.WellFormed? {
      var found := ById(checks, kind.id);
      if c :| c in checks && c.id == kind.id { SameIdSameCheck(checks, c, found.value); }
      if c :| c in checks && c.id == kind.id && c.heldOut { SameIdSameCheck(checks, c, found.value); }
    }
  }

  /** A check the engineer may dispute on this head. */
  predicate Disputable(checks: seq<Check>, failing: seq<string>, id: string) {
    id in failing && ById(checks, id).Some? && !ById(checks, id).value.heldOut
  }

  /** Line `n` of an entry is taken iff it is well formed, names a disputable
      check, and is the first line of the entry to dispute it. */
  predicate Taken(lines: seq<ProgressLine>, start: nat, checks: seq<Check>, failing: seq<string>, n: nat)
    requires start <= n < |lines|
  {
    && lines[n].kind.WellFormed?
    && Disputable(checks, failing, lines[n].kind.id)
    && forall m | start <= m < n :: lines[m].kind.WellFormed? ==> lines[m].kind.id != lines[n].kind.id
  }

  function TakenIn(lines: seq<ProgressLine>, start: nat, checks: seq<Check>, failing: seq<string>, n: nat): seq<Dispute>
    requires start <= n <= |lines|
  {
    if n == start then []
    else TakenIn(lines, start, checks, failing, n - 1) +
         if Taken(lines, start, checks, failing, n - 1)
         then [Dispute(lines[n - 1].kind.id, lines[n - 1].kind.cause)] else []
  }

  function DisputeLines(lines: seq<ProgressLine>, start: nat, n: nat): (numbers: seq<nat>)
    requires start <= n <= |lines|
    ensures forall k :: k in numbers <==> start <= k < n && !lines[k].kind.NotADispute?
  {
    if n == start then []
    else DisputeLines(lines, start, n - 1) + if lines[n - 1].kind.NotADispute? then [] else [n - 1]
  }

  /** The ids taken so far are the disputable ids some line has named. */
  lemma {:induction false} TakenIds(
    lines: seq<ProgressLine>, start: nat, checks: seq<Check>, failing: seq<string>, n: nat, id: string)
    requires start <= n <= |lines|
    ensures (exists d | d in TakenIn(lines, start, checks, failing, n) :: d.id == id) <==>
            Disputable(checks, failing, id) &&
            exists m | start <= m < n :: lines[m].kind.WellFormed? && lines[m].kind.id == id
  {
    if n > start {
      TakenIds(lines, start, checks, failing, n - 1, id);
      var last := lines[n - 1].kind;
      var before := TakenIn(lines, start, checks, failing, n - 1);
      if Taken(lines, start, checks, failing, n - 1) {
        assert TakenIn(lines, start, checks, failing, n) == before + [Dispute(last.id, last.cause)];
        assert Dispute(last.id, last.cause) in TakenIn(lines, start, checks, failing, n);
        assert forall d :: d in TakenIn(lines, start, checks, failing, n) <==>
                           d in before || d == Dispute(last.id, last.cause);
      }
    }
  }

  /** Every dispute line is accepted or rejected, never both, and which one it
      is depends only on the log, the checks and what failed. */
  lemma RefusalIffNotTaken(lines: seq<ProgressLine>, start: nat, checks: seq<Check>, failing: seq<string>, n: nat)
    requires start <= n < |lines| && !lines[n].kind.NotADispute?
    ensures Refusal(lines[n].kind, checks, failing, TakenIn(lines, start, checks, failing, n)).None? <==>
            Taken(lines, start, checks, failing, n)
  {
    if lines[n].kind.WellFormed? {
      TakenIds(lines, start, checks, failing, n, lines[n].kind.id);
    }
  }

  /** The dispute lines that are not taken, each with its number and reason. */
  function RejectedIn(
    lines: seq<ProgressLine>, start: nat, checks: seq<Check>, failing: seq<string>, n: nat)
    : (rejected: seq<Rejection>)
    requires start <= n <= |lines|
    ensures forall r | r in rejected :: r.Rejection?
  {
    if n == start then []
    else
      RejectedIn(lines, start, checks, failing, n - 1) +
      if lines[n - 1].kind.NotADispute? || Taken(lines, start, checks, failing, n - 1) then []
      else
        RefusalIffNotTaken(lines, start, checks, failing, n - 1);
        [Rejection(n, Refusal(lines[n - 1].kind, checks, failing,
                              TakenIn(lines, start, checks, failing, n - 1)).value)]
  }

  method ReadDispute(progress: Progress, checks: seq<Check>, failing: seq<string>) returns (read: Disputes)
    ensures read == DisputesOf(progress, checks, failing)
  {
    if progress.NoLog? { return Disputes([], []); }
    if progress.UnreadableLog? { return Disputes([], [LogUnreadable]); }
    var lines := progress.lines;
    var start := LatestEntry(lines);
    var accepted: seq<Dispute>, rejected: seq<Rejection> := [], [];
    for n := start to |lines|
      invariant accepted == TakenIn(lines, start, checks, failing, n)
      invariant rejected == RejectedIn(lines, start, checks, failing, n)
    {
      var kind := lines[n].kind;
      if !kind.NotADispute? {
        var reason := Refusal(kind, checks, failing, accepted);
        RefusalIffNotTaken(lines, start, checks, failing, n);
        if reason.Some? {
          rejected := rejected + [Rejection(n + 1, reason.value)];
        } else {
          accepted := accepted + [Dispute(kind.id, kind.cause)];
        }
      }
    }
    read := Disputes(accepted, rejected);
  }

  function DisputesOf(progress: Progress, checks: seq<Check>, failing: seq<string>): Disputes {
    match progress
    case NoLog => Disputes([], [])
    case UnreadableLog => Disputes([], [LogUnreadable])
    case Log(lines) =>
      var start := LatestEntry(lines);
      Disputes(TakenIn(lines, start, checks, failing, |lines|), RejectedIn(lines, start, checks, failing, |lines|))
  }

  /** Every line of the entry that sets out to dispute is accepted or rejected
      exactly once: each rejection names a line that was not taken, no line
      twice, and together they are as many as the dispute lines. */
  lemma {:induction false} DisputesPartition(
    lines: seq<ProgressLine>, start: nat, checks: seq<Check>, failing: seq<string>, n: nat)
    requires start <= n <= |lines|
    ensures |TakenIn(lines, start, checks, failing, n)| + |RejectedIn(lines, start, checks, failing, n)| ==
            |DisputeLines(lines, start, n)|
  {
    if n > start { DisputesPartition(lines, start, checks, failing, n - 1); }
  }

  /** No dispute line is passed over: it is accepted, or its number is among
      the rejections. */
  lemma {:induction false} EveryDisputeIsAnswered(
    lines: seq<ProgressLine>, start: nat, checks: seq<Check>, failing: seq<string>, n: nat, k: nat)
    requires start <= k < n <= |lines| && !lines[k].kind.NotADispute?
    ensures if Taken(lines, start, checks, failing, k)
            then Dispute(lines[k].kind.id, lines[k].kind.cause) in TakenIn(lines, start, checks, failing, n)
            else exists r | r in RejectedIn(lines, start, checks, failing, n) :: r.number == k + 1
  {
    if k < n - 1 {
      EveryDisputeIsAnswered(lines, start, checks, failing, n - 1, k);
      if !Taken(lines, start, checks, failing, k) {
        var r :| r in RejectedIn(lines, start, checks, failing, n - 1) && r.number == k + 1;
        assert r in RejectedIn(lines, start, checks, failing, n);
      }
    } else if !Taken(lines, start, checks, failing, k) {
      var rejected := RejectedIn(lines, start, checks, failing, n);
      assert rejected[|rejected| - 1].number == k + 1 && rejected[|rejected| - 1] in rejected;
    }
  }

  /** No line is rejected twice: the numbers only go up. */
  lemma {:induction false} RejectionsInOrder(
    lines: seq<ProgressLine>, start: nat, checks: seq<Check>, failing: seq<string>, n: nat, i: nat, j: nat)
    requires start <= n <= |lines| && i < j < |RejectedIn(lines, start, checks, failing, n)|
    ensures RejectedIn(lines, start, checks, failing, n)[i].number <
            RejectedIn(lines, start, checks, failing, n)[j].number
  {
    var before := RejectedIn(lines, start, checks, failing, n - 1);
    if j < |before| {
      RejectionsInOrder(lines, start, checks, failing, n - 1, i, j);
    } else {
      assert before[i] in before;
      RejectedWasNotTaken(lines, start, checks, failing, n - 1, before[i]);
    }
  }

  lemma {:induction false} RejectedWasNotTaken(
    lines: seq<ProgressLine>, start: nat, checks: seq<Check>, failing: seq<string>, n: nat, r: Rejection)
    requires start <= n <= |lines| && r in RejectedIn(lines, start, checks, failing, n)
    ensures r.Rejection? && start < r.number <= n
    ensures !lines[r.number - 1].kind.NotADispute? && !Taken(lines, start, checks, failing, r.number - 1)
  {
    if r in RejectedIn(lines, start, checks, failing, n - 1) {
      RejectedWasNotTaken(lines, start, checks, failing, n - 1, r);
    }
  }

  /** What was taken can be shown: it is a visible check that failed, so it has
      an entry among the visible failures. */
  lemma {:induction false} TakenCanBeShown(
    lines: seq<ProgressLine>, start: nat, comp: string, checks: seq<Check>, failing: seq<string>, n: nat, runs: Runs,
    d: Dispute)
    requires start <= n <= |lines| && d in TakenIn(lines, start, checks, failing, n)
    ensures Disputable(checks, failing, d.id)
    ensures exists shown | shown in VisibleFailures(comp, checks, failing, runs) :: shown.id == d.id
  {
    assert exists e | e in TakenIn(lines, start, checks, failing, n) :: e.id == d.id;
    TakenIds(lines, start, checks, failing, n, d.id);
    var c := ById(checks, d.id).value;
    var shown := VisibleFailure(c.id, c.argv, LastFailedTail(StagesOf(runs, (comp, c.id))));
    VisibleFailuresExactly(comp, checks, failing, runs, shown);
    assert shown in VisibleFailures(comp, checks, failing, runs) && shown.id == d.id;
  }

  /** No check is disputed twice. */
  lemma {:induction false} TakenOnce(
    lines: seq<ProgressLine>, start: nat, checks: seq<Check>, failing: seq<string>, n: nat, i: nat, j: nat)
    requires start <= n <= |lines| && i < j < |TakenIn(lines, start, checks, failing, n)|
    ensures TakenIn(lines, start, checks, failing, n)[i].id != TakenIn(lines, start, checks, failing, n)[j].id
  {
    var before := TakenIn(lines, start, checks, failing, n - 1);
    if j < |before| {
      TakenOnce(lines, start, checks, failing, n - 1, i, j);
    } else {
      assert before[i] in before;
      TakenIds(lines, start, checks, failing, n - 1, before[i].id);
    }
  }

  /** Disputes are read from the latest entry and from nothing before it: from
      the last heading on, every dispute line is answered, and every answer is
      of such a line. */
  lemma DisputesAreOfTheLatestEntry(
    lines: seq<ProgressLine>, checks: seq<Check>, failing: seq<string>, start: nat, k: nat)
    requires start <= k < |lines| && !lines[k].kind.NotADispute?
    requires (start == 0 || lines[start].heading) && forall i | start < i < |lines| :: !lines[i].heading
    ensures var read := DisputesOf(Log(lines), checks, failing);
            || (lines[k].kind.WellFormed? && Dispute(lines[k].kind.id, lines[k].kind.cause) in read.accepted)
            || exists r | r in read.rejected :: r.Rejection? && r.number == k + 1
    ensures forall r | r in DisputesOf(Log(lines), checks, failing).rejected :: r.Rejection? && start < r.number
  {
    assert start == LatestEntry(lines);
    EveryDisputeIsAnswered(lines, start, checks, failing, |lines|, k);
    forall r | r in RejectedIn(lines, start, checks, failing, |lines|) ensures r.Rejection? && start < r.number {
      RejectedWasNotTaken(lines, start, checks, failing, |lines|, r);
    }
  }

  /** Every accepted dispute is a line of that entry. */
  lemma AcceptedIsOfTheLatestEntry(
    lines: seq<ProgressLine>, checks: seq<Check>, failing: seq<string>, start: nat, d: Dispute) returns (k: nat)
    requires start <= |lines| && d in DisputesOf(Log(lines), checks, failing).accepted
    requires (start == 0 || (start < |lines| && lines[start].heading)) &&
             forall i | start < i < |lines| :: !lines[i].heading
    ensures start <= k < |lines| && lines[k].kind == WellFormed(d.id, d.cause)
  {
    assert start == LatestEntry(lines);
    k := TakenFrom(lines, start, checks, failing, |lines|, d);
  }

  lemma {:induction false} TakenFrom(
    lines: seq<ProgressLine>, start: nat, checks: seq<Check>, failing: seq<string>, n: nat, d: Dispute)
    returns (k: nat)
    requires start <= n <= |lines| && d in TakenIn(lines, start, checks, failing, n)
    ensures start <= k < n && lines[k].kind == WellFormed(d.id, d.cause)
    decreases n
  {
    if d in TakenIn(lines, start, checks, failing, n - 1) {
      k := TakenFrom(lines, start, checks, failing, n - 1, d);
    } else {
      k := n - 1;
    }
  }

  /** No log is no dispute, and a log that cannot be read is one rejection. */
  lemma NoReadingNoDispute(checks: seq<Check>, failing: seq<string>)
    ensures DisputesOf(NoLog, checks, failing) == Disputes([], [])
    ensures DisputesOf(UnreadableLog, checks, failing) == Disputes([], [LogUnreadable])
  {
  }
}
