/**
 Judging one head: the kept checks run HEAD_RUNS times each, the record is
 built and rendered, and the outcome says whether the component passes, what
 a retry tells the engineer and what a halt says.

 Source: kstrl/acceptance/acceptance.py, judge_head.
 */
module JudgeHead {
  import opened Checks
  import opened BaseScreening
  import opened HeadRecord
  import opened Lines

  datatype HeadOutcome = HeadOutcome(
    passed: bool, lines: seq<Line>, checks: seq<string>, failures: seq<Line>, isolation: string,
    failing: seq<string>, heldOut: seq<string>, told: seq<Line>, disputed: seq<string>, stopped: seq<Line>)

  /** One head and what the machine answers while it is judged. */
  datatype Head = Head(
    sha: string, attempt: nat, site: Site, overrides: seq<Override>, progress: Progress, sandbox: string,
    evidenceMade: bool, evidenceWritten: bool)

  /** The approval was taken on this head and names every failing check. */
  predicate CoversHead(item: Override, headSha: string, failing: seq<string>) {
    item.headSha == headSha && forall id | id in failing :: id in item.named
  }

  /** The first approval that covers the head; none when nothing fails. */
  function CoveringOverride(items: seq<Override>, headSha: string, failing: seq<string>): (found: Option<Override>)
    ensures found.Some? <==> failing != [] && exists item | item in items :: CoversHead(item, headSha, failing)
    ensures found.Some? ==> exists i | 0 <= i < |items| ::
              && found.value == items[i] && CoversHead(items[i], headSha, failing)
              && forall j | 0 <= j < i :: !CoversHead(items[j], headSha, failing)
  {
    if items == [] || failing == [] then None
    else if CoversHead(items[0], headSha, failing) then
      assert items[0] in items;
      Some(items[0])
    else
      assert items == [items[0]] + items[1..];
      CoveringOverride(items[1..], headSha, failing)
  }

  function HeadRunsOf(plan: PinnedPlan, base: BaseReading, comp: string, site: Site): Runs
    requires comp in base.kept
  {
    ProbeRuns(site, WantedOf(plan.digest, comp, base.kept[comp].checks), HEAD_RUNS)
  }

  function DocumentOf(plan: PinnedPlan, base: BaseReading, comp: string, head: Head, runs: Runs): Document
    requires Readable(plan, base, comp)
  {
    var record := RecordOf(plan, base, head.site.record, comp, head.sha, head.attempt, runs);
    var failing := Failing(record.rows);
    Document(record,
             CoveringOverride(head.overrides, head.sha, failing),
             VisibleFailures(comp, base.kept[comp].checks, failing, runs),
             DisputesOf(head.progress, base.kept[comp].checks, failing),
             head.sandbox)
  }

  function Ids(rows: seq<Row>): (ids: seq<string>)
    ensures |ids| == |rows| && forall i | 0 <= i < |rows| :: ids[i] == rows[i].id
  {
    seq(|rows|, i requires 0 <= i < |rows| => rows[i].id)
  }

  function DisputedIds(accepted: seq<Dispute>): (ids: seq<string>)
    ensures |ids| == |accepted| && forall i | 0 <= i < |accepted| :: ids[i] == accepted[i].id
  {
    seq(|accepted|, i requires 0 <= i < |accepted| => accepted[i].id)
  }

  /** The rows that did not pass, as they are shown. */
  function FailureLines(rows: seq<Row>): seq<Line> {
    if rows == [] then []
    else FailureLines(rows[..|rows| - 1]) +
         if rows[|rows| - 1].verdict == Pass then [] else [ShownRow(rows[|rows| - 1], HEAD_RUNS)]
  }

  /** The held-out rows that ran and failed. */
  function HeldOutFailures(rows: seq<Row>): (ids: seq<string>)
    ensures forall id :: id in ids <==> exists r | r in rows :: r.id == id && r.heldOut && r.verdict == Fail
  {
    if rows == [] then []
    else
      var init, last := rows[..|rows| - 1], rows[|rows| - 1];
      assert rows == init + [last];
      HeldOutFailures(init) + if last.heldOut && last.verdict == Fail then [last.id] else []
  }

  function OutcomeOf(document: Document, checks: seq<Check>): HeadOutcome {
    var record := document.record;
    var failing := Failing(record.rows);
    HeadOutcome(
      failing == [] || document.override.Some?,
      RenderLines(document),
      Ids(record.rows),
      FailureLines(record.rows),
      Isolation(record.replay),
      failing,
      HeldOutFailures(record.rows),
      if Unreplayed(record.replay) then [] else ToldLines(document, checks),
      DisputedIds(document.dispute.accepted),
      StopLines(document))
  }

  const NO_HEAD := "the head commit cannot be read"
  const NOT_WRITTEN := "the evidence cannot be written"

  function NotJudged(line: Line): HeadOutcome {
    HeadOutcome(false, [line], [], [line], HOST_LABEL, [], [], [], [], [])
  }

  /** None when the run has no plan for the component. A head whose commit
      cannot be read is never judged as the base, and one whose evidence
      cannot be written shows nothing else. */
  method Judge(plan: Option<PinnedPlan>, base: Option<BaseReading>, stack: bool, comp: string, head: Head)
    returns (outcome: Option<HeadOutcome>)
    requires plan.Some? && base.Some? && comp in base.value.kept ==>
               Readable(plan.value, base.value, comp) && DistinctIds(base.value.kept[comp].checks)
    ensures outcome.Some? <==> plan.Some? && base.Some? && stack && comp in base.value.kept
    ensures outcome.Some? && head.sha == "" ==> outcome.value == NotJudged(NothingRan(comp, NO_HEAD))
    ensures outcome.Some? && head.sha != "" && !(head.evidenceMade && head.evidenceWritten) ==>
              outcome.value == NotJudged(NothingRan(comp, NOT_WRITTEN))
    ensures outcome.Some? && (head.sha == "" || !(head.evidenceMade && head.evidenceWritten)) ==>
              !outcome.value.passed && outcome.value.failing == [] && outcome.value.told == []
    ensures outcome.Some? && head.sha != "" && head.evidenceMade && head.evidenceWritten ==>
              outcome.value == AnswerOf(plan.value, base.value, comp, head)
  {
    if plan.None? || base.None? || !stack || comp !in base.value.kept { return None; }
    if head.sha == "" { return Some(NotJudged(NothingRan(comp, NO_HEAD))); }
    var checks := base.value.kept[comp].checks;
    if !head.evidenceMade { return Some(NotJudged(NothingRan(comp, NOT_WRITTEN))); }
    var log := new RunLog();
    log.Probe(head.site, WantedOf(plan.value.digest, comp, checks), HEAD_RUNS);
    var record := BuildRecord(plan.value, base.value, head.site.record, comp, head.sha, head.attempt, log.runs);
    var failing := Failing(record.rows);
    var dispute := ReadDispute(head.progress, checks, failing);
    var document := Document(record, CoveringOverride(head.overrides, head.sha, failing),
                             VisibleFailures(comp, checks, failing, log.runs), dispute, head.sandbox);
    assert document == DocumentOf(plan.value, base.value, comp, head, log.runs);
    LookupsAreDefined(plan.value, base.value, comp, head, log.runs);
    var lines := Render(document);
    var told := Tell(document, checks);
    var stopped := Stop(document);
    if !head.evidenceWritten { return Some(NotJudged(NothingRan(comp, NOT_WRITTEN))); }
    outcome := Some(HeadOutcome(
                      failing == [] || document.override.Some?, lines, Ids(record.rows), FailureLines(record.rows),
                      Isolation(record.replay), failing, HeldOutFailures(record.rows),
                      if Unreplayed(record.replay) then [] else told, DisputedIds(dispute.accepted), stopped));
  }

  // --- Every lookup a renderer makes is defined -----------------------------

  lemma LookupsAreDefined(plan: PinnedPlan, base: BaseReading, comp: string, head: Head, runs: Runs)
    requires Readable(plan, base, comp) && DistinctIds(base.kept[comp].checks)
    ensures var document := DocumentOf(plan, base, comp, head, runs);
            CanStop(document) && CanTell(document, base.kept[comp].checks)
  {
    var document := DocumentOf(plan, base, comp, head, runs);
    var checks := base.kept[comp].checks;
    var failing := Failing(document.record.rows);
    if head.progress.Log? {
      var lines := head.progress.lines;
      forall d | d in document.dispute.accepted ensures ShownById(document.visibleFailures, d.id).Some? {
        TakenCanBeShown(lines, LatestEntry(lines), comp, checks, failing, |lines|, runs, d);
      }
    }
    var rows := document.record.rows;
    forall i | 0 <= i < |rows| ensures CanTellRow(rows[i], checks, document.visibleFailures) {
      if rows[i].verdict != Pass && VisibleById(checks, rows[i].id).Some? {
        assert rows[i] in rows;
        VisibleFailureIsShown(comp, checks, failing, runs, VisibleById(checks, rows[i].id).value);
      }
    }
  }

  lemma VisibleFailureIsShown(comp: string, checks: seq<Check>, failing: seq<string>, runs: Runs, check: Check)
    requires check in checks && !check.heldOut && check.id in failing
    ensures ShownById(VisibleFailures(comp, checks, failing, runs), check.id).Some?
  {
    var entry := VisibleFailure(check.id, check.argv, LastFailedTail(StagesOf(runs, (comp, check.id))));
    VisibleFailuresExactly(comp, checks, failing, runs, entry);
    assert entry in VisibleFailures(comp, checks, failing, runs);
  }

  // --- What every reader of a head is shown -----------------------------------

  /** The halt a head's outcome is stopped with. */
  function HaltOf(outcome: HeadOutcome, headSha: string, comp: string): Halt {
    HaltText(outcome.heldOut, outcome.disputed, outcome.lines, outcome.stopped, headSha, comp)
  }

  /** Every accepted dispute is named in a halt, whatever its cause. */
  lemma HaltNamesEveryDispute(document: Document, checks: seq<Check>, d: Dispute)
    requires d in document.dispute.accepted
    ensures DisputedLine(d.id, d.cause) in
              HaltLines(HaltOf(OutcomeOf(document, checks), document.record.headSha, document.record.component))
  {
    DisputeIsNamed(document.dispute.accepted, document.visibleFailures, d);
    var before, after := StopLinesInsideRender(document);
    assert DisputedLine(d.id, d.cause) in StopLines(document);
    assert DisputedLine(d.id, d.cause) in RenderLines(document);
  }

  /** A held-out check that failed is the cause of a halt before any dispute,
      and every such check is named, so a dispute never hides one from the
      person who approves. */
  lemma HaltPutsHeldOutFirst(document: Document, checks: seq<Check>)
    ensures var cause := HaltOf(OutcomeOf(document, checks), document.record.headSha, document.record.component).cause;
            && (cause.HeldOutFailed? <==> exists r | r in document.record.rows :: r.heldOut && r.verdict == Fail)
            && (cause.HeldOutFailed? ==> cause.ids == HeldOutFailures(document.record.rows))
            && (cause.Disputed? <==>
                  document.dispute.accepted != [] &&
                  forall r | r in document.record.rows :: !(r.heldOut && r.verdict == Fail))
            && (cause.Disputed? ==> cause.ids == DisputedIds(document.dispute.accepted))
            && (cause.WholeRecord? ==> cause.lines == RenderLines(document))
  {
    var failed := HeldOutFailures(document.record.rows);
    if failed != [] { assert failed[0] in failed; }
    if r :| r in document.record.rows && r.heldOut && r.verdict == Fail { assert r.id in failed; }
  }

  /** Whatever check a command or a line of output comes from that a record, a
      halt, the terminal or the pull request shows, it is a visible check that
      did not pass. */
  lemma OnlyVisibleFailuresAreShown(plan: PinnedPlan, base: BaseReading, comp: string, head: Head, runs: Runs,
                                    line: Line)
    returns (check: Check)
    requires Readable(plan, base, comp) && FromACheck(line)
    requires var outcome := OutcomeOf(DocumentOf(plan, base, comp, head, runs), base.kept[comp].checks);
             line in outcome.lines || line in HaltLines(HaltOf(outcome, head.sha, comp))
    ensures check in base.kept[comp].checks && !check.heldOut
    ensures check.id in Failing(RowsOf(comp, base.kept[comp].checks, base.exits[comp], runs))
    ensures line in [Command(check.argv)] + Outputs(LastFailedTail(StagesOf(runs, (comp, check.id))))
  {
    var document, checks := DocumentOf(plan, base, comp, head, runs), base.kept[comp].checks;
    var before, after := StopLinesInsideRender(document);
    assert line in RenderLines(document);
    RenderShowsOnlyVisible(document, line);
    var v :| v in document.visibleFailures && line in Shown(v);
    check := ShownComesFrom(comp, checks, Failing(document.record.rows), runs, v);
  }

  lemma ShownComesFrom(comp: string, checks: seq<Check>, failing: seq<string>, runs: Runs, v: VisibleFailure)
    returns (check: Check)
    requires v in VisibleFailures(comp, checks, failing, runs)
    ensures check in checks && !check.heldOut && check.id in failing
    ensures v == VisibleFailure(check.id, check.argv, LastFailedTail(StagesOf(runs, (comp, check.id))))
  {
    VisibleFailuresExactly(comp, checks, failing, runs, v);
    check :| check in checks && !check.heldOut && check.id in failing &&
             v == VisibleFailure(check.id, check.argv, LastFailedTail(StagesOf(runs, (comp, check.id))));
  }

  // --- A passing head is a measured change ----------------------------------

  /** The answer for a head whose commit and evidence are in order. */
  function AnswerOf(plan: PinnedPlan, base: BaseReading, comp: string, head: Head): HeadOutcome
    requires Readable(plan, base, comp)
  {
    OutcomeOf(DocumentOf(plan, base, comp, head, HeadRunsOf(plan, base, comp, head.site)), base.kept[comp].checks)
  }

  /** The head would pass if nobody had approved anything. */
  ghost predicate PassedOnItsOwn(plan: PinnedPlan, base: BaseReading, comp: string, head: Head)
    requires Readable(plan, base, comp)
  {
    AnswerOf(plan, base, comp, head.(overrides := [])).passed
  }

  lemma OwnHeadRuns(plan: PinnedPlan, base: BaseReading, comp: string, site: Site, check: Check)
    requires Readable(plan, base, comp) && DistinctIds(base.kept[comp].checks) && check in base.kept[comp].checks
    ensures StagesOf(HeadRunsOf(plan, base, comp, site), (comp, check.id)) ==
            if site.probed then RunsOf(site, plan.digest, check, HEAD_RUNS) else []
  {
    var checks := base.kept[comp].checks;
    var wanted := WantedOf(plan.digest, comp, checks);
    forall i, j | 0 <= i < |wanted| && 0 <= j < |wanted| && wanted[i].Key() == wanted[j].Key()
      ensures wanted[i].digest == wanted[j].digest && wanted[i].check == wanted[j].check
    {
      SameIdSameCheck(checks, checks[i], checks[j]);
    }
    var k :| 0 <= k < |checks| && checks[k] == check;
    assert wanted[k] in wanted;
    OwnRuns(site, wanted, HEAD_RUNS, Wanted(plan.digest, comp, check));
  }

  /** The check cleared the head: it ran there and its three runs exited 0. */
  ghost predicate Clears(site: Site, digest: string, check: Check) {
    && site.probed && site.run(digest, check, 1).exit == Some(0)
    && site.run(digest, check, 2).exit == Some(0) && site.run(digest, check, 3).exit == Some(0)
  }

  /** It failed there: it ran and one of the three gave a failing exit. */
  ghost predicate FailsOn(site: Site, digest: string, check: Check) {
    site.probed &&
    exists n | 1 <= n <= 3 :: site.run(digest, check, n).exit.Some? &&
      site.run(digest, check, n).exit.value !in {0, 126, 127}
  }

  /** What the row of a kept check says, by its runs and the base reading. */
  lemma RowSays(plan: PinnedPlan, base: BaseReading, comp: string, head: Head, i: nat)
    requires Readable(plan, base, comp) && DistinctIds(base.kept[comp].checks) && i < |base.kept[comp].checks|
    ensures var rows := DocumentOf(plan, base, comp, head, HeadRunsOf(plan, base, comp, head.site)).record.rows;
            var check := base.kept[comp].checks[i];
            && |rows| == |base.kept[comp].checks|
            && rows[i].id == check.id && rows[i].sha256 == check.sha256 && rows[i].heldOut == check.heldOut
            && rows[i].baseExit == base.exits[comp][check.id]
            && rows[i].headExits ==
               (if !head.site.probed then []
                else [head.site.run(plan.digest, check, 1).exit, head.site.run(plan.digest, check, 2).exit,
                      head.site.run(plan.digest, check, 3).exit])
            && (rows[i].verdict == Pass <==> Clears(head.site, plan.digest, check))
            && (rows[i].verdict == Fail <==> FailsOn(head.site, plan.digest, check))
  {
    var check := base.kept[comp].checks[i];
    OwnHeadRuns(plan, base, comp, head.site, check);
    var exits := if head.site.probed then Exits(RunsOf(head.site, plan.digest, check, HEAD_RUNS)) else [];
    assert Exits([]) == [];
    VerdictBySite(head.site, plan.digest, check, exits);
  }

  lemma VerdictBySite(site: Site, digest: string, check: Check, exits: seq<Exit>)
    requires exits == if site.probed then Exits(RunsOf(site, digest, check, HEAD_RUNS)) else []
    ensures site.probed ==> exits == [site.run(digest, check, 1).exit, site.run(digest, check, 2).exit,
                                      site.run(digest, check, 3).exit]
    ensures HeadVerdict(exits) == Pass <==> Clears(site, digest, check)
    ensures HeadVerdict(exits) == Fail <==> FailsOn(site, digest, check)
  {
    HeadVerdictMeaning(exits);
    if site.probed {
      assert |exits| == 3 && exits[0] in exits && exits[1] in exits && exits[2] in exits;
    }
  }

  /** The record beside its rows. */
  lemma RecordSays(plan: PinnedPlan, base: BaseReading, comp: string, head: Head)
    requires Readable(plan, base, comp)
    ensures var record := DocumentOf(plan, base, comp, head, HeadRunsOf(plan, base, comp, head.site)).record;
            && record.component == comp && record.attempt == head.attempt && record.planId == plan.digest
            && record.designed == plan.designed && record.headSha == head.sha && record.headRuns == 3
            && record.base == (if comp in base.said then base.said[comp] else "")
            && record.replay == head.site.record
            && forall id :: id in record.removed <==>
                 exists c | c in plan.components[comp].checks :: c.id == id && c !in base.kept[comp].checks
  {
  }

  /** What fails, and which held-out checks, by the runs alone. */
  lemma FailingIff(plan: PinnedPlan, base: BaseReading, comp: string, head: Head, id: string)
    requires Readable(plan, base, comp) && DistinctIds(base.kept[comp].checks)
    ensures id in AnswerOf(plan, base, comp, head).failing <==>
            exists c | c in base.kept[comp].checks :: c.id == id && !Clears(head.site, plan.digest, c)
    ensures id in AnswerOf(plan, base, comp, head).heldOut <==>
            exists c | c in base.kept[comp].checks :: c.id == id && c.heldOut && FailsOn(head.site, plan.digest, c)
  {
    var checks := base.kept[comp].checks;
    var rows := DocumentOf(plan, base, comp, head, HeadRunsOf(plan, base, comp, head.site)).record.rows;
    forall i | 0 <= i < |checks|
      ensures |rows| == |checks| && rows[i] in rows && checks[i] in checks
      ensures rows[i].id == checks[i].id && rows[i].heldOut == checks[i].heldOut
      ensures rows[i].verdict == Pass <==> Clears(head.site, plan.digest, checks[i])
      ensures rows[i].verdict == Fail <==> FailsOn(head.site, plan.digest, checks[i])
    {
      RowSays(plan, base, comp, head, i);
    }
    RowsAndChecks(rows, checks, head.site, plan.digest, id);
  }

  lemma {:induction false} RowsAndChecks(rows: seq<Row>, checks: seq<Check>, site: Site, digest: string, id: string)
    requires |rows| == |checks|
    requires forall i | 0 <= i < |checks| ::
               && rows[i].id == checks[i].id && rows[i].heldOut == checks[i].heldOut
               && (rows[i].verdict == Pass <==> Clears(site, digest, checks[i]))
               && (rows[i].verdict == Fail <==> FailsOn(site, digest, checks[i]))
    ensures id in Failing(rows) <==> exists c | c in checks :: c.id == id && !Clears(site, digest, c)
    ensures id in HeldOutFailures(rows) <==>
            exists c | c in checks :: c.id == id && c.heldOut && FailsOn(site, digest, c)
  {
    if r :| r in rows && r.id == id && r.verdict != Pass {
      var i :| 0 <= i < |rows| && rows[i] == r;
      assert checks[i] in checks && !Clears(site, digest, checks[i]);
    }
    if r :| r in rows && r.id == id && r.heldOut && r.verdict == Fail {
      var i :| 0 <= i < |rows| && rows[i] == r;
      assert checks[i] in checks && FailsOn(site, digest, checks[i]);
    }
    if c :| c in checks && c.id == id && !Clears(site, digest, c) {
      var i :| 0 <= i < |checks| && checks[i] == c;
      assert rows[i] in rows && rows[i].verdict != Pass;
    }
    if c :| c in checks && c.id == id && c.heldOut && FailsOn(site, digest, c) {
      var i :| 0 <= i < |checks| && checks[i] == c;
      assert rows[i] in rows && rows[i].verdict == Fail;
    }
  }

  /** The answer itself: a head passes iff every kept check cleared it, or some
      approval taken on this very commit names every kept check that did not. */
  lemma AnswerPassedIff(plan: PinnedPlan, base: BaseReading, comp: string, head: Head)
    requires Readable(plan, base, comp) && DistinctIds(base.kept[comp].checks)
    ensures AnswerOf(plan, base, comp, head).passed <==>
            || (forall c | c in base.kept[comp].checks :: Clears(head.site, plan.digest, c))
            || exists item | item in head.overrides ::
                 item.headSha == head.sha &&
                 forall c | c in base.kept[comp].checks && !Clears(head.site, plan.digest, c) :: c.id in item.named
  {
    var checks, failing := base.kept[comp].checks, AnswerOf(plan, base, comp, head).failing;
    forall id
      ensures id in failing <==> exists c | c in checks :: c.id == id && !Clears(head.site, plan.digest, c)
    {
      FailingIff(plan, base, comp, head, id);
    }
    AnswerAsOverridden(plan, base, comp, head);
    PassedByChecks(head.overrides, head.sha, failing, checks, head.site, plan.digest);
  }

  lemma AnswerAsOverridden(plan: PinnedPlan, base: BaseReading, comp: string, head: Head)
    requires Readable(plan, base, comp)
    ensures var answer := AnswerOf(plan, base, comp, head);
            answer.passed <==>
              answer.failing == [] ||
              exists item | item in head.overrides :: CoversHead(item, head.sha, answer.failing)
  {
  }

  lemma {:induction false} PassedByChecks(
    items: seq<Override>, sha: string, failing: seq<string>, checks: seq<Check>, site: Site, digest: string)
    requires forall id :: id in failing <==> exists c | c in checks :: c.id == id && !Clears(site, digest, c)
    ensures (failing == [] || exists item | item in items :: CoversHead(item, sha, failing)) <==>
            || (forall c | c in checks :: Clears(site, digest, c))
            || exists item | item in items ::
                 item.headSha == sha && forall c | c in checks && !Clears(site, digest, c) :: c.id in item.named
  {
    forall item | item in items
      ensures CoversHead(item, sha, failing) <==>
              item.headSha == sha && forall c | c in checks && !Clears(site, digest, c) :: c.id in item.named
    {
      CoversIff(item, sha, failing, checks, site, digest);
    }
    if failing != [] {
      assert failing[0] in failing;
    } else {
      forall c | c in checks ensures Clears(site, digest, c) {
        assert c.id !in failing;
      }
    }
  }

  lemma CoversIff(
    item: Override, sha: string, failing: seq<string>, checks: seq<Check>, site: Site, digest: string)
    requires forall id :: id in failing <==> exists c | c in checks :: c.id == id && !Clears(site, digest, c)
    ensures CoversHead(item, sha, failing) <==>
            item.headSha == sha && forall c | c in checks && !Clears(site, digest, c) :: c.id in item.named
  {
    if CoversHead(item, sha, failing) {
      forall c | c in checks && !Clears(site, digest, c) ensures c.id in item.named {
        assert c.id in failing;
      }
    }
  }

  /** The rest of the answer. */
  lemma AnswerSays(plan: PinnedPlan, base: BaseReading, comp: string, head: Head)
    requires Readable(plan, base, comp)
    ensures var answer, checks := AnswerOf(plan, base, comp, head), base.kept[comp].checks;
            var replay := head.site.record;
            var document := DocumentOf(plan, base, comp, head, HeadRunsOf(plan, base, comp, head.site));
            && |answer.checks| == |checks| && (forall i | 0 <= i < |checks| :: answer.checks[i] == checks[i].id)
            && answer.isolation == (if "test" in replay.isolation then replay.isolation["test"] else "host")
            && (replay.error != "" || replay.failed == Some(BoundaryRefused) ==> answer.told == [])
            && (replay.error == "" && replay.failed != Some(BoundaryRefused) ==>
                  answer.told == ToldLines(document, checks))
            && answer.lines == RenderLines(document) && answer.stopped == StopLines(document)
            && document.sandbox == head.sandbox && document.dispute == DisputesOf(head.progress, checks, answer.failing)
            && |answer.disputed| == |document.dispute.accepted|
            && forall i | 0 <= i < |answer.disputed| :: answer.disputed[i] == document.dispute.accepted[i].id
  {
  }

  /** The failures it lists are the lines of the rows that did not pass. */
  lemma {:induction false} FailureLinesExactly(rows: seq<Row>, line: Line)
    ensures line in FailureLines(rows) <==>
            exists row | row in rows :: row.verdict != Pass && line == ShownRow(row, HEAD_RUNS)
  {
    if rows != [] {
      var init, last := rows[..|rows| - 1], rows[|rows| - 1];
      assert rows == init + [last];
      FailureLinesExactly(init, line);
    }
  }

  /** A head passes on its own iff its probe ran and every kept check exited 0
      on every one of its runs. */
  lemma PassedIff(plan: PinnedPlan, base: BaseReading, comp: string, head: Head)
    requires Readable(plan, base, comp)
    requires base.kept[comp].checks != [] && DistinctIds(base.kept[comp].checks)
    ensures PassedOnItsOwn(plan, base, comp, head) <==>
            && head.site.probed
            && forall check, n | check in base.kept[comp].checks && 1 <= n <= HEAD_RUNS ::
                 head.site.run(plan.digest, check, n).exit == Some(0)
  {
    AnswerPassedIff(plan, base, comp, head.(overrides := []));
    ClearsIsAllRuns(base.kept[comp].checks, head.site, plan.digest);
  }

  lemma ClearsIsAllRuns(checks: seq<Check>, site: Site, digest: string)
    requires checks != []
    ensures (forall c | c in checks :: Clears(site, digest, c)) <==>
            site.probed &&
            forall check, n | check in checks && 1 <= n <= HEAD_RUNS :: site.run(digest, check, n).exit == Some(0)
  {
    assert checks[0] in checks;
    if forall c | c in checks :: Clears(site, digest, c) {
      forall check, n | check in checks && 1 <= n <= HEAD_RUNS ensures site.run(digest, check, n).exit == Some(0) {
        assert Clears(site, digest, check);
      }
    }
  }

  /** The chain from base to head: a component that does not create the
      application passes without an override only if each kept check that
      promises to fail on the base did complete there with a failing exit and
      exits 0 on all runs of the head, and each that promises to pass passed
      on both. */
  lemma {:induction false} PassingHeadIsAMeasuredChange(
    plan: PinnedPlan, site: Site, base: BaseReading, comp: string, head: Head, check: Check)
    requires ValidComponents(plan.components) && IsBaseReading(base, site, plan)
    requires Accepts(plan, site.record, base.exits)
    requires comp in base.kept && !plan.components[comp].createsApp
    requires Readable(plan, base, comp)
    requires PassedOnItsOwn(plan, base, comp, head) && check in base.kept[comp].checks
    ensures site.probed
    ensures var code := site.run(plan.digest, check, 1).exit;
            if check.onBase.FailsOnBase? then code.Some? && code.value !in {0, 126, 127} else code == Some(0)
    ensures forall n | 1 <= n <= HEAD_RUNS :: head.site.run(plan.digest, check, n).exit == Some(0)
  {
    BaseDidAsPromised(plan, site, base, comp, check);
    KeptIsValid(plan, base.exits);
    PassedIff(plan, base, comp, head);
  }

  lemma BaseDidAsPromised(plan: PinnedPlan, site: Site, base: BaseReading, comp: string, check: Check)
    requires ValidComponents(plan.components) && IsBaseReading(base, site, plan)
    requires Accepts(plan, site.record, base.exits)
    requires comp in base.kept && !plan.components[comp].createsApp && check in base.kept[comp].checks
    ensures site.probed
    ensures var code := site.run(plan.digest, check, 1).exit;
            if check.onBase.FailsOnBase? then code.Some? && code.value !in {0, 126, 127} else code == Some(0)
  {
    AcceptedBaseIsMeasured(plan, site.record, base.exits, comp, check);
    assert IsPartReading(base.exits[comp], site, plan.digest, plan.components[comp].checks);
  }

  /** A plan of one check. */
  function OneCheckPlan(digest: string, check: Check): PinnedPlan {
    PinnedPlan(digest, map["c" := ComponentPlan(false, [check])], false)
  }

  function FailedReading(check: Check): BaseReading {
    BaseReading("base", map["c" := map[check.id := Some(1)]], map[], OneCheckPlan("", check).components)
  }

  lemma FailsAsPromised(digest: string, check: Check)
    requires check.onBase.FailsOnBase?
    ensures var plan, site, base := OneCheckPlan(digest, check), SteadySite("base", 1), FailedReading(check);
            && ValidComponents(plan.components) && IsBaseReading(base, site, plan)
            && Accepts(plan, site.record, base.exits)
  {
    var plan, site, base := OneCheckPlan(digest, check), SteadySite("base", 1), FailedReading(check);
    assert IsPartReading(base.exits["c"], site, plan.digest, [check]);
    assert PartClean(false, [check], base.exits["c"]);
  }

  /** There are such heads: a check that fails on the base and passes here. */
  lemma MeasuredChangeHappens(digest: string, check: Check)
    returns (plan: PinnedPlan, site: Site, base: BaseReading, head: Head)
    requires check.onBase.FailsOnBase?
    ensures plan == OneCheckPlan(digest, check) && base == FailedReading(check)
    ensures site == SteadySite("base", 1) && head.site == SteadySite("head", 0)
    ensures ValidComponents(plan.components) && IsBaseReading(base, site, plan)
    ensures Accepts(plan, site.record, base.exits)
    ensures "c" in base.kept && !plan.components["c"].createsApp && Readable(plan, base, "c")
    ensures check in base.kept["c"].checks && PassedOnItsOwn(plan, base, "c", head)
  {
    plan, site, base := OneCheckPlan(digest, check), SteadySite("base", 1), FailedReading(check);
    FailsAsPromised(digest, check);
    head := Head("head", 1, SteadySite("head", 0), [], NoLog, "", true, true);
    PassedIff(plan, base, "c", head);
  }

  /** A head whose probe never ran does not pass on its own: every kept check
      is reported as not run, and there is at least one. */
  lemma UnprobedHeadNeverPasses(plan: PinnedPlan, site: Site, base: BaseReading, comp: string, head: Head)
    requires ValidComponents(plan.components) && IsBaseReading(base, site, plan)
    requires comp in base.kept && Readable(plan, base, comp) && !head.site.probed
    ensures !PassedOnItsOwn(plan, base, comp, head)
    ensures forall r | r in DocumentOf(plan, base, comp, head, HeadRunsOf(plan, base, comp, head.site)).record.rows ::
              r.verdict == NotRun && r.headExits == []
  {
    KeptIsValid(plan, base.exits);
    PassedIff(plan, base, comp, head);
    var checks := base.kept[comp].checks;
    forall i | 0 <= i < |checks|
      ensures var row :=
              RowOf(comp, checks[i], base.exits[comp][checks[i].id], HeadRunsOf(plan, base, comp, head.site));
              row.verdict == NotRun && row.headExits == []
    {
      OwnHeadRuns(plan, base, comp, head.site, checks[i]);
    }
  }

  // --- The progress log decides nothing --------------------------------------

  /** No progress text changes what fails or whether the head passes. */
  lemma DisputesDecideNothing(plan: PinnedPlan, base: BaseReading, comp: string, head: Head, other: Progress,
                              runs: Runs)
    requires Readable(plan, base, comp)
    ensures var one := OutcomeOf(DocumentOf(plan, base, comp, head, runs), base.kept[comp].checks);
            var two := OutcomeOf(DocumentOf(plan, base, comp, head.(progress := other), runs), base.kept[comp].checks);
            one.passed == two.passed && one.failing == two.failing && one.heldOut == two.heldOut
  {
  }
}
