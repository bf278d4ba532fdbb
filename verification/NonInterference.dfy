/**
 Held-out checks stay held out: two heads that differ only in what a held-out
 check says, runs and prints are shown in exactly the same lines, to the
 engineer and to everybody else.

 Sources: kstrl/acceptance/acceptance_lines.py, acceptance_record.py and
 acceptance.py (owner decision 3: a held-out check is named by its id alone).
 */
module NonInterference {
  import opened Checks
  import opened BaseScreening
  import opened HeadRecord
  import opened Lines
  import opened JudgeHead
  import opened Carried

  /** Two checks the engineer cannot tell apart: the same visible check, or two
      held-out ones with one id, whatever they run. */
  predicate Alike(a: Check, b: Check) {
    a.id == b.id && a.heldOut == b.heldOut && (!a.heldOut ==> a == b)
  }

  predicate ChecksAlike(a: seq<Check>, b: seq<Check>) {
    |a| == |b| && forall i | 0 <= i < |a| :: Alike(a[i], b[i])
  }

  /** Two stages with one exit; what a held-out one printed may differ. */
  predicate StagesAlike(heldOut: bool, a: seq<Stage>, b: seq<Stage>) {
    |a| == |b| && forall i | 0 <= i < |a| :: a[i].exit == b[i].exit && (!heldOut ==> a[i] == b[i])
  }

  predicate RunsAlike(comp: string, checks: seq<Check>, a: Runs, b: Runs) {
    forall c | c in checks :: StagesAlike(c.heldOut, StagesOf(a, (comp, c.id)), StagesOf(b, (comp, c.id)))
  }

  /** Rows that differ at most in the digest of a check's entry. */
  predicate RowsAlike(a: seq<Row>, b: seq<Row>) {
    |a| == |b| && forall i | 0 <= i < |a| :: a[i].(sha256 := "") == b[i].(sha256 := "")
  }

  // --- The record ------------------------------------------------------------

  lemma RowsStayAlike(comp: string, a: seq<Check>, b: seq<Check>, exitsA: map<string, Exit>, exitsB: map<string, Exit>,
                      runsA: Runs, runsB: Runs)
    requires CoversPart(exitsA, a) && CoversPart(exitsB, b) && ChecksAlike(a, b)
    requires forall c | c in a :: c.id in exitsB && exitsA[c.id] == exitsB[c.id]
    requires RunsAlike(comp, a, runsA, runsB)
    ensures RowsAlike(RowsOf(comp, a, exitsA, runsA), RowsOf(comp, b, exitsB, runsB))
  {
    forall i | 0 <= i < |a|
      ensures RowOf(comp, a[i], exitsA[a[i].id], runsA).(sha256 := "") ==
              RowOf(comp, b[i], exitsB[b[i].id], runsB).(sha256 := "")
    {
      assert a[i] in a && b[i] in b && Alike(a[i], b[i]);
      assert Exits(StagesOf(runsA, (comp, a[i].id))) == Exits(StagesOf(runsB, (comp, a[i].id)));
    }
  }

  lemma {:induction false} SameFailing(a: seq<Row>, b: seq<Row>)
    requires RowsAlike(a, b)
    ensures Failing(a) == Failing(b) && HeldOutFailures(a) == HeldOutFailures(b)
    ensures FailureLines(a) == FailureLines(b) && Ids(a) == Ids(b)
  {
    if a != [] {
      SameFailing(a[..|a| - 1], b[..|b| - 1]);
      assert a[|a| - 1].(sha256 := "") == b[|b| - 1].(sha256 := "");
    }
    forall i | 0 <= i < |a| ensures a[i].id == b[i].id {
      assert a[i].(sha256 := "") == b[i].(sha256 := "");
    }
  }

  lemma {:induction false} SameLookup(a: seq<Check>, b: seq<Check>, id: string)
    requires ChecksAlike(a, b)
    ensures ById(a, id).Some? <==> ById(b, id).Some?
    ensures ById(a, id).Some? ==> Alike(ById(a, id).value, ById(b, id).value)
  {
    if a != [] {
      assert Alike(a[|a| - 1], b[|b| - 1]);
      SameLookup(a[..|a| - 1], b[..|b| - 1], id);
    }
  }

  lemma {:induction false} SameVisible(a: seq<Check>, b: seq<Check>)
    requires ChecksAlike(a, b)
    ensures Visible(a) == Visible(b)
  {
    if a != [] {
      assert Alike(a[|a| - 1], b[|b| - 1]);
      SameVisible(a[..|a| - 1], b[..|b| - 1]);
    }
  }

  lemma {:induction false} SameVisibleFailures(
    comp: string, a: seq<Check>, b: seq<Check>, failing: seq<string>, runsA: Runs, runsB: Runs)
    requires ChecksAlike(a, b) && RunsAlike(comp, a, runsA, runsB)
    ensures VisibleFailures(comp, a, failing, runsA) == VisibleFailures(comp, b, failing, runsB)
  {
    if a != [] {
      var last := a[|a| - 1];
      assert Alike(last, b[|b| - 1]) && last in a;
      assert forall c | c in a[..|a| - 1] :: c in a;
      SameVisibleFailures(comp, a[..|a| - 1], b[..|b| - 1], failing, runsA, runsB);
      if !last.heldOut {
        assert StagesOf(runsA, (comp, last.id)) == StagesOf(runsB, (comp, last.id));
      }
    }
  }

  // --- The disputes ----------------------------------------------------------

  lemma SameRefusal(kind: Kind, a: seq<Check>, b: seq<Check>, failing: seq<string>, taken: seq<Dispute>)
    requires !kind.NotADispute? && ChecksAlike(a, b)
    ensures Refusal(kind, a, failing, taken) == Refusal(kind, b, failing, taken)
  {
    if kind.WellFormed? { SameLookup(a, b, kind.id); }
  }

  lemma {:induction false} SameTaken(
    lines: seq<ProgressLine>, start: nat, a: seq<Check>, b: seq<Check>, failing: seq<string>, n: nat)
    requires start <= n <= |lines| && ChecksAlike(a, b)
    ensures TakenIn(lines, start, a, failing, n) == TakenIn(lines, start, b, failing, n)
    ensures RejectedIn(lines, start, a, failing, n) == RejectedIn(lines, start, b, failing, n)
  {
    if n > start {
      SameTaken(lines, start, a, b, failing, n - 1);
      var kind := lines[n - 1].kind;
      if !kind.NotADispute? {
        SameRefusal(kind, a, b, failing, TakenIn(lines, start, a, failing, n - 1));
        if kind.WellFormed? { SameLookup(a, b, kind.id); }
        RefusalIffNotTaken(lines, start, a, failing, n - 1);
        RefusalIffNotTaken(lines, start, b, failing, n - 1);
      }
    }
  }

  lemma SameDisputes(progress: Progress, a: seq<Check>, b: seq<Check>, failing: seq<string>)
    requires ChecksAlike(a, b)
    ensures DisputesOf(progress, a, failing) == DisputesOf(progress, b, failing)
  {
    if progress.Log? {
      SameTaken(progress.lines, LatestEntry(progress.lines), a, b, failing, |progress.lines|);
    }
  }

  // --- The lines -------------------------------------------------------------

  lemma {:induction false} SameToldRows(
    a: seq<Row>, b: seq<Row>, runs: nat, checksA: seq<Check>, checksB: seq<Check>, shown: seq<VisibleFailure>)
    requires RowsAlike(a, b) && Visible(checksA) == Visible(checksB)
    ensures ToldRows(a, runs, checksA, shown) == ToldRows(b, runs, checksB, shown)
  {
    if a != [] {
      assert a[|a| - 1].(sha256 := "") == b[|b| - 1].(sha256 := "");
      SameToldRows(a[..|a| - 1], b[..|b| - 1], runs, checksA, checksB, shown);
    }
  }

  lemma SameShownRows(a: seq<Row>, b: seq<Row>, runs: nat)
    requires RowsAlike(a, b)
    ensures ShownRows(a, runs) == ShownRows(b, runs)
  {
    forall i | 0 <= i < |a| ensures ShownRow(a[i], runs) == ShownRow(b[i], runs) {
      assert a[i].(sha256 := "") == b[i].(sha256 := "");
    }
  }

  /** Two documents that agree on everything but entry digests, and on the
      plan digest only as far as it is shown. */
  predicate DocumentsAlike(a: Document, b: Document) {
    && RowsAlike(a.record.rows, b.record.rows)
    && Prefix(a.record.planId, 12) == Prefix(b.record.planId, 12)
    && a.record.component == b.record.component && a.record.attempt == b.record.attempt
    && a.record.designed == b.record.designed && a.record.headSha == b.record.headSha
    && a.record.base == b.record.base && a.record.headRuns == b.record.headRuns
    && a.record.replay == b.record.replay
    && a.override == b.override && a.visibleFailures == b.visibleFailures
    && a.dispute == b.dispute && a.sandbox == b.sandbox
  }

  lemma SameStopLines(a: Document, b: Document)
    requires DocumentsAlike(a, b)
    ensures Failing(a.record.rows) == Failing(b.record.rows)
    ensures StopLines(a) == StopLines(b) && RenderLines(a) == RenderLines(b)
  {
    SameFailing(a.record.rows, b.record.rows);
    SameShownRows(a.record.rows, b.record.rows, a.record.headRuns);
  }

  lemma SameOutcome(a: Document, b: Document, checksA: seq<Check>, checksB: seq<Check>)
    requires DocumentsAlike(a, b) && ChecksAlike(checksA, checksB)
    ensures StopLines(a) == StopLines(b) && RenderLines(a) == RenderLines(b)
    ensures ToldLines(a, checksA) == ToldLines(b, checksB)
    ensures OutcomeOf(a, checksA) == OutcomeOf(b, checksB)
  {
    SameStopLines(a, b);
    SameFailing(a.record.rows, b.record.rows);
    SameVisible(checksA, checksB);
    SameToldRows(a.record.rows, b.record.rows, a.record.headRuns, checksA, checksB, a.visibleFailures);
  }

  // --- The theorem -----------------------------------------------------------

  /** Two sites that exit alike on every check of a component, and print alike
      on the visible ones. */
  ghost predicate SitesAlike(a: Site, digestA: string, checksA: seq<Check>, b: Site, digestB: string,
                             checksB: seq<Check>)
    requires |checksA| == |checksB|
  {
    && a.record == b.record && a.probed == b.probed
    && forall i, n | 0 <= i < |checksA| && 1 <= n <= HEAD_RUNS ::
         StagesAlike(checksA[i].heldOut, [a.run(digestA, checksA[i], n)], [b.run(digestB, checksB[i], n)])
  }

  lemma RunsStayAlike(planA: PinnedPlan, planB: PinnedPlan, baseA: BaseReading, baseB: BaseReading, comp: string,
                      a: Site, b: Site)
    requires Readable(planA, baseA, comp) && Readable(planB, baseB, comp)
    requires DistinctIds(baseA.kept[comp].checks) && DistinctIds(baseB.kept[comp].checks)
    requires ChecksAlike(baseA.kept[comp].checks, baseB.kept[comp].checks)
    requires SitesAlike(a, planA.digest, baseA.kept[comp].checks, b, planB.digest, baseB.kept[comp].checks)
    ensures RunsAlike(comp, baseA.kept[comp].checks, HeadRunsOf(planA, baseA, comp, a),
            HeadRunsOf(planB, baseB, comp, b))
  {
    var checksA, checksB := baseA.kept[comp].checks, baseB.kept[comp].checks;
    forall c | c in checksA
      ensures StagesAlike(c.heldOut, StagesOf(HeadRunsOf(planA, baseA, comp, a), (comp, c.id)),
                          StagesOf(HeadRunsOf(planB, baseB, comp, b), (comp, c.id)))
    {
      var i :| 0 <= i < |checksA| && checksA[i] == c;
      assert Alike(checksA[i], checksB[i]) && checksB[i] in checksB;
      OwnHeadRuns(planA, baseA, comp, a, c);
      OwnHeadRuns(planB, baseB, comp, b, checksB[i]);
      CheckRunsAlike(a, planA.digest, checksA, b, planB.digest, checksB, i);
    }
  }

  lemma CheckRunsAlike(a: Site, digestA: string, checksA: seq<Check>, b: Site, digestB: string, checksB: seq<Check>,
                       i: nat)
    requires |checksA| == |checksB| && SitesAlike(a, digestA, checksA, b, digestB, checksB) && i < |checksA|
    ensures StagesAlike(checksA[i].heldOut, RunsOf(a, digestA, checksA[i], HEAD_RUNS),
                        RunsOf(b, digestB, checksB[i], HEAD_RUNS))
  {
    var all, all' := RunsOf(a, digestA, checksA[i], HEAD_RUNS), RunsOf(b, digestB, checksB[i], HEAD_RUNS);
    forall n | 0 <= n < HEAD_RUNS
      ensures all[n].exit == all'[n].exit && (!checksA[i].heldOut ==> all[n] == all'[n])
    {
      var one, two := [a.run(digestA, checksA[i], n + 1)], [b.run(digestB, checksB[i], n + 1)];
      assert StagesAlike(checksA[i].heldOut, one, two);
      assert one[0].exit == two[0].exit;
    }
  }

  /** What two runs must share for their outcomes to be compared: everything
      but what held-out checks say, run and print. */
  ghost predicate DifferOnlyHeldOut(
    planA: PinnedPlan, planB: PinnedPlan, baseA: BaseReading, baseB: BaseReading, comp: string)
  {
    && Readable(planA, baseA, comp) && Readable(planB, baseB, comp)
    && DistinctIds(baseA.kept[comp].checks) && DistinctIds(baseB.kept[comp].checks)
    && Prefix(planA.digest, 12) == Prefix(planB.digest, 12) && planA.designed == planB.designed
    && ChecksAlike(baseA.kept[comp].checks, baseB.kept[comp].checks)
    && (forall c | c in baseA.kept[comp].checks ::
          c.id in baseB.exits[comp] && baseA.exits[comp][c.id] == baseB.exits[comp][c.id])
    && (if comp in baseA.said then baseA.said[comp] else "") == (if comp in baseB.said then baseB.said[comp] else "")
  }

  lemma DocumentsStayAlike(
    planA: PinnedPlan, planB: PinnedPlan, baseA: BaseReading, baseB: BaseReading, comp: string, headA: Head,
    siteB: Site, runsA: Runs, runsB: Runs)
    requires DifferOnlyHeldOut(planA, planB, baseA, baseB, comp)
    requires headA.site.record == siteB.record && RunsAlike(comp, baseA.kept[comp].checks, runsA, runsB)
    ensures DocumentsAlike(DocumentOf(planA, baseA, comp, headA, runsA),
                           DocumentOf(planB, baseB, comp, headA.(site := siteB), runsB))
  {
    var checksA, checksB := baseA.kept[comp].checks, baseB.kept[comp].checks;
    RowsStayAlike(comp, checksA, checksB, baseA.exits[comp], baseB.exits[comp], runsA, runsB);
    var rowsA, rowsB :=
        RowsOf(comp, checksA, baseA.exits[comp], runsA), RowsOf(comp, checksB, baseB.exits[comp], runsB);
    SameFailing(rowsA, rowsB);
    SameVisibleFailures(comp, checksA, checksB, Failing(rowsA), runsA, runsB);
    SameDisputes(headA.progress, checksA, checksB, Failing(rowsA));
    assert DocumentOf(planA, baseA, comp, headA, runsA).record.rows == rowsA;
    assert DocumentOf(planB, baseB, comp, headA.(site := siteB), runsB).record.rows == rowsB;
  }

  /** Change a held-out check's command, criterion, entry digest and output,
      and keep its exits: the whole outcome of the head is the same, so no
      reader of the retry, the halt, the terminal or the pull request learns
      anything of it. */
  lemma HeldOutNonInterference(
    planA: PinnedPlan, planB: PinnedPlan, baseA: BaseReading, baseB: BaseReading, comp: string, headA: Head,
    siteB: Site)
    requires DifferOnlyHeldOut(planA, planB, baseA, baseB, comp)
    requires SitesAlike(headA.site, planA.digest, baseA.kept[comp].checks, siteB, planB.digest, baseB.kept[comp].checks)
    ensures var headB := headA.(site := siteB);
            OutcomeOf(DocumentOf(planA, baseA, comp, headA, HeadRunsOf(planA, baseA, comp, headA.site)),
                      baseA.kept[comp].checks) ==
            OutcomeOf(DocumentOf(planB, baseB, comp, headB, HeadRunsOf(planB, baseB, comp, siteB)),
                      baseB.kept[comp].checks)
  {
    var runsA, runsB := HeadRunsOf(planA, baseA, comp, headA.site), HeadRunsOf(planB, baseB, comp, siteB);
    RunsStayAlike(planA, planB, baseA, baseB, comp, headA.site, siteB);
    DocumentsStayAlike(planA, planB, baseA, baseB, comp, headA, siteB, runsA, runsB);
    SameOutcome(DocumentOf(planA, baseA, comp, headA, runsA),
        DocumentOf(planB, baseB, comp, headA.(site := siteB), runsB),
                baseA.kept[comp].checks, baseB.kept[comp].checks);
  }

  // --- From the plans ---------------------------------------------------------

  /** Two plans that differ only in what held-out checks say and run: the same
      components, and pairwise alike checks that promise the same of the base. */
  predicate PlansAlike(a: PinnedPlan, b: PinnedPlan) {
    && a.designed == b.designed && Prefix(a.digest, 12) == Prefix(b.digest, 12)
    && a.components.Keys == b.components.Keys
    && forall comp | comp in a.components :: PartsAlike(a.components[comp], b.components[comp])
  }

  predicate PartsAlike(a: ComponentPlan, b: ComponentPlan) {
    a.createsApp == b.createsApp && PromisesAlike(a.checks, b.checks)
  }

  predicate PromisesAlike(a: seq<Check>, b: seq<Check>) {
    ChecksAlike(a, b) && forall i | 0 <= i < |a| :: a[i].onBase == b[i].onBase
  }

  /** Two lists of checks, with the same ids, that exit alike on two bases. */
  ghost predicate ExitAlike(siteA: Site, digestA: string, a: seq<Check>, siteB: Site, digestB: string, b: seq<Check>) {
    |a| == |b| && forall i | 0 <= i < |a| ::
      a[i].id == b[i].id && ExitOnBase(siteA, digestA, a[i]) == ExitOnBase(siteB, digestB, b[i])
  }

  /** Two base sites on which the checks of such plans exit alike. */
  ghost predicate BasesAlike(planA: PinnedPlan, siteA: Site, planB: PinnedPlan, siteB: Site, comp: string)
    requires comp in planA.components && comp in planB.components
  {
    ExitAlike(siteA, planA.digest, planA.components[comp].checks, siteB, planB.digest, planB.components[comp].checks)
  }

  lemma ExitsWithin(a: seq<Check>, b: seq<Check>, exitsA: map<string, Exit>, exitsB: map<string, Exit>,
                    siteA: Site, siteB: Site, digestA: string, digestB: string)
    requires ExitAlike(siteA, digestA, a, siteB, digestB, b)
    requires IsPartReading(exitsA, siteA, digestA, a) && IsPartReading(exitsB, siteB, digestB, b)
    ensures forall id | id in exitsA :: id in exitsB && exitsA[id] == exitsB[id]
  {
    forall id | id in exitsA ensures id in exitsB && exitsA[id] == exitsB[id] {
      var c :| c in a && c.id == id;
      var i :| 0 <= i < |a| && a[i] == c;
      assert b[i] in b && b[i].id == id;
    }
  }

  lemma ExitAlikeSwap(siteA: Site, digestA: string, a: seq<Check>, siteB: Site, digestB: string, b: seq<Check>)
    requires ExitAlike(siteA, digestA, a, siteB, digestB, b)
    ensures ExitAlike(siteB, digestB, b, siteA, digestA, a)
  {
    forall i | 0 <= i < |b|
      ensures b[i].id == a[i].id && ExitOnBase(siteB, digestB, b[i]) == ExitOnBase(siteA, digestA, a[i])
    {
      assert a[i].id == b[i].id;
    }
  }

  lemma SameExits(a: seq<Check>, b: seq<Check>, exitsA: map<string, Exit>, exitsB: map<string, Exit>,
                  siteA: Site, siteB: Site, digestA: string, digestB: string)
    requires ExitAlike(siteA, digestA, a, siteB, digestB, b)
    requires IsPartReading(exitsA, siteA, digestA, a) && IsPartReading(exitsB, siteB, digestB, b)
    ensures exitsA == exitsB
  {
    ExitAlikeSwap(siteA, digestA, a, siteB, digestB, b);
    ExitsWithin(a, b, exitsA, exitsB, siteA, siteB, digestA, digestB);
    ExitsWithin(b, a, exitsB, exitsA, siteB, siteA, digestB, digestA);
  }

  lemma SameHolds(a: seq<Check>, b: seq<Check>, exits: map<string, Exit>)
    requires PromisesAlike(a, b) && CoversPart(exits, a) && CoversPart(exits, b)
    ensures Holds(a, exits) ==> Holds(b, exits)
  {
    if Holds(a, exits) {
      var c :| c in a && c.onBase.FailsOnBase? && VerdictOf(exits[c.id]) == Fail;
      var i :| 0 <= i < |a| && a[i] == c;
      assert Alike(a[i], b[i]) && b[i] in b;
    }
  }

  lemma PromisesSwap(a: seq<Check>, b: seq<Check>)
    requires PromisesAlike(a, b)
    ensures PromisesAlike(b, a)
  {
    forall i | 0 <= i < |b| ensures Alike(b[i], a[i]) { assert Alike(a[i], b[i]); }
  }

  lemma RemovedStayAlike(a: seq<Check>, b: seq<Check>, exits: map<string, Exit>)
    requires PromisesAlike(a, b) && CoversPart(exits, a) && CoversPart(exits, b)
    ensures RemovedIds(a, exits) <= RemovedIds(b, exits)
  {
    SameHolds(a, b, exits);
    PromisesSwap(a, b);
    SameHolds(b, a, exits);
    forall id | id in RemovedIds(a, exits) ensures id in RemovedIds(b, exits) {
      var c :| c in a && IsRemoved(c, a, exits) && c.id == id;
      var i :| 0 <= i < |a| && a[i] == c;
      assert Alike(a[i], b[i]) && b[i] in b && IsRemoved(b[i], b, exits);
    }
  }

  lemma AlikeMore(a: seq<Check>, b: seq<Check>, x: Check, y: Check)
    requires PromisesAlike(a, b) && Alike(x, y) && x.onBase == y.onBase
    ensures PromisesAlike(a + [x], b + [y])
  {
    forall i | 0 <= i <= |a| ensures Alike((a + [x])[i], (b + [y])[i]) && (a + [x])[i].onBase == (b + [y])[i].onBase {
      if i < |a| { assert Alike(a[i], b[i]); }
    }
  }

  lemma AlikeLess(a: seq<Check>, b: seq<Check>)
    requires PromisesAlike(a, b) && a != []
    ensures PromisesAlike(a[..|a| - 1], b[..|b| - 1])
    ensures Alike(a[|a| - 1], b[|b| - 1]) && a[|a| - 1].onBase == b[|b| - 1].onBase
  {
    var n := |a| - 1;
    assert Alike(a[n], b[n]);
    assert forall i | 0 <= i < n :: a[..n][i] == a[i] && b[..n][i] == b[i];
  }

  lemma {:induction false} WithoutStaysAlike(a: seq<Check>, b: seq<Check>, ids: set<string>)
    requires PromisesAlike(a, b)
    ensures PromisesAlike(Without(a, ids), Without(b, ids))
  {
    if a != [] {
      var x, y := a[|a| - 1], b[|b| - 1];
      AlikeLess(a, b);
      WithoutStaysAlike(a[..|a| - 1], b[..|b| - 1], ids);
      if x.id !in ids { AlikeMore(Without(a[..|a| - 1], ids), Without(b[..|b| - 1], ids), x, y); }
    }
  }

  /** Screening two parts alike keeps alike parts. */
  lemma KeptStaysAlike(designed: bool, a: seq<Check>, b: seq<Check>, exits: map<string, Exit>)
    requires PromisesAlike(a, b) && CoversPart(exits, a) && CoversPart(exits, b)
    ensures PromisesAlike(KeptPart(designed, a, exits), KeptPart(designed, b, exits))
  {
    PromisesSwap(a, b);
    RemovedStayAlike(a, b, exits);
    RemovedStayAlike(b, a, exits);
    assert RemovedIds(a, exits) == RemovedIds(b, exits);
    WithoutStaysAlike(a, b, RemovedIds(a, exits));
  }

  /** The readings of two alike plans on two alike bases are alike. */
  lemma ReadingsStayAlike(planA: PinnedPlan, siteA: Site, baseA: BaseReading,
                          planB: PinnedPlan, siteB: Site, baseB: BaseReading, comp: string)
    requires ValidComponents(planA.components) && ValidComponents(planB.components)
    requires IsBaseReading(baseA, siteA, planA) && IsBaseReading(baseB, siteB, planB)
    requires PlansAlike(planA, planB) && comp in planA.components && BasesAlike(planA, siteA, planB, siteB, comp)
    ensures baseA.exits[comp] == baseB.exits[comp]
    ensures comp in baseA.kept <==> comp in baseB.kept
    ensures comp in baseA.kept ==>
              PromisesAlike(baseA.kept[comp].checks, baseB.kept[comp].checks) &&
              baseA.kept[comp].createsApp == baseB.kept[comp].createsApp
  {
    var a, b := planA.components[comp], planB.components[comp];
    assert PartsAlike(a, b);
    assert IsPartReading(baseA.exits[comp], siteA, planA.digest, a.checks);
    assert IsPartReading(baseB.exits[comp], siteB, planB.digest, b.checks);
    SameExits(a.checks, b.checks, baseA.exits[comp], baseB.exits[comp], siteA, siteB, planA.digest, planB.digest);
    KeptStaysAlike(planA.designed, a.checks, b.checks, baseA.exits[comp]);
    KeptAt(planA, baseA.exits, comp);
    KeptAt(planB, baseB.exits, comp);
  }

  lemma SameSaid(baseA: BaseReading, baseB: BaseReading, comp: string, a: ComponentPlan, b: ComponentPlan)
    requires comp in baseA.kept && comp in baseB.kept && a.createsApp == b.createsApp
    requires comp in baseA.exits && comp in baseB.exits && baseA.exits[comp] == baseB.exits[comp]
    requires ChecksAlike(baseA.kept[comp].checks, baseB.kept[comp].checks)
    requires SaysOf(baseA, comp, a) && SaysOf(baseB, comp, b)
    ensures (if comp in baseA.said then baseA.said[comp] else "") ==
            (if comp in baseB.said then baseB.said[comp] else "")
  {
    var checksA, checksB := baseA.kept[comp].checks, baseB.kept[comp].checks;
    forall i | 0 <= i < |checksA|
      ensures checksA[i].id == checksB[i].id && checksA[i] in checksA && checksB[i] in checksB
    {
      assert Alike(checksA[i], checksB[i]);
    }
  }

  /** Exits alike on the planned checks are exits alike on the kept ones. */
  lemma SitesStayAlike(a: Site, digestA: string, plannedA: seq<Check>, keptA: seq<Check>,
                       b: Site, digestB: string, plannedB: seq<Check>, keptB: seq<Check>)
    requires ChecksAlike(plannedA, plannedB) && ChecksAlike(keptA, keptB) && DistinctIds(plannedB)
    requires forall c | c in keptA :: c in plannedA
    requires forall c | c in keptB :: c in plannedB
    requires SitesAlike(a, digestA, plannedA, b, digestB, plannedB)
    ensures SitesAlike(a, digestA, keptA, b, digestB, keptB)
  {
    forall i, n | 0 <= i < |keptA| && 1 <= n <= HEAD_RUNS
      ensures StagesAlike(keptA[i].heldOut, [a.run(digestA, keptA[i], n)], [b.run(digestB, keptB[i], n)])
    {
      assert keptA[i] in keptA && keptB[i] in keptB && Alike(keptA[i], keptB[i]);
      var j :| 0 <= j < |plannedA| && plannedA[j] == keptA[i];
      assert Alike(plannedA[j], plannedB[j]) && plannedB[j] in plannedB;
      SameIdSameCheck(plannedB, plannedB[j], keptB[i]);
    }
  }

  /** From plans to outcome: take any plan, change what its held-out checks say,
      run and print, and keep their exits on the base and on the head. The base
      keeps the same checks, and the head's whole outcome is the same. */
  lemma HeldOutStaysHidden(
    planA: PinnedPlan, baseSiteA: Site, baseA: BaseReading, planB: PinnedPlan, baseSiteB: Site, baseB: BaseReading,
    comp: string, headA: Head, siteB: Site)
    requires ValidComponents(planA.components) && ValidComponents(planB.components)
    requires IsBaseReading(baseA, baseSiteA, planA) && IsBaseReading(baseB, baseSiteB, planB)
    requires PlansAlike(planA, planB) && comp in planA.components &&
             BasesAlike(planA, baseSiteA, planB, baseSiteB, comp)
    requires SaysOf(baseA, comp, planA.components[comp]) && SaysOf(baseB, comp, planB.components[comp])
    requires SitesAlike(headA.site, planA.digest, planA.components[comp].checks,
                        siteB, planB.digest, planB.components[comp].checks)
    ensures comp in baseA.kept <==> comp in baseB.kept
    ensures comp in baseA.kept ==>
              && Readable(planA, baseA, comp) && Readable(planB, baseB, comp)
              && OutcomeOf(DocumentOf(planA, baseA, comp, headA, HeadRunsOf(planA, baseA, comp, headA.site)),
                           baseA.kept[comp].checks) ==
                 OutcomeOf(DocumentOf(planB, baseB, comp, headA.(site := siteB), HeadRunsOf(planB, baseB, comp, siteB)),
                           baseB.kept[comp].checks)
  {
    ReadingsStayAlike(planA, baseSiteA, baseA, planB, baseSiteB, baseB, comp);
    if comp in baseA.kept {
      OnlyHeldOutDiffers(planA, baseSiteA, baseA, planB, baseSiteB, baseB, comp);
      assert PartsAlike(planA.components[comp], planB.components[comp]);
      SitesStayAlike(headA.site, planA.digest, planA.components[comp].checks, baseA.kept[comp].checks,
                     siteB, planB.digest, planB.components[comp].checks, baseB.kept[comp].checks);
      HeldOutNonInterference(planA, planB, baseA, baseB, comp, headA, siteB);
    }
  }

  lemma OnlyHeldOutDiffers(
    planA: PinnedPlan, siteA: Site, baseA: BaseReading, planB: PinnedPlan, siteB: Site, baseB: BaseReading,
    comp: string)
    requires ValidComponents(planA.components) && ValidComponents(planB.components)
    requires IsBaseReading(baseA, siteA, planA) && IsBaseReading(baseB, siteB, planB)
    requires PlansAlike(planA, planB) && comp in planA.components && BasesAlike(planA, siteA, planB, siteB, comp)
    requires SaysOf(baseA, comp, planA.components[comp]) && SaysOf(baseB, comp, planB.components[comp])
    requires comp in baseA.kept
    ensures DifferOnlyHeldOut(planA, planB, baseA, baseB, comp)
    ensures forall c | c in baseA.kept[comp].checks :: c in planA.components[comp].checks
    ensures forall c | c in baseB.kept[comp].checks :: c in planB.components[comp].checks
  {
    ReadingsStayAlike(planA, siteA, baseA, planB, siteB, baseB, comp);
    assert PartsAlike(planA.components[comp], planB.components[comp]);
    KeptOf(planA, siteA, baseA, comp);
    KeptOf(planB, siteB, baseB, comp);
    SameSaid(baseA, baseB, comp, planA.components[comp], planB.components[comp]);
  }

  /** What a reading keeps of a component are planned checks with exits. */
  lemma KeptOf(plan: PinnedPlan, site: Site, base: BaseReading, comp: string)
    requires ValidComponents(plan.components) && IsBaseReading(base, site, plan)
    requires comp in plan.components && comp in base.kept
    ensures Readable(plan, base, comp) && DistinctIds(base.kept[comp].checks)
    ensures forall c | c in base.kept[comp].checks :: c in plan.components[comp].checks
  {
    KeptAt(plan, base.exits, comp);
    KeptIsCovered(plan, base.exits);
    KeptIsValid(plan, base.exits);
  }

  // --- What is told is not empty either --------------------------------------

  /** The retry names every check that did not pass, and for a visible one it
      shows the criterion and the command. */
  lemma {:induction false} ToldNamesEveryFailure(
    rows: seq<Row>, runs: nat, checks: seq<Check>, shown: seq<VisibleFailure>, row: Row)
    requires row in rows && row.verdict != Pass
    ensures ShownRow(row, runs) in ToldRows(rows, runs, checks, shown)
    ensures VisibleById(checks, row.id).Some? ==>
              var check := VisibleById(checks, row.id).value;
              Criterion(check.criterion) in ToldRows(rows, runs, checks, shown) &&
              Command(check.argv) in ToldRows(rows, runs, checks, shown)
  {
    var init, last := rows[..|rows| - 1], rows[|rows| - 1];
    assert rows == init + [last];
    if row == last {
      var added := ToldRow(last, runs, checks, shown);
      assert added[0] == ShownRow(row, runs);
      assert VisibleById(checks, row.id).Some? ==>
          added[1] == Criterion(VisibleById(checks, row.id).value.criterion) &&
          added[2] == Command(VisibleById(checks, row.id).value.argv);
    } else {
      ToldNamesEveryFailure(init, runs, checks, shown, row);
    }
  }

  // --- Phase 3 prints no more -------------------------------------------------

  predicate WantedAlike(a: seq<Wanted>, b: seq<Wanted>) {
    |a| == |b| && forall i | 0 <= i < |a| :: a[i].comp == b[i].comp && Alike(a[i].check, b[i].check)
  }

  /** The evidence of Phase 3, which is printed, says of a held-out check no
      more than its id, its component, its exits and its verdict. */
  lemma {:induction false} Phase3HidesHeldOut(a: seq<Wanted>, b: seq<Wanted>, runsA: Runs, runsB: Runs)
    requires WantedAlike(a, b)
    requires forall w | w in a :: StagesAlike(w.check.heldOut, StagesOf(runsA, w.Key()), StagesOf(runsB, w.Key()))
    ensures FailingLines(runsA, a) == FailingLines(runsB, b)
    ensures FailedHeldOut(runsA, a) == FailedHeldOut(runsB, b)
  {
    if a != [] {
      var n := |a| - 1;
      assert a[..n + 1] == a && b[..n + 1] == b;
      assert Alike(a[n].check, b[n].check) && a[n] in a;
      assert forall w | w in a[..n] :: w in a;
      Phase3HidesHeldOut(a[..n], b[..n], runsA, runsB);
      SameFailingLine(a[n], b[n], runsA, runsB);
      FailingMore(runsA, a, n);
      FailingMore(runsB, b, n);
    }
  }

  lemma SameFailingLine(a: Wanted, b: Wanted, runsA: Runs, runsB: Runs)
    requires a.comp == b.comp && Alike(a.check, b.check)
    requires StagesAlike(a.check.heldOut, StagesOf(runsA, a.Key()), StagesOf(runsB, a.Key()))
    ensures FailingLine(runsA, a) == FailingLine(runsB, b) && VerdictIn(runsA, a) == VerdictIn(runsB, b)
  {
    assert Exits(StagesOf(runsA, a.Key())) == Exits(StagesOf(runsB, b.Key()));
    if !a.check.heldOut { assert StagesOf(runsA, a.Key()) == StagesOf(runsB, b.Key()); }
  }
}
