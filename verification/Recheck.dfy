/**
 `ks recheck`: run a record's saved checks again at the recorded head and say
 whether the verdict the record states, the verdict of the exits it records
 and the verdict of the new exits are the same.

 Source: kstrl/acceptance/recheck.py.
 */
module Recheck {
  import opened Checks
  import opened BaseScreening
  import opened HeadRecord
  import opened JudgeHead

  datatype Refusal =
    | FilesChanged | NotARecord | SavedPlanUnusable | NoStack | OtherStack | DoesNotNameItsChecks | DidNotRun

  /** What a recheck prints of one check. */
  datatype Comparison = Comparison(id: string, stated: Verdict, recorded: Verdict, now: Verdict, exits: seq<Exit>) {
    predicate Agrees() { stated == recorded == now }
  }

  /** What lies beside a record: the files' digests against the index, the plan
      copy (None when it cannot be used), the record and its stack. */
  datatype Evidence = Evidence(
    files: map<string, string>, index: map<string, string>, plan: Option<PinnedPlan>,
    record: Record, fullCommit: bool)

  type Stated = map<string, (Verdict, Verdict)>

  function StatedOf(rows: seq<Row>): (stated: Stated)
    ensures stated.Keys == set r | r in rows :: r.id
  {
    if rows == [] then map[]
    else
      var init, last := rows[..|rows| - 1], rows[|rows| - 1];
      assert rows == init + [last];
      StatedOf(init)[last.id := (last.verdict, HeadVerdict(last.headExits))]
  }

  function IdsOf(checks: seq<Check>): (ids: seq<string>)
    ensures |ids| == |checks| && forall i | 0 <= i < |checks| :: ids[i] == checks[i].id
  {
    seq(|checks|, i requires 0 <= i < |checks| => checks[i].id)
  }

  /** Whether the record names each planned check once, as run or as removed,
      the latter only in a designed plan. Two sorted lists are equal iff the
      multisets are. */
  predicate NamesItsChecks(plan: PinnedPlan, comp: string, ran: set<string>, removed: seq<string>)
    requires comp in plan.components
  {
    multiset(ran) + multiset(removed) == multiset(IdsOf(plan.components[comp].checks)) &&
    (plan.designed || removed == [])
  }

  /** What that asks of a plan whose ids are distinct: the ids that ran and the
      removed ones are the planned ones, none is both or removed twice, and an
      operator's plan has nothing removed. */
  lemma NamesItsChecksIff(plan: PinnedPlan, comp: string, ran: set<string>, removed: seq<string>)
    requires comp in plan.components && DistinctIds(plan.components[comp].checks)
    ensures NamesItsChecks(plan, comp, ran, removed) <==>
            && (forall id ::
                  (exists c | c in plan.components[comp].checks :: c.id == id) <==> id in ran || id in removed)
            && (forall id | id in removed :: id !in ran)
            && (forall i, j | 0 <= i < j < |removed| :: removed[i] != removed[j])
            && (plan.designed || removed == [])
  {
    var planned := set c | c in plan.components[comp].checks :: c.id;
    DistinctMultiset(plan.components[comp].checks);
    SplitIff(planned, ran, removed);
    assert forall id :: id in planned <==> exists c | c in plan.components[comp].checks :: c.id == id;
  }

  lemma SplitIff(planned: set<string>, ran: set<string>, removed: seq<string>)
    ensures multiset(ran) + multiset(removed) == multiset(planned) <==>
            && (forall id :: id in planned <==> id in ran || id in removed)
            && (forall id | id in removed :: id !in ran)
            && (forall i, j | 0 <= i < j < |removed| :: removed[i] != removed[j])
  {
    OnceEach(removed);
    if multiset(ran) + multiset(removed) == multiset(planned) {
      forall id
        ensures (if id in ran then 1 else 0) + multiset(removed)[id] == if id in planned then 1 else 0
      {
        assert (multiset(ran) + multiset(removed))[id] == multiset(planned)[id];
      }
      assert forall id | id in removed :: multiset(removed)[id] > 0;
    }
  }

  /** No element twice iff every one counts once. */
  lemma {:induction false} OnceEach(ids: seq<string>)
    ensures (forall i, j | 0 <= i < j < |ids| :: ids[i] != ids[j]) <==> forall id :: multiset(ids)[id] <= 1
  {
    if ids != [] {
      var init, last := ids[..|ids| - 1], ids[|ids| - 1];
      assert ids == init + [last];
      OnceEach(init);
      if last in init {
        var i :| 0 <= i < |init| && init[i] == last;
        assert ids[i] == ids[|ids| - 1] && multiset(ids)[last] > 1;
      } else {
        assert multiset(ids)[last] == 1;
        assert forall i | 0 <= i < |init| :: ids[i] == init[i] && ids[i] in init;
        assert forall id | id != last :: multiset(ids)[id] == multiset(init)[id];
      }
    }
  }

  /** The checks that run again, in plan order. */
  function RunAgain(plan: PinnedPlan, comp: string, removed: seq<string>): seq<Check>
    requires comp in plan.components
  {
    Without(plan.components[comp].checks, set id | id in removed)
  }

  function NewExits(site: Site, digest: string, comp: string, checks: seq<Check>, times: nat, check: Check): seq<Exit> {
    Exits(StagesOf(ProbeRuns(site, WantedOf(digest, comp, checks), times), (comp, check.id)))
  }

  /** One comparison per check run again. */
  ghost predicate IsComparison(
    c: Comparison, check: Check, stated: Stated, exits: seq<Exit>)
    requires check.id in stated
  {
    c == Comparison(check.id, stated[check.id].0, stated[check.id].1, HeadVerdict(exits), exits)
  }

  /** `found` is what each check exited now, in order; every lookup in `stated`
      must succeed. */
  method Compared(stated: Stated, checks: seq<Check>, found: seq<seq<Exit>>)
    returns (lines: seq<Comparison>, agrees: bool)
    requires |found| == |checks|
    requires forall c | c in checks :: c.id in stated
    ensures |lines| == |checks|
    ensures forall i | 0 <= i < |checks| :: IsComparison(lines[i], checks[i], stated, found[i])
    ensures agrees <==> forall i | 0 <= i < |checks| :: lines[i].Agrees()
  {
    lines := [];
    var differ: seq<string> := [];
    for i := 0 to |checks|
      invariant |lines| == i
      invariant forall j | 0 <= j < i :: IsComparison(lines[j], checks[j], stated, found[j])
      invariant differ == [] <==> forall j | 0 <= j < i :: lines[j].Agrees()
    {
      var check := checks[i];
      assert check in checks;
      var says := stated[check.id];
      var now := HeadVerdict(found[i]);
      lines := lines + [Comparison(check.id, says.0, says.1, now, found[i])];
      if !(says.0 == says.1 == now) { differ := differ + [check.id]; }
    }
    agrees := differ == [];
  }

  /** The plan copy beside the record is the record's and plans its component. */
  predicate PlanUsable(evidence: Evidence) {
    && evidence.plan.Some? && evidence.plan.value.digest == evidence.record.planId
    && evidence.record.component in evidence.plan.value.components
  }

  /** What refuses a recheck before anything is replayed: a changed file and an
      unreadable record hide the rest. */
  predicate BlockedBecause(evidence: Evidence, stack: Option<string>, why: Refusal) {
    var record := evidence.record;
    if evidence.files != evidence.index then why == FilesChanged
    else if !evidence.fullCommit then why == NotARecord
    else
      match why
      case FilesChanged => false
      case NotARecord => false
      case SavedPlanUnusable => !PlanUsable(evidence)
      case NoStack => stack.None?
      case OtherStack => stack.Some? && stack.value != record.replay.stackDigest
      case DoesNotNameItsChecks =>
        PlanUsable(evidence) &&
        !NamesItsChecks(evidence.plan.value, record.component, StatedOf(record.rows).Keys, record.removed)
      case DidNotRun => false
  }

  /** Everything that refuses it. */
  predicate RefusesBecause(evidence: Evidence, stack: Option<string>, site: Site, why: Refusal) {
    BlockedBecause(evidence, stack, why) ||
    (why == DidNotRun && CanRecheck(evidence, stack) && Unreplayed(site.record))
  }

  method Inspect(evidence: Evidence, stack: Option<string>) returns (errors: seq<Refusal>)
    ensures forall why :: why in errors <==> BlockedBecause(evidence, stack, why)
    ensures errors == [] <==> CanRecheck(evidence, stack)
  {
    if evidence.files != evidence.index { return [FilesChanged]; }
    if !evidence.fullCommit { return [NotARecord]; }
    errors := [];
    var record, usable := evidence.record, PlanUsable(evidence);
    if !usable { errors := errors + [SavedPlanUnusable]; }
    if stack.None? { errors := errors + [NoStack]; }
    if stack.Some? && stack.value != record.replay.stackDigest { errors := errors + [OtherStack]; }
    if usable && !NamesItsChecks(evidence.plan.value, record.component, StatedOf(record.rows).Keys, record.removed) {
      errors := errors + [DoesNotNameItsChecks];
    }
  }

  method RecheckRecord(evidence: Evidence, stack: Option<string>, site: Site)
    returns (errors: seq<Refusal>, lines: seq<Comparison>, agrees: bool)
    requires evidence.plan.Some? ==> ValidComponents(evidence.plan.value.components)
    ensures errors != [] ==> lines == [] && !agrees
    ensures errors == [] <==> CanRecheck(evidence, stack) && !Unreplayed(site.record)
    ensures forall why :: why in errors <==> RefusesBecause(evidence, stack, site, why)
    ensures errors == [] ==>
              var plan, record := evidence.plan.value, evidence.record;
              var checks := RunAgain(plan, record.component, record.removed);
              var stated := StatedOf(record.rows);
              && |lines| == |checks|
              && (forall c | c in checks :: c.id in stated)
              && (forall i | 0 <= i < |checks| ::
                    IsComparison(lines[i], checks[i], stated,
                                 NewExits(site, plan.digest, record.component, checks, record.headRuns, checks[i])))
              && (agrees <==> forall i | 0 <= i < |checks| :: lines[i].Agrees())
  {
    errors := Inspect(evidence, stack);
    if errors != [] { return errors, [], false; }
    var plan, record := evidence.plan.value, evidence.record;
    var stated, checks := StatedOf(record.rows), RunAgain(plan, record.component, record.removed);
    var log := new RunLog();
    log.Probe(site, WantedOf(plan.digest, record.component, checks), record.headRuns);
    var runs := log.runs;
    var found := seq(|checks|, i requires 0 <= i < |checks| => Exits(StagesOf(runs, (record.component, checks[i].id))));
    if Unreplayed(site.record) { return [DidNotRun], [], false; }
    RunsOnlyStated(plan, record.component, stated.Keys, record.removed);
    lines, agrees := Compared(stated, checks, found);
  }

  predicate CanRecheck(evidence: Evidence, stack: Option<string>) {
    && evidence.files == evidence.index && evidence.fullCommit
    && evidence.plan.Some? && evidence.plan.value.digest == evidence.record.planId
    && evidence.record.component in evidence.plan.value.components
    && stack == Some(evidence.record.replay.stackDigest)
    && NamesItsChecks(evidence.plan.value, evidence.record.component, StatedOf(evidence.record.rows).Keys,
                      evidence.record.removed)
  }

  /** A record that names its checks states a verdict for every check that
      runs again. */
  lemma RunsOnlyStated(plan: PinnedPlan, comp: string, ran: set<string>, removed: seq<string>)
    requires comp in plan.components && NamesItsChecks(plan, comp, ran, removed)
    ensures forall c | c in RunAgain(plan, comp, removed) :: c.id in ran
  {
    forall c | c in RunAgain(plan, comp, removed) ensures c.id in ran {
      var checks := plan.components[comp].checks;
      var i :| 0 <= i < |checks| && checks[i] == c;
      assert IdsOf(checks)[i] == c.id;
      assert c.id in multiset(IdsOf(checks));
    }
  }

  // --- A record names its checks ---------------------------------------------

  lemma {:induction false} DistinctMultiset(checks: seq<Check>)
    requires DistinctIds(checks)
    ensures multiset(set c | c in checks :: c.id) == multiset(IdsOf(checks))
  {
    if checks != [] {
      var init, last := checks[..|checks| - 1], checks[|checks| - 1];
      assert checks == init + [last];
      DistinctMultiset(init);
      assert IdsOf(checks) == IdsOf(init) + [last.id];
      OneMoreId(init, last);
    }
  }

  lemma OneMoreId(init: seq<Check>, last: Check)
    requires DistinctIds(init + [last])
    ensures multiset(set c | c in init + [last] :: c.id) == multiset(set c | c in init :: c.id) + multiset{last.id}
  {
    var before, after := set c | c in init :: c.id, set c | c in init + [last] :: c.id;
    forall c | c in init ensures c.id != last.id {
      var i :| 0 <= i < |init| && init[i] == c;
      assert (init + [last])[i].id != (init + [last])[|init|].id;
    }
    assert forall c :: c in init + [last] <==> c in init || c == last;
    assert after == before + {last.id};
  }

  lemma {:induction false} KeptAndRemovedAreAll(planned: seq<Check>, kept: seq<Check>, gone: set<string>)
    requires forall c | c in planned :: c in kept <==> c.id !in gone
    ensures multiset(IdsOf(Without(planned, gone))) + multiset(RemovedFrom(planned, kept)) == multiset(IdsOf(planned))
  {
    if planned != [] {
      var init, last := planned[..|planned| - 1], planned[|planned| - 1];
      assert planned == init + [last];
      assert last in kept <==> last.id !in gone by { assert last in planned; }
      assert forall c | c in init :: c in kept <==> c.id !in gone by { assert forall c | c in init :: c in planned; }
      KeptAndRemovedAreAll(init, kept, gone);
      KeptOrRemoved(init, last, kept, gone);
      OneMore(IdsOf(Without(init, gone)), RemovedFrom(init, kept), IdsOf(init), last.id);
    } else {
      assert IdsOf(planned) == [] && IdsOf(Without(planned, gone)) == [];
    }
  }

  /** One id more on either side is one more in the sum. */
  lemma OneMore(one: seq<string>, two: seq<string>, all: seq<string>, id: string)
    requires multiset(one) + multiset(two) == multiset(all)
    ensures multiset(one + [id]) + multiset(two) == multiset(all + [id])
    ensures multiset(one) + multiset(two + [id]) == multiset(all + [id])
  {
  }

  lemma KeptOrRemoved(init: seq<Check>, last: Check, kept: seq<Check>, gone: set<string>)
    requires last in kept <==> last.id !in gone
    ensures IdsOf(init + [last]) == IdsOf(init) + [last.id]
    ensures var one, two := IdsOf(Without(init, gone)), RemovedFrom(init, kept);
            && IdsOf(Without(init + [last], gone)) == (if last.id in gone then one else one + [last.id])
            && RemovedFrom(init + [last], kept) == if last.id in gone then two + [last.id] else two
  {
    assert (init + [last])[..|init|] == init;
  }

  /** What a kept part is: its plan's checks less a set of ids, with the gone
      ones exactly the ids `head_record` lists as removed. */
  lemma KeptIsWithout(plan: PinnedPlan, exits: BaseExits, comp: string) returns (gone: set<string>)
    requires ValidComponents(plan.components) && Covers(exits, plan.components)
    requires comp in Kept(plan, exits)
    ensures Kept(plan, exits)[comp].checks == Without(plan.components[comp].checks, gone)
    ensures gone <= set c | c in plan.components[comp].checks :: c.id
    ensures !plan.designed ==> gone == {}
    ensures (set id | id in RemovedFrom(plan.components[comp].checks, Kept(plan, exits)[comp].checks)) == gone
  {
    KeptAt(plan, exits, comp);
    var checks := plan.components[comp].checks;
    gone := if plan.designed then RemovedIds(checks, exits[comp]) else {};
    if !plan.designed { WithoutNothing(checks, {}); }
    var kept := Without(checks, gone);
    forall id | id in gone ensures id in RemovedFrom(checks, kept) {
      var c :| c in checks && c.id == id;
      assert c !in kept;
    }
  }

  lemma StatedIsKept(comp: string, checks: seq<Check>, exits: map<string, Exit>, runs: Runs)
    requires CoversPart(exits, checks)
    ensures StatedOf(RowsOf(comp, checks, exits, runs)).Keys == set c | c in checks :: c.id
  {
    var rows := RowsOf(comp, checks, exits, runs);
    forall i | 0 <= i < |checks| ensures rows[i] in rows && checks[i] in checks && rows[i].id == checks[i].id {
    }
  }

  /** Any record of a screened plan names its checks. */
  lemma RecordNamesItsChecks(
    plan: PinnedPlan, site: Site, base: BaseReading, record: ReplayRecord, comp: string, sha: string, attempt: nat,
    runs: Runs)
    requires ValidComponents(plan.components) && IsBaseReading(base, site, plan) && Readable(plan, base, comp)
    ensures var made := RecordOf(plan, base, record, comp, sha, attempt, runs);
            && NamesItsChecks(plan, comp, StatedOf(made.rows).Keys, made.removed)
            && RunAgain(plan, comp, made.removed) == base.kept[comp].checks
  {
    var planned, kept := plan.components[comp].checks, base.kept[comp].checks;
    var gone := KeptIsWithout(plan, base.exits, comp);
    KeptAndRemovedAreAll(planned, kept, gone);
    StatedIsKept(comp, kept, base.exits[comp], runs);
    KeptIsValid(plan, base.exits);
    DistinctMultiset(kept);
    if !plan.designed { assert RemovedFrom(planned, kept) == [] by { NothingRemoved(planned, kept); } }
  }

  lemma {:induction false} NothingRemoved(planned: seq<Check>, kept: seq<Check>)
    requires forall c | c in planned :: c in kept
    ensures RemovedFrom(planned, kept) == []
  {
    if planned != [] {
      assert planned[|planned| - 1] in planned;
      NothingRemoved(planned[..|planned| - 1], kept);
    }
  }

  // --- The round trip ---------------------------------------------------------

  lemma {:induction false} StatedAt(rows: seq<Row>, i: nat)
    requires i < |rows|
    requires forall j, k | 0 <= j < k < |rows| :: rows[j].id != rows[k].id
    ensures rows[i].id in StatedOf(rows)
    ensures StatedOf(rows)[rows[i].id] == (rows[i].verdict, HeadVerdict(rows[i].headExits))
  {
    if i < |rows| - 1 { StatedAt(rows[..|rows| - 1], i); }
  }

  /** The verdict of a check's own runs on a site. */
  function VerdictAt(site: Site, digest: string, check: Check): Verdict {
    HeadVerdict(Exits(if site.probed then RunsOf(site, digest, check, HEAD_RUNS) else []))
  }

  lemma ComparedAt(
    plan: PinnedPlan, base: BaseReading, baseSite: Site, comp: string, head: Head, again: Site, i: nat)
    requires ValidComponents(plan.components) && IsBaseReading(base, baseSite, plan) && Readable(plan, base, comp)
    requires i < |base.kept[comp].checks|
    ensures var record := RecordOf(plan, base, head.site.record, comp, head.sha, head.attempt,
                                   HeadRunsOf(plan, base, comp, head.site));
            var check := base.kept[comp].checks[i];
            var verdict := VerdictAt(head.site, plan.digest, check);
            && check.id in StatedOf(record.rows)
            && StatedOf(record.rows)[check.id] == (verdict, verdict)
            && HeadVerdict(NewExits(again, plan.digest, comp, base.kept[comp].checks, record.headRuns, check)) ==
               VerdictAt(again, plan.digest, check)
  {
    var checks := base.kept[comp].checks;
    KeptIsValid(plan, base.exits);
    var rows := RowsOf(comp, checks, base.exits[comp], HeadRunsOf(plan, base, comp, head.site));
    forall j, k | 0 <= j < k < |rows| ensures rows[j].id != rows[k].id {
    }
    StatedAt(rows, i);
    OwnHeadRuns(plan, base, comp, head.site, checks[i]);
    OwnHeadRuns(plan, base, comp, again, checks[i]);
  }

  /** The round trip, first half: the record of any head of any screened plan
      can be rechecked. The checks that run again are the ones the head ran,
      and every lookup in the record succeeds. */
  lemma RecordCanBeRechecked(
    plan: PinnedPlan, base: BaseReading, baseSite: Site, comp: string, head: Head, evidence: Evidence)
    requires ValidComponents(plan.components) && IsBaseReading(base, baseSite, plan) && Readable(plan, base, comp)
    requires evidence.files == evidence.index && evidence.fullCommit && evidence.plan == Some(plan)
    requires evidence.record == RecordOf(plan, base, head.site.record, comp, head.sha, head.attempt,
                                         HeadRunsOf(plan, base, comp, head.site))
    ensures CanRecheck(evidence, Some(head.site.record.stackDigest))
    ensures RunAgain(plan, comp, evidence.record.removed) == base.kept[comp].checks
    ensures forall c | c in base.kept[comp].checks :: c.id in StatedOf(evidence.record.rows)
  {
    RecordNamesItsChecks(plan, baseSite, base, head.site.record, comp, head.sha, head.attempt,
                         HeadRunsOf(plan, base, comp, head.site));
    RunsOnlyStated(plan, comp, StatedOf(evidence.record.rows).Keys, evidence.record.removed);
  }

  /** The round trip, second half: comparing the record of a head with the runs
      on another site agrees iff every kept check has there the verdict its
      head runs gave. */
  lemma RecheckAgreesIff(
    plan: PinnedPlan, base: BaseReading, baseSite: Site, comp: string, head: Head, again: Site, lines: seq<Comparison>)
    requires ValidComponents(plan.components) && IsBaseReading(base, baseSite, plan) && Readable(plan, base, comp)
    requires |lines| == |base.kept[comp].checks|
    requires var record := RecordOf(plan, base, head.site.record, comp, head.sha, head.attempt,
                                    HeadRunsOf(plan, base, comp, head.site));
             forall i | 0 <= i < |lines| ::
               var check := base.kept[comp].checks[i];
               check.id in StatedOf(record.rows) &&
               IsComparison(lines[i], check, StatedOf(record.rows),
                            NewExits(again, plan.digest, comp, base.kept[comp].checks, record.headRuns, check))
    ensures (forall i | 0 <= i < |lines| :: lines[i].Agrees()) <==>
            forall i | 0 <= i < |lines| ::
              VerdictAt(head.site, plan.digest, base.kept[comp].checks[i]) ==
              VerdictAt(again, plan.digest, base.kept[comp].checks[i])
  {
    forall i | 0 <= i < |lines|
      ensures lines[i].Agrees() <==>
              VerdictAt(head.site, plan.digest, base.kept[comp].checks[i]) ==
              VerdictAt(again, plan.digest, base.kept[comp].checks[i])
    {
      ComparedAt(plan, base, baseSite, comp, head, again, i);
    }
  }

  /** What agreement is worth for any record, honest or not: every planned
      check is removed, which only a designed plan may say, or its stated, its
      recorded and its new verdict are one. */
  lemma AgreementCoversThePlan(evidence: Evidence, stack: Option<string>, site: Site, lines: seq<Comparison>,
                               check: Check)
    requires CanRecheck(evidence, stack)
    requires check in evidence.plan.value.components[evidence.record.component].checks
    requires var checks := RunAgain(evidence.plan.value, evidence.record.component, evidence.record.removed);
             |lines| == |checks| && forall i | 0 <= i < |checks| ::
               checks[i].id in StatedOf(evidence.record.rows) && lines[i].Agrees() &&
               IsComparison(lines[i], checks[i], StatedOf(evidence.record.rows),
                            NewExits(site, evidence.plan.value.digest, evidence.record.component, checks,
                                     evidence.record.headRuns, checks[i]))
    ensures (check.id in evidence.record.removed && evidence.plan.value.designed) ||
            (check.id in StatedOf(evidence.record.rows) &&
             var checks := RunAgain(evidence.plan.value, evidence.record.component, evidence.record.removed);
             StatedOf(evidence.record.rows)[check.id].0 == StatedOf(evidence.record.rows)[check.id].1 ==
             HeadVerdict(NewExits(site, evidence.plan.value.digest, evidence.record.component, checks,
                                  evidence.record.headRuns, check)))
  {
    var checks := RunAgain(evidence.plan.value, evidence.record.component, evidence.record.removed);
    if check.id in evidence.record.removed {
      assert evidence.record.removed != [];
    } else {
      assert check in checks;
      var i :| 0 <= i < |checks| && checks[i] == check;
      assert lines[i].Agrees();
    }
  }
}
