/**
 One run against the ledger: it retires what a person approved, replays the
 rest on its base, refuses or goes on, tests what it merged together with the
 carried checks, and carries its own checks when all of that passed on the base
 itself.

 Sources: kstrl/factory/factory_acceptance.py, kstrl/acceptance/contract.py and
 kstrl/acceptance/acceptance_carried.py.
 */
module RunStep {
  import opened Checks
  import opened BaseScreening
  import opened Carried
  import opened Contract
  import opened Tiers
  import opened CarriedGate
  import PlanFile

  /** Phase 3 of one run: the machine, the stack's checks, what is tested and
      how, the pinned plan and what its base reading kept, and what becomes of
      the ledger's file. */
  datatype Phase3 = Phase3(
    world: World, names: seq<string>, manifest: Manifest, tiers: seq<seq<string>>, mode: Mode,
    merged: Option<Integrated>, plan: Option<PinnedPlan>, kept: Option<map<string, ComponentPlan>>,
    hasMerged: string -> bool, readable: bool, writes: bool)
  {
    /** The plan narrowed to the checks the heads ran. */
    function KeptPlan(): Option<PinnedPlan> {
      if plan.None? || kept.None? then plan else Some(plan.value.(components := kept.value))
    }

    /** The completed components, in the order of their tiers. */
    function All(): seq<string> { Done(manifest, tiers, |tiers|) }

    /** Whether the base itself is tested, with its components merged. */
    predicate OnBase() { merged.Some? && CompletedIds(manifest) != {} }
  }

  datatype Run = Run(gate: GateEnv, phase3: Option<Phase3>)

  datatype Step = Step(doc: Doc, gate: Gate, phase3: Option<bool>)

  function ConfigOf(run: Run, gate: Gate): Config
    requires run.phase3.Some?
  {
    Config(if run.gate.stack.None? then None else Some(run.phase3.value.names), run.phase3.value.KeptPlan(),
        gate.passed)
  }

  /** What carrying reads: the plan, the kept checks, and the components and
      the commit that were tested, where that commit is the base itself. */
  function CarryOf(run: Run): CarryEnv
    requires run.phase3.Some?
  {
    var p := run.phase3.value;
    CarryEnv(p.plan, p.kept, run.gate.stack, p.hasMerged, if p.OnBase() then p.All() else [],
             if p.OnBase() then p.merged.value.sha else "", run.gate.runId, p.readable, p.writes)
  }

  // --- What Phase 3 tests -----------------------------------------------------------------

  /** Phase 3 tests this commit for these components. */
  ghost predicate TestedOn(p: Phase3, commit: Commit, ids: seq<string>) {
    var m := p.manifest;
    && CompletedIds(m) != {}
    && if p.merged.Some? then commit == p.merged.value.commit && ids == p.All()
       else if p.mode.FinalMode? then
         commit == p.world.commit([] + Seconds(Branched(m, p.All()))) && ids == TierMerged(m, p.All(), [])
       else exists j | 0 <= j < |TestedTiers(m, p.tiers, |p.tiers|)| ::
         TestedIn(p, TestedTiers(m, p.tiers, |p.tiers|)[j], commit, ids)
  }

  ghost predicate TestedIn(p: Phase3, t: nat, commit: Commit, ids: seq<string>)
    requires t < |p.tiers|
  {
    var tier, prior := CompletedOf(p.manifest, p.tiers[t]), Prior(p.manifest, p.tiers, t);
    commit == p.world.commit(prior + Seconds(Branched(p.manifest, tier))) && ids == TierMerged(p.manifest, tier, prior)
  }

  /** The tree comes together: its worktree, its merges and its setup. */
  ghost predicate Builds(w: World, tree: Tree, index: nat) {
    w.creates(TierTree(index)) && MergesCleanly(w, tree) && !w.setupFails(tree)
  }

  /** Every tree that is tested comes together. */
  ghost predicate AllBuild(p: Phase3) {
    var w, m := p.world, p.manifest;
    CompletedIds(m) == {} ||
    if p.merged.Some? then p.merged.value.sha != "" && w.creates(IntegratedTree) && !p.merged.value.setupFails
    else if p.mode.FinalMode? then Builds(w, [] + Seconds(Branched(m, p.All())), 0)
    else forall j | 0 <= j < |TestedTiers(m, p.tiers, |p.tiers|)| ::
      TierBuilds(p, TestedTiers(m, p.tiers, |p.tiers|)[j])
  }

  ghost predicate TierBuilds(p: Phase3, t: nat)
    requires t < |p.tiers|
  {
    Builds(p.world,
        Prior(p.manifest, p.tiers, t) + Seconds(Branched(p.manifest, CompletedOf(p.manifest, p.tiers[t]))), t)
  }

  /** Whether no result of the round failed: every tree comes together and its
      checks pass. */
  ghost predicate RoundPasses(p: Phase3, config: Config) {
    AllBuild(p) && forall commit, ids | TestedOn(p, commit, ids) :: RunChecksOf(commit, config, ids).passed
  }

  predicate NoneFailed(results: seq<ContractResult>) {
    forall i | 0 <= i < |results| :: results[i].passed
  }

  /** The results of a round pass iff the round does. */
  lemma RoundIsItsResults(p: Phase3, config: Config, results: seq<ContractResult>)
    requires CompletedIds(p.manifest) != {} && p.merged.None? && p.mode.TierMode?
    requires AreTierResults(p.world, config, p.manifest, p.tiers,
                            TestedTiers(p.manifest, p.tiers, |p.tiers|), results)
    ensures NoneFailed(results) <==> RoundPasses(p, config)
  {
    var tested := TestedTiers(p.manifest, p.tiers, |p.tiers|);
    forall j | 0 <= j < |tested|
      ensures results[j].passed <==>
              TierBuilds(p, tested[j]) &&
              forall commit, ids | TestedIn(p, tested[j], commit, ids) :: RunChecksOf(commit, config, ids).passed
    {
      TierPassesIff(p, config, tested[j], results[j]);
    }
  }

  lemma TierPassesIff(p: Phase3, config: Config, t: nat, r: ContractResult)
    requires IsResultOf(p.world, config, p.manifest, p.tiers, t, r)
    ensures r.passed <==>
            TierBuilds(p, t) &&
            forall commit, ids | TestedIn(p, t, commit, ids) :: RunChecksOf(commit, config, ids).passed
  {
    var tier, prior := CompletedOf(p.manifest, p.tiers[t]), Prior(p.manifest, p.tiers, t);
    assert TestedIn(p, t, p.world.commit(prior + Seconds(Branched(p.manifest, tier))),
        TierMerged(p.manifest, tier, prior));
  }

  lemma BasePassesIff(p: Phase3, config: Config, r: ContractResult)
    requires CompletedIds(p.manifest) != {} && p.merged.Some?
    requires IsIntegratedResult(p.world, config, p.All(), p.merged.value, r)
    ensures NoneFailed([r]) <==> RoundPasses(p, config)
  {
    assert TestedOn(p, p.merged.value.commit, p.All());
    assert [r][0] == r;
  }

  lemma FinalPassesIff(p: Phase3, config: Config, r: ContractResult)
    requires CompletedIds(p.manifest) != {} && p.merged.None? && p.mode.FinalMode?
    requires IsTierResult(p.world, config, p.manifest, p.All(), [], 0, r)
    ensures NoneFailed([r]) <==> RoundPasses(p, config)
  {
    assert TestedOn(p, p.world.commit([] + Seconds(Branched(p.manifest, p.All()))),
                    TierMerged(p.manifest, p.All(), []));
    assert [r][0] == r;
  }

  // --- The run ------------------------------------------------------------------------------

  /** One run. A refused run ends there; Phase 3 gets the gate's tuple, and
      carrying follows a round without a failure. */
  ghost function StepOf(doc: Doc, run: Run): Step {
    var gate := GateOf(doc, run.gate);
    var after := AfterGate(doc, run.gate);
    if gate.refused != [] || run.phase3.None? || run.phase3.value.mode.SkipMode? then Step(after, gate, None)
    else
      var passed := RoundPasses(run.phase3.value, ConfigOf(run, gate));
      Step(if passed then AfterCarry(after, CarryOf(run)) else after, gate, Some(passed))
  }

  /** The contract tests of one round, and what they say to carry: the
      components they tested and the commit of the first result. */
  method ContractRound(p: Phase3, config: Config) returns (passed: bool, tested: seq<string>, sha: string)
    requires !p.mode.SkipMode?
    ensures passed <==> RoundPasses(p, config)
    ensures p.OnBase() ==> tested == p.All() && sha == p.merged.value.sha
    ensures !p.OnBase() ==> sha == ""
  {
    var results := RunContractTesting(p.world, config, p.manifest, p.tiers, p.mode, p.merged);
    passed, tested, sha := Summary(results);
    ResultsPass(p, config, results);
    ResultsName(p, config, results);
  }

  /** The results of a round pass iff the round does. */
  lemma ResultsPass(p: Phase3, config: Config, results: seq<ContractResult>)
    requires !p.mode.SkipMode?
    requires AreResults(p.world, config, p.manifest, p.tiers, p.mode, p.merged, results)
    ensures NoneFailed(results) <==> RoundPasses(p, config)
  {
    if CompletedIds(p.manifest) == {} {
      NothingTested(p, config);
    } else if p.merged.Some? {
      assert results == [results[0]];
      BasePassesIff(p, config, results[0]);
    } else if p.mode.FinalMode? {
      assert results == [results[0]];
      FinalPassesIff(p, config, results[0]);
    } else {
      RoundIsItsResults(p, config, results);
    }
  }

  lemma NothingTested(p: Phase3, config: Config)
    requires CompletedIds(p.manifest) == {}
    ensures RoundPasses(p, config)
  {
  }

  /** And name the commit and the components iff the base itself was tested. */
  lemma ResultsName(p: Phase3, config: Config, results: seq<ContractResult>)
    requires !p.mode.SkipMode?
    requires AreResults(p.world, config, p.manifest, p.tiers, p.mode, p.merged, results)
    ensures p.OnBase() ==> |results| == 1 && results[0].tested == p.All() && results[0].testedSha == p.merged.value.sha
    ensures !p.OnBase() ==> results == [] || results[0].testedSha == ""
  {
    if CompletedIds(p.manifest) != {} && p.merged.None? && p.mode.TierMode? {
      TierResultsNameNoCommit(p, config, results);
    }
  }

  lemma TierResultsNameNoCommit(p: Phase3, config: Config, results: seq<ContractResult>)
    requires AreTierResults(p.world, config, p.manifest, p.tiers,
                            TestedTiers(p.manifest, p.tiers, |p.tiers|), results)
    ensures results != [] ==> results[0].testedSha == ""
  {
  }

  method Summary(results: seq<ContractResult>) returns (passed: bool, tested: seq<string>, sha: string)
    ensures passed <==> NoneFailed(results)
    ensures |results| == 1 ==> tested == results[0].tested
    ensures sha == if results == [] then "" else results[0].testedSha
  {
    passed, tested := true, [];
    for i := 0 to |results|
      invariant passed <==> forall j | 0 <= j < i :: results[j].passed
      invariant (i == 0 ==> tested == []) && (i == 1 ==> tested == results[0].tested)
    {
      passed := passed && results[i].passed;
      tested := tested + results[i].tested;
    }
    sha := if results == [] then "" else results[0].testedSha;
  }

  method RunOnce(ledger: Ledger, run: Run) returns (gate: Gate, phase3: Option<bool>)
    modifies ledger
    ensures StepOf(old(ledger.Document()), run) == Step(ledger.Document(), gate, phase3)
  {
    gate := ledger.CarriedOnBase(run.gate);
    phase3 := None;
    if gate.refused == [] && run.phase3.Some? && !run.phase3.value.mode.SkipMode? {
      var p := run.phase3.value;
      var passed, tested, sha := ContractRound(p, ConfigOf(run, gate));
      phase3 := Some(passed);
      if passed {
        var _ := ledger.CarryPassed(
          CarryEnv(p.plan, p.kept, run.gate.stack, p.hasMerged, tested, sha, run.gate.runId, p.readable, p.writes));
      }
    }
  }

  // --- A run's promises to every entry ------------------------------------------------------

  /** The gate's tuple holds only entries nobody retired, as they resolve. */
  lemma PassedAreSurvivors(doc: Doc, env: GateEnv)
    ensures forall c | c in GateOf(doc, env).passed ::
              c.entry in Survivors(doc.checks, env.approved) && Resolve(env.copies, c.entry) == Some(c)
  {
    var left, passed := Survivors(doc.checks, env.approved), GateOf(doc, env).passed;
    if passed != [] {
      var runs := BaseRuns(env.copies, env.base.value, left);
      assert passed == PassedOnBase(env.copies, runs, left);
      forall c | c in passed ensures c.entry in left && Resolve(env.copies, c.entry) == Some(c) {
        PassedIsResolved(env.copies, runs, left, c);
      }
    }
  }

  /** And when the gate opens it holds the check of every one of them. */
  lemma GateCarries(doc: Doc, env: GateEnv, entry: Entry)
    requires env.stack.Some? && GateOf(doc, env).refused == []
    requires LedgerTells(env.copies, Survivors(doc.checks, env.approved)) &&
             entry in Survivors(doc.checks, env.approved)
    ensures env.base.Some? && PassesAlone(env.copies, env.base.value, entry)
    ensures Resolve(env.copies, entry).value in GateOf(doc, env).passed
  {
    var left := Survivors(doc.checks, env.approved);
    GateOpensIff(doc, env);
    GateOpensAsJudged(doc, env);
    var runs := BaseRuns(env.copies, env.base.value, left);
    assert EntryPasses(env.copies, runs, entry);
    PassedIsResolved(env.copies, runs, left, Resolve(env.copies, entry).value);
  }

  /** What Phase 3 needs of its own plan: validated, and no component named
      like a carried label. */
  predicate PlanIsSane(plan: Option<PinnedPlan>) {
    plan.Some? ==> ValidComponents(plan.value.components) && forall comp | comp in plan.value.components :: ':' !in comp
  }

  /** That is what validation leaves: a plan parsed from an accepted document,
      whose components are manifest ids, and what any base keeps of it. */
  lemma AcceptedPlanIsSane(
    sha: PlanFile.EntrySha, raw: PlanFile.Json, ids: seq<string>, digest: string, designed: bool, exits: BaseExits)
    requires PlanFile.ValidPlan(raw, ids) && forall id | id in ids :: PlanFile.ValidId(id)
    requires Covers(exits, PlanFile.Parsed(sha, raw, ids))
    ensures var plan := PinnedPlan(digest, PlanFile.Parsed(sha, raw, ids), designed);
            PlanIsSane(Some(plan)) && PlanIsSane(Some(plan.(components := Kept(plan, exits))))
  {
    var plan := PinnedPlan(digest, PlanFile.Parsed(sha, raw, ids), designed);
    PlanFile.ParsedIsValid(sha, raw, ids);
    forall comp | comp in plan.components ensures ':' !in comp { PlanFile.ValidIdHasNoColon(comp); }
    KeptIsValid(plan, exits);
    assert Kept(plan, exits).Keys <= plan.components.Keys;
  }

  /** What is assumed of one run beside the ledger: its plan is sane, and the
      worktree cut at a commit is at that commit, if it can be read at all. */
  predicate RunIsSane(run: Run) {
    run.phase3.Some? ==>
      var p := run.phase3.value;
      PlanIsSane(p.KeptPlan()) && (p.merged.Some? ==> p.merged.value.commit.site.sha in {"", p.merged.value.sha})
  }

  /** And beside it no two entries share a key. */
  ghost predicate Sane(doc: Doc, run: Run) {
    LabelsDistinct(Survivors(doc.checks, run.gate.approved)) && RunIsSane(run)
  }

  lemma NothingCollides(doc: Doc, run: Run)
    requires Sane(doc, run) && run.phase3.Some?
    ensures NoCollision(ConfigOf(run, GateOf(doc, run.gate)))
  {
    var gate := GateOf(doc, run.gate);
    PassedAreSurvivors(doc, run.gate);
    CarriedIsConsistent(run.gate.copies, Survivors(doc.checks, run.gate.approved), gate.passed);
    forall c | c in gate.passed ensures ':' in LabelOf(c.entry.planId, c.entry.component) { LabelHasColon(c.entry); }
  }

  /** What Phase 3 asks of one tested commit: the stack's checks, the kept
      checks of the components it is tested for and the check of every entry
      nobody retired hold there. */
  ghost predicate CommitHolds(doc: Doc, run: Run, commit: Commit, ids: seq<string>)
    requires run.phase3.Some?
  {
    var p := run.phase3.value;
    && (forall name | name in p.names :: commit.rowPasses(name))
    && (p.plan.Some? ==>
          var parts := if p.kept.Some? then p.kept.value else p.plan.value.components;
          forall comp, check | comp in ids && comp in parts && check in parts[comp].checks ::
            HoldsAt(commit.site, Wanted(p.plan.value.digest, comp, check)))
    && forall e | e in Survivors(doc.checks, run.gate.approved) :: EntryHolds(run.gate.copies, commit.site, e)
  }

  ghost predicate EntryHolds(copies: Copies, site: Site, entry: Entry) {
    Resolve(copies, entry).Some? && HoldsAt(site, Resolve(copies, entry).value.AsWanted())
  }

  /** What Phase 3 asks of everything it tests. */
  ghost predicate RoundHolds(doc: Doc, run: Run) {
    && run.phase3.Some? && !run.phase3.value.mode.SkipMode? && AllBuild(run.phase3.value)
    && forall commit, ids | TestedOn(run.phase3.value, commit, ids) :: CommitHolds(doc, run, commit, ids)
  }

  /** Whether a run passes Phase 3, in terms of its base, the commits it tests
      and the ledger before it. */
  lemma Phase3PassesIff(doc: Doc, run: Run)
    requires Sane(doc, run) && run.gate.stack.Some?
    ensures StepOf(doc, run).phase3 == Some(true) <==> Opens(doc, run.gate) && RoundHolds(doc, run)
  {
    DistinctLabelsTell(run.gate.copies, Survivors(doc.checks, run.gate.approved));
    GateOpensIff(doc, run.gate);
    if run.phase3.Some? && GateOf(doc, run.gate).refused == [] {
      forall commit, ids
        ensures RunChecksOf(commit, ConfigOf(run, GateOf(doc, run.gate)), ids).passed <==>
                CommitHolds(doc, run, commit, ids)
      {
        CommitPassesIff(doc, run, commit, ids);
      }
    }
  }

  /** Without a stack nothing that is tested passes. */
  lemma NoStackNoPass(doc: Doc, run: Run, commit: Commit, ids: seq<string>)
    requires run.gate.stack.None? && run.phase3.Some? && TestedOn(run.phase3.value, commit, ids)
    ensures StepOf(doc, run).phase3 != Some(true)
  {
    assert !RunChecksOf(commit, ConfigOf(run, GateOf(doc, run.gate)), ids).passed;
  }

  lemma CommitPassesIff(doc: Doc, run: Run, commit: Commit, ids: seq<string>)
    requires Sane(doc, run) && run.phase3.Some? && run.gate.stack.Some? && GateOf(doc, run.gate).refused == []
    ensures RunChecksOf(commit, ConfigOf(run, GateOf(doc, run.gate)), ids).passed <==>
            CommitHolds(doc, run, commit, ids)
  {
    NothingCollides(doc, run);
    RunChecksMeans(commit, ConfigOf(run, GateOf(doc, run.gate)), ids);
    TupleHoldsIff(doc, run, commit.site);
    KeptHoldIff(run.phase3.value, commit.site, ids);
  }

  /** The plan Phase 3 replays is the pinned one, with what the base kept. */
  lemma KeptHoldIff(p: Phase3, site: Site, ids: seq<string>)
    ensures (p.KeptPlan().Some? ==>
               forall w | Planned(p.KeptPlan().value, w) && w.comp in (set id | id in ids) :: HoldsAt(site, w)) <==>
            (p.plan.Some? ==>
               var parts := if p.kept.Some? then p.kept.value else p.plan.value.components;
               forall comp, check | comp in ids && comp in parts && check in parts[comp].checks ::
                 HoldsAt(site, Wanted(p.plan.value.digest, comp, check)))
  {
    if p.plan.Some? {
      var parts := if p.kept.Some? then p.kept.value else p.plan.value.components;
      forall comp, check | comp in ids && comp in parts && check in parts[comp].checks
        ensures Planned(p.KeptPlan().value, Wanted(p.plan.value.digest, comp, check))
      {
      }
      forall w | Planned(p.KeptPlan().value, w)
        ensures w.comp in parts && w.check in parts[w.comp].checks && w == Wanted(p.plan.value.digest, w.comp, w.check)
      {
      }
    }
  }

  /** When the gate opened, its tuple holds at a commit iff every entry does. */
  lemma TupleHoldsIff(doc: Doc, run: Run, site: Site)
    requires Sane(doc, run) && run.gate.stack.Some? && GateOf(doc, run.gate).refused == []
    ensures (forall c | c in GateOf(doc, run.gate).passed :: HoldsAt(site, c.AsWanted())) <==>
            forall e | e in Survivors(doc.checks, run.gate.approved) :: EntryHolds(run.gate.copies, site, e)
  {
    var left, passed := Survivors(doc.checks, run.gate.approved), GateOf(doc, run.gate).passed;
    PassedAreSurvivors(doc, run.gate);
    DistinctLabelsTell(run.gate.copies, left);
    if forall e | e in left :: EntryHolds(run.gate.copies, site, e) {
      forall c | c in passed ensures HoldsAt(site, c.AsWanted()) {
        assert EntryHolds(run.gate.copies, site, c.entry);
      }
    }
    if forall c | c in passed :: HoldsAt(site, c.AsWanted()) {
      forall e | e in left ensures EntryHolds(run.gate.copies, site, e) {
        GateCarries(doc, run.gate, e);
      }
    }
  }

  /** An entry holds through a run: it passed alone on the base, and, if Phase 3
      passed, exited 0 on every run at every commit that was tested. */
  ghost predicate HoldsThrough(run: Run, phase3: Option<bool>, entry: Entry) {
    && run.gate.base.Some?
    && PassesAlone(run.gate.copies, run.gate.base.value, entry)
    && (phase3 == Some(true) && run.phase3.Some? ==>
          forall commit, ids | TestedOn(run.phase3.value, commit, ids) ::
            EntryHolds(run.gate.copies, commit.site, entry))
  }

  lemma EntryHoldsThroughRun(doc: Doc, run: Run, entry: Entry)
    requires run.gate.stack.Some? && StepOf(doc, run).gate.refused == []
    requires Sane(doc, run) && entry in Survivors(doc.checks, run.gate.approved)
    ensures HoldsThrough(run, StepOf(doc, run).phase3, entry)
  {
    DistinctLabelsTell(run.gate.copies, Survivors(doc.checks, run.gate.approved));
    GateCarries(doc, run.gate, entry);
    Phase3PassesIff(doc, run);
  }

  lemma OneSurvives(entry: Entry)
    ensures Survivors([entry], []) == [entry]
  {
    assert [entry][..0] == [];
  }

  /** There are such runs: the gate lets an entry through wherever it passes. */
  lemma GateLetsThrough(copies: Copies, site: Site, entry: Entry) returns (env: GateEnv)
    requires PassesAlone(copies, site, entry) && !Unreplayed(site.record)
    ensures env.stack.Some? && Survivors([entry], env.approved) == [entry]
    ensures GateOf(Doc([entry], []), env).refused == []
  {
    OneSurvives(entry);
    env := GateEnv(true, Some(""), [], true, "run", true, Some(site), copies, true);
    DistinctLabelsTell(copies, [entry]);
    assert forall e | e in [entry] :: PassesAlone(env.copies, env.base.value, e);
    GateOpensIff(Doc([entry], []), env);
  }
}
