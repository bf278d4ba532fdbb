/**
 Phase 3: the branches of a tier are merged onto the base in a throwaway
 worktree, every check runs on the merged tree, and a failing tier is bisected
 to the component whose merge broke it.

 A tree is the sequence of branches merged onto the base; merging, setup and
 the checks are deterministic in it.

 Source: kstrl/acceptance/contract.py.
 */
module Contract {
  import opened Checks
  import opened BaseScreening
  import opened Carried
  import opened Collisions

  type Tree = seq<string>

  datatype Component = Component(id: string, branch: string, completed: bool)
  datatype Manifest = Manifest(components: seq<Component>)

  datatype Worktree = TierTree(index: nat) | BisectTree | IntegratedTree

  /** One commit as Phase 3 meets it: the stack's own checks by name, and the
      replay of the acceptance checks. */
  datatype Commit = Commit(rowPasses: string -> bool, site: Site)

  /** The machine. A setup that fails prevents every test of that tree. */
  datatype World = World(
    creates: Worktree -> bool, merges: (Tree, string) -> bool, setupFails: Tree -> bool, commit: Tree -> Commit)

  /** The stack's check names (None without a `[stack]`), the plan narrowed to
      the kept checks, and the carried checks that passed on the base. */
  datatype Config = Config(stack: Option<seq<string>>, plan: Option<PinnedPlan>, carried: seq<CarriedCheck>)

  datatype Report = Report(passed: bool, failedRows: seq<string>, replayed: Replayed)

  datatype TestOutput =
    | NoWorktree | PriorConflict(branch: string) | TierConflict(id: string) | SetupBroke | Tested(report: Report)

  /** `testedSha` is the commit an integrated check was given, "" for a check
      that merges branches onto the base. */
  datatype ContractResult = ContractResult(
    passed: bool, tier: nat, tested: seq<string>, breaker: Option<string>, output: TestOutput, testedSha: string := "")

  // --- The checks of one tree ----------------------------------------------------

  function FailedRows(rowPasses: string -> bool, names: seq<string>): (failed: seq<string>)
    ensures forall name :: name in failed <==> name in names && !rowPasses(name)
    ensures failed == [] <==> forall name | name in names :: rowPasses(name)
  {
    if names == [] then []
    else
      var init, last := names[..|names| - 1], names[|names| - 1];
      assert names == init + [last];
      FailedRows(rowPasses, init) + if rowPasses(last) then [] else [last]
  }

  /** Every stack check, then the plan's checks of the merged components and
      the carried checks. With no stack nothing runs and it fails. */
  function RunChecksOf(commit: Commit, config: Config, merged: seq<string>): Report {
    match config.stack
    case None => Report(false, [], Replayed(true, [], [], []))
    case Some(names) =>
      var failed := FailedRows(commit.rowPasses, names);
      var replayed := ReplayMergedOf(commit.site, true, config.plan, merged, config.carried);
      Report(failed == [] && replayed.accepted, failed, replayed)
  }

  method RunChecks(commit: Commit, config: Config, merged: seq<string>) returns (report: Report)
    ensures report == RunChecksOf(commit, config, merged)
  {
    if config.stack.None? { return Report(false, [], Replayed(true, [], [], [])); }
    var names, failed := config.stack.value, [];
    for i := 0 to |names|
      invariant failed == FailedRows(commit.rowPasses, names[..i])
    {
      assert names[..i + 1][..i] == names[..i];
      if !commit.rowPasses(names[i]) { failed := failed + [names[i]]; }
    }
    assert names[..|names|] == names;
    var replayed := ReplayMerged(commit.site, true, config.plan, merged, config.carried);
    report := Report(failed == [] && replayed.accepted, failed, replayed);
  }

  /** No two checks of the plan and the ledger share a key with different
      runs: a valid plan, carried labels distinct, and no component named like
      one of them. */
  ghost predicate NoCollision(config: Config) {
    && Consistent(WantedAll(config.carried))
    && (config.plan.Some? ==>
          && ValidComponents(config.plan.value.components)
          && forall c | c in config.carried ::
              LabelOf(c.entry.planId, c.entry.component) !in config.plan.value.components)
  }

  lemma ConsistentTogether(one: seq<Wanted>, two: seq<Wanted>)
    requires Consistent(one) && Consistent(two)
    requires forall i, j | 0 <= i < |one| && 0 <= j < |two| :: one[i].Key() != two[j].Key()
    ensures Consistent(one + two)
  {
    var all := one + two;
    forall i, j | 0 <= i < |all| && 0 <= j < |all| && all[i].Key() == all[j].Key()
      ensures all[i].digest == all[j].digest && all[i].check == all[j].check
    {
      assert all[i] == if i < |one| then one[i] else two[i - |one|];
      assert all[j] == if j < |one| then one[j] else two[j - |one|];
    }
  }

  lemma MergedIsConsistent(config: Config, merged: seq<string>)
    requires NoCollision(config)
    ensures Consistent(MergedWanted(config.plan, merged, config.carried))
  {
    var mine := if config.plan.None? then [] else PlanWanted(config.plan.value, merged);
    var theirs := WantedAll(config.carried);
    if config.plan.Some? { PlanIsConsistent(config.plan.value, mine); }
    forall i, j | 0 <= i < |mine| && 0 <= j < |theirs| ensures mine[i].Key() != theirs[j].Key() {
      assert mine[i] in mine;
      assert Planned(config.plan.value, mine[i]);
      assert config.carried[j] in config.carried;
    }
    ConsistentTogether(mine, theirs);
  }

  /** A carried label holds a colon, so a plan none of whose components does
      is never mistaken for one. */
  lemma LabelHasColon(entry: Entry)
    ensures ':' in LabelOf(entry.planId, entry.component)
  {
    assert LabelOf(entry.planId, entry.component)[7] == ':';
  }

  /** What a pass on one tree means, check by check and run by run. */
  ghost predicate AllHold(commit: Commit, config: Config, merged: set<string>) {
    && config.stack.Some?
    && (forall name | name in config.stack.value :: commit.rowPasses(name))
    && (config.plan.Some? ==>
          forall w | Planned(config.plan.value, w) && w.comp in merged :: HoldsAt(commit.site, w))
    && (forall c | c in config.carried :: HoldsAt(commit.site, c.AsWanted()))
  }

  ghost predicate HoldsAt(site: Site, w: Wanted) {
    site.sha != "" && site.probed && forall n | 1 <= n <= HEAD_RUNS :: site.run(w.digest, w.check, n).exit == Some(0)
  }

  lemma HoldsIsAllZero(site: Site, w: Wanted)
    ensures HoldsAt(site, w) <==> site.sha != "" && site.probed && AllZero(site, w, HEAD_RUNS)
  {
  }

  /** What Phase 3's replay accepts, where no wanted check is hidden behind
      another one's key. */
  lemma ReplayMergedMeans(
    site: Site, plan: Option<PinnedPlan>, merged: seq<string>, carried: seq<CarriedCheck>)
    requires NoneHidden(MergedWanted(plan, merged, carried))
    ensures ReplayMergedOf(site, true, plan, merged, carried).accepted <==>
            forall w | w in MergedWanted(plan, merged, carried) :: HoldsAt(site, w)
  {
    var wanted := MergedWanted(plan, merged, carried);
    if wanted != [] {
      assert wanted[0] in wanted;
      JudgedRightly(site, wanted, HEAD_RUNS);
      AcceptedAsJudged(site, plan, merged, carried);
    }
  }

  lemma AcceptedAsJudged(site: Site, plan: Option<PinnedPlan>, merged: seq<string>, carried: seq<CarriedCheck>)
    requires MergedWanted(plan, merged, carried) != []
    ensures ReplayMergedOf(site, true, plan, merged, carried).accepted <==>
            site.sha != "" && AllJudgedPass(site, MergedWanted(plan, merged, carried), HEAD_RUNS)
  {
    var wanted := MergedWanted(plan, merged, carried);
    var runs := ProbeRuns(site, wanted, HEAD_RUNS);
    NothingListedIff(runs, wanted);
    assert forall w | w in wanted :: VerdictIn(runs, w) == Pass <==> JudgedPass(site, wanted, HEAD_RUNS, w);
  }

  /** And that is the exact condition: on every commit Phase 3's replay accepts
      iff every wanted check holds, iff none is hidden. */
  lemma ReplayMergedIsExactIff(plan: Option<PinnedPlan>, merged: seq<string>, carried: seq<CarriedCheck>)
    ensures (forall site: Site ::
               ReplayMergedOf(site, true, plan, merged, carried).accepted <==>
               forall w | w in MergedWanted(plan, merged, carried) :: HoldsAt(site, w)) <==>
            NoneHidden(MergedWanted(plan, merged, carried))
  {
    var wanted := MergedWanted(plan, merged, carried);
    if NoneHidden(wanted) {
      forall site: Site
        ensures ReplayMergedOf(site, true, plan, merged, carried).accepted <==>
                forall w | w in wanted :: HoldsAt(site, w)
      {
        ReplayMergedMeans(site, plan, merged, carried);
      }
    } else {
      var hidden :| hidden in wanted && !Unhidden(wanted, hidden);
      HiddenFailurePasses(wanted, HEAD_RUNS, hidden);
      AcceptedAsJudged(FailsOnly(hidden), plan, merged, carried);
      HoldsIsAllZero(FailsOnly(hidden), hidden);
    }
  }

  /** The verdict on a tree, exactly: it depends on the merged components only
      as a set, whatever order and however often they are named. */
  lemma RunChecksMeans(commit: Commit, config: Config, merged: seq<string>)
    requires NoCollision(config)
    ensures RunChecksOf(commit, config, merged).passed <==> AllHold(commit, config, set id | id in merged)
  {
    MergedIsConsistent(config, merged);
    ConsistentHidesNone(MergedWanted(config.plan, merged, config.carried));
    ReplayMergedMeans(commit.site, config.plan, merged, config.carried);
    if config.stack.Some? { AllWantedHold(commit.site, config, merged); }
  }

  lemma AllWantedHold(site: Site, config: Config, merged: seq<string>)
    ensures (forall w | w in MergedWanted(config.plan, merged, config.carried) :: HoldsAt(site, w)) <==>
            && (config.plan.Some? ==>
                  forall w | Planned(config.plan.value, w) && w.comp in (set id | id in merged) :: HoldsAt(site, w))
            && (forall c | c in config.carried :: HoldsAt(site, c.AsWanted()))
  {
    var mine := if config.plan.None? then [] else PlanWanted(config.plan.value, merged);
    var theirs := WantedAll(config.carried);
    assert MergedWanted(config.plan, merged, config.carried) == mine + theirs;
    assert forall w :: w in mine + theirs <==> w in mine || w in theirs;
    forall w ensures w in theirs <==> exists c | c in config.carried :: c.AsWanted() == w {
      if c :| c in config.carried && c.AsWanted() == w {
        var i :| 0 <= i < |config.carried| && config.carried[i] == c;
        assert theirs[i] == w;
      }
    }
  }

  // --- Components and branches ------------------------------------------------------

  function GetComponent(m: Manifest, id: string): (found: Option<Component>)
    ensures found.Some? ==> found.value in m.components && found.value.id == id
    ensures found.None? ==> forall c | c in m.components :: c.id != id
  {
    FindComponent(m.components, id)
  }

  function FindComponent(components: seq<Component>, id: string): (found: Option<Component>)
    ensures found.Some? ==> found.value in components && found.value.id == id
    ensures found.None? ==> forall c | c in components :: c.id != id
  {
    if components == [] then None
    else if components[0].id == id then Some(components[0])
    else FindComponent(components[1..], id)
  }

  function CompletedIds(m: Manifest): set<string> {
    set c | c in m.components && c.completed :: c.id
  }

  /** (id, branch) for each id that names a component. */
  function Branched(m: Manifest, ids: seq<string>): (pairs: seq<(string, string)>)
  {
    if ids == [] then []
    else
      var found := GetComponent(m, ids[|ids| - 1]);
      Branched(m, ids[..|ids| - 1]) + if found.None? then [] else [(ids[|ids| - 1], found.value.branch)]
  }

  function Firsts(pairs: seq<(string, string)>): (ids: seq<string>)
    ensures |ids| == |pairs| && forall i | 0 <= i < |pairs| :: ids[i] == pairs[i].0
  {
    seq(|pairs|, i requires 0 <= i < |pairs| => pairs[i].0)
  }

  function Seconds(pairs: seq<(string, string)>): (branches: seq<string>)
    ensures |branches| == |pairs| && forall i | 0 <= i < |pairs| :: branches[i] == pairs[i].1
  {
    seq(|pairs|, i requires 0 <= i < |pairs| => pairs[i].1)
  }

  /** The ids of the components whose branches are among `branches`. */
  function IdsOnBranches(components: seq<Component>, branches: seq<string>): (ids: seq<string>)
    ensures forall id :: id in ids <==> exists c | c in components :: c.id == id && c.branch in branches
  {
    if components == [] then []
    else
      var init, last := components[..|components| - 1], components[|components| - 1];
      assert components == init + [last];
      IdsOnBranches(init, branches) + if last.branch in branches then [last.id] else []
  }

  /** Each value once, in the order of its first occurrence. */
  function Dedup(ids: seq<string>): (once: seq<string>)
    ensures forall id :: id in once <==> id in ids
    ensures forall i, j | 0 <= i < j < |once| :: once[i] != once[j]
  {
    if ids == [] then []
    else
      var init, last := ids[..|ids| - 1], ids[|ids| - 1];
      assert ids == init + [last];
      Dedup(init) + if last in init then [] else [last]
  }

  // --- Merging, and what passing a tree means ------------------------------------------

  predicate MergesCleanly(w: World, tree: Tree) {
    forall i | 0 <= i < |tree| :: w.merges(tree[..i], tree[i])
  }

  /** The merge of branch `k` of a tree is the first that conflicts. */
  predicate ConflictsAt(w: World, tree: Tree, k: nat) {
    k < |tree| && MergesCleanly(w, tree[..k]) && !w.merges(tree[..k], tree[k])
  }

  lemma PrefixMerges(w: World, tree: Tree, k: nat)
    requires MergesCleanly(w, tree) && k <= |tree|
    ensures MergesCleanly(w, tree[..k])
  {
    forall i | 0 <= i < k ensures w.merges(tree[..k][..i], tree[..k][i]) {
      assert tree[..k][..i] == tree[..i];
    }
  }

  lemma PriorMerges(w: World, prior: seq<string>, branches: seq<string>)
    ensures MergesCleanly(w, prior + branches) ==> MergesCleanly(w, prior)
  {
    if MergesCleanly(w, prior + branches) {
      PrefixMerges(w, prior + branches, |prior|);
      assert (prior + branches)[..|prior|] == prior;
    }
  }

  ghost predicate TreePasses(w: World, config: Config, tree: Tree, ids: seq<string>) {
    MergesCleanly(w, tree) && !w.setupFails(tree) && RunChecksOf(w.commit(tree), config, ids).passed
  }

  /** The throwaway worktree of one check. */
  class Checkout {
    var tree: Tree
    var conflicted: bool
    var removed: bool

    constructor ()
      ensures tree == [] && !conflicted && !removed
    {
      tree, conflicted, removed := [], false, false;
    }

    method Merge(w: World, branch: string) returns (ok: bool)
      requires !conflicted && !removed
      modifies this
      ensures ok <==> w.merges(old(tree), branch)
      ensures ok ==> tree == old(tree) + [branch]
      ensures !ok ==> tree == old(tree)
      ensures conflicted == !ok && !removed
    {
      ok := w.merges(tree, branch);
      if ok { tree := tree + [branch]; } else { conflicted := true; }
    }

    /** Merge the branches in order; the first that conflicts stops it. */
    method MergeAll(w: World, branches: seq<string>) returns (stuck: Option<nat>)
      requires tree == [] && !conflicted && !removed
      modifies this
      ensures stuck.None? <==> MergesCleanly(w, branches)
      ensures stuck.None? ==> tree == branches && !conflicted
      ensures stuck.Some? ==> stuck.value < |branches| && MergesCleanly(w, branches[..stuck.value]) &&
                              !w.merges(branches[..stuck.value], branches[stuck.value])
      ensures !removed
    {
      for i := 0 to |branches|
        invariant tree == branches[..i] && !conflicted && !removed
        invariant MergesCleanly(w, branches[..i])
      {
        var ok := Merge(w, branches[i]);
        assert branches[..i + 1] == branches[..i] + [branches[i]];
        assert forall k | 0 <= k <= i :: branches[..i + 1][..k] == branches[..k];
        assert forall k | 0 <= k < i :: branches[..i][..k] == branches[..k];
        if !ok {
          assert !MergesCleanly(w, branches);
          return Some(i);
        }
      }
      assert branches[..|branches|] == branches;
      stuck := None;
    }

    /** The finally block: abort any merge in flight, then remove. */
    method CleanUp()
      requires !removed
      modifies this
      ensures removed && !conflicted
    {
      conflicted := false;
      removed := true;
    }
  }

  // --- Bisection ----------------------------------------------------------------------------

  /** The tree and the merged ids once the first `k` components of a tier are
      in. */
  function TreeAt(prior: seq<string>, pairs: seq<(string, string)>, k: nat): Tree
    requires k <= |pairs|
  {
    prior + Seconds(pairs[..k])
  }

  function IdsAt(before: seq<string>, pairs: seq<(string, string)>, k: nat): seq<string>
    requires k <= |pairs|
  {
    before + Firsts(pairs[..k])
  }

  /** Component `k` merges, sets up and passes. */
  ghost predicate StepClean(
    w: World, config: Config, prior: seq<string>, pairs: seq<(string, string)>, before: seq<string>, k: nat)
    requires k < |pairs|
  {
    && w.merges(TreeAt(prior, pairs, k), pairs[k].1)
    && !w.setupFails(TreeAt(prior, pairs, k + 1))
    && RunChecksOf(w.commit(TreeAt(prior, pairs, k + 1)), config, IdsAt(before, pairs, k + 1)).passed
  }

  /** Component `k` is where a bisection stops: the first that is not clean. */
  ghost predicate StopsAt(
    w: World, config: Config, prior: seq<string>, pairs: seq<(string, string)>, before: seq<string>, k: nat)
  {
    && k < |pairs|
    && !StepClean(w, config, prior, pairs, before, k)
    && forall j | 0 <= j < k :: StepClean(w, config, prior, pairs, before, j)
  }

  /** Component `k` merged, and then its setup failed. */
  ghost predicate SetupStops(w: World, prior: seq<string>, pairs: seq<(string, string)>, k: nat)
    requires k < |pairs|
  {
    w.merges(TreeAt(prior, pairs, k), pairs[k].1) && w.setupFails(TreeAt(prior, pairs, k + 1))
  }

  /** What a bisection may name: the component it stopped at, unless its setup
      is what stopped it, or nobody when it could not start or never stopped. */
  ghost predicate IsBreaker(
    w: World, config: Config, prior: seq<string>, pairs: seq<(string, string)>, before: seq<string>,
    breaker: Option<string>)
  {
    if !w.creates(BisectTree) || !MergesCleanly(w, prior) then breaker == None
    else
      && (forall k: nat | StopsAt(w, config, prior, pairs, before, k) ::
            breaker == if SetupStops(w, prior, pairs, k) then None else Some(pairs[k].0))
      && ((forall k | 0 <= k < |pairs| :: StepClean(w, config, prior, pairs, before, k)) ==> breaker == None)
  }

  lemma StopIsUnique(
    w: World, config: Config, prior: seq<string>, pairs: seq<(string, string)>, before: seq<string>, j: nat, k: nat)
    requires StopsAt(w, config, prior, pairs, before, j) && StopsAt(w, config, prior, pairs, before, k)
    ensures j == k
  {
  }

  lemma NextTree(prior: seq<string>, pairs: seq<(string, string)>, before: seq<string>, k: nat)
    requires k < |pairs|
    ensures TreeAt(prior, pairs, k + 1) == TreeAt(prior, pairs, k) + [pairs[k].1]
    ensures IdsAt(before, pairs, k + 1) == IdsAt(before, pairs, k) + [pairs[k].0]
  {
    assert pairs[..k + 1] == pairs[..k] + [pairs[k]];
    assert Seconds(pairs[..k + 1]) == Seconds(pairs[..k]) + [pairs[k].1];
    assert Firsts(pairs[..k + 1]) == Firsts(pairs[..k]) + [pairs[k].0];
  }

  /** Merge component `k`, set the tree up and test it. */
  method BisectStep(
    w: World, config: Config, prior: seq<string>, pairs: seq<(string, string)>, before: seq<string>, k: nat,
    checkout: Checkout) returns (clean: bool, breaker: Option<string>)
    requires k < |pairs|
    requires checkout.tree == TreeAt(prior, pairs, k) && !checkout.conflicted && !checkout.removed
    modifies checkout
    ensures clean <==> StepClean(w, config, prior, pairs, before, k)
    ensures !checkout.removed
    ensures clean ==> checkout.tree == TreeAt(prior, pairs, k + 1) && !checkout.conflicted
    ensures !clean ==> breaker == if SetupStops(w, prior, pairs, k) then None else Some(pairs[k].0)
  {
    NextTree(prior, pairs, before, k);
    var ok := checkout.Merge(w, pairs[k].1);
    if !ok { return false, Some(pairs[k].0); }
    if w.setupFails(checkout.tree) { return false, None; }
    var report := RunChecks(w.commit(checkout.tree), config, IdsAt(before, pairs, k + 1));
    return report.passed, Some(pairs[k].0);
  }

  /** Merge the tier's branches one at a time, testing after each. */
  method BisectBreaker(
    w: World, config: Config, prior: seq<string>, pairs: seq<(string, string)>, before: seq<string>)
    returns (breaker: Option<string>)
    ensures IsBreaker(w, config, prior, pairs, before, breaker)
  {
    if !w.creates(BisectTree) { return None; }
    var checkout := new Checkout();
    var stuck := checkout.MergeAll(w, prior);
    if stuck.Some? {
      checkout.CleanUp();
      return None;
    }
    assert Seconds(pairs[..0]) == [];
    for k := 0 to |pairs|
      invariant checkout.tree == TreeAt(prior, pairs, k) && !checkout.conflicted && !checkout.removed
      invariant forall j | 0 <= j < k :: StepClean(w, config, prior, pairs, before, j)
    {
      var clean, found := BisectStep(w, config, prior, pairs, before, k, checkout);
      if !clean {
        checkout.CleanUp();
        StoppedHere(w, config, prior, pairs, before, k, found);
        return found;
      }
    }
    checkout.CleanUp();
    NeverStopped(w, config, prior, pairs, before);
    breaker := None;
  }

  lemma NeverStopped(
    w: World, config: Config, prior: seq<string>, pairs: seq<(string, string)>, before: seq<string>)
    requires forall k | 0 <= k < |pairs| :: StepClean(w, config, prior, pairs, before, k)
    ensures IsBreaker(w, config, prior, pairs, before, None)
  {
  }

  lemma StoppedHere(
    w: World, config: Config, prior: seq<string>, pairs: seq<(string, string)>, before: seq<string>, k: nat,
    breaker: Option<string>)
    requires w.creates(BisectTree) && MergesCleanly(w, prior)
    requires StopsAt(w, config, prior, pairs, before, k)
    requires breaker == if SetupStops(w, prior, pairs, k) then None else Some(pairs[k].0)
    ensures IsBreaker(w, config, prior, pairs, before, breaker)
  {
    forall j: nat | StopsAt(w, config, prior, pairs, before, j) ensures j == k {
      StopIsUnique(w, config, prior, pairs, before, j, k);
    }
  }

  // --- One tier ---------------------------------------------------------------------------------

  /** The result of one tier check, by what happened. */
  ghost predicate IsTierResult(
    w: World, config: Config, m: Manifest, ids: seq<string>, prior: seq<string>, index: nat, r: ContractResult)
  {
    var pairs := Branched(m, ids);
    var before := IdsOnBranches(m.components, prior);
    var merged := before + Dedup(Firsts(pairs));
    var tree := prior + Seconds(pairs);
    && r.tier == index && r.tested == Firsts(pairs) && r.testedSha == ""
    && (r.passed <==> w.creates(TierTree(index)) && TreePasses(w, config, tree, merged))
    && (r.output.NoWorktree? <==> !w.creates(TierTree(index)))
    && (r.output.PriorConflict? <==> w.creates(TierTree(index)) && !MergesCleanly(w, prior))
    && (r.output.TierConflict? <==>
          w.creates(TierTree(index)) && MergesCleanly(w, prior) && !MergesCleanly(w, tree))
    && (r.output.SetupBroke? <==> w.creates(TierTree(index)) && MergesCleanly(w, tree) && w.setupFails(tree))
    && (r.output.Tested? <==> w.creates(TierTree(index)) && MergesCleanly(w, tree) && !w.setupFails(tree))
    && (r.output.Tested? ==> r.output.report == RunChecksOf(w.commit(tree), config, merged))
    && (r.output.Tested? && !r.passed ==> IsBreaker(w, config, prior, pairs, before, r.breaker))
    && (r.output.TierConflict? ==>
          r.breaker == Some(r.output.id) &&
          exists k | 0 <= k < |pairs| :: pairs[k].0 == r.output.id && ConflictsAt(w, tree, |prior| + k))
    && (r.output.PriorConflict? ==>
          exists k | 0 <= k < |prior| :: prior[k] == r.output.branch && ConflictsAt(w, tree, k))
    && (r.passed || r.output.NoWorktree? || r.output.PriorConflict? || r.output.SetupBroke? ==> r.breaker == None)
  }

  method RunTierCheck(w: World, config: Config, m: Manifest, ids: seq<string>, prior: seq<string>, index: nat)
    returns (r: ContractResult)
    ensures IsTierResult(w, config, m, ids, prior, index, r)
  {
    var pairs := Branched(m, ids);
    var before := IdsOnBranches(m.components, prior);
    var merged := before + Dedup(Firsts(pairs));
    if !w.creates(TierTree(index)) { return ContractResult(false, index, Firsts(pairs), None, NoWorktree); }
    var tree := prior + Seconds(pairs);
    var checkout := new Checkout();
    var stuck := checkout.MergeAll(w, tree);
    PriorMerges(w, prior, Seconds(pairs));
    if stuck.Some? {
      checkout.CleanUp();
      var k := stuck.value;
      if k < |prior| {
        assert tree[..k] == prior[..k] && tree[k] == prior[k];
        return ContractResult(false, index, Firsts(pairs), None, PriorConflict(prior[k]));
      }
      PrefixMerges(w, tree[..k], |prior|);
      assert tree[..k][..|prior|] == prior;
      assert ConflictsAt(w, tree, |prior| + (k - |prior|));
      return ContractResult(false, index, Firsts(pairs), Some(pairs[k - |prior|].0),
          TierConflict(pairs[k - |prior|].0));
    }
    if w.setupFails(checkout.tree) {
      checkout.CleanUp();
      return ContractResult(false, index, Firsts(pairs), None, SetupBroke);
    }
    var report := RunChecks(w.commit(checkout.tree), config, merged);
    checkout.CleanUp();
    if report.passed { return ContractResult(true, index, Firsts(pairs), None, Tested(report)); }
    var breaker := BisectBreaker(w, config, prior, pairs, before);
    r := ContractResult(false, index, Firsts(pairs), breaker, Tested(report));
  }
}
