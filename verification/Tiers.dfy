/**
 Contract testing over the tiers of a plan: tier by tier, or once at the end,
 or once on the base the components merged into; and what the two deferred
 forms and the blame they attribute have to do with each other.

 Source: kstrl/acceptance/contract.py, run_contract_testing.
 */
module Tiers {
  import opened Checks
  import opened BaseScreening
  import opened Carried
  import opened Contract

  datatype Mode = TierMode | FinalMode | SkipMode

  /** The base the components merged into, when each had its own pull request:
      the commit it resolved to, and what the machine makes of it. */
  datatype Integrated = Integrated(sha: string, setupFails: bool, commit: Commit)

  // --- The tiers that are tested ---------------------------------------------------

  function CompletedOf(m: Manifest, tier: seq<string>): seq<string> {
    if tier == [] then []
    else
      var last := tier[|tier| - 1];
      CompletedOf(m, tier[..|tier| - 1]) + if last in CompletedIds(m) then [last] else []
  }

  lemma {:induction false} CompletedExactly(m: Manifest, tier: seq<string>, id: string)
    ensures id in CompletedOf(m, tier) <==> id in tier && id in CompletedIds(m)
  {
    if tier != [] {
      CompletedExactly(m, tier[..|tier| - 1], id);
      assert tier == tier[..|tier| - 1] + [tier[|tier| - 1]];
    }
  }

  predicate AreCompleted(m: Manifest, ids: seq<string>) {
    forall id | id in ids :: id in CompletedIds(m)
  }

  lemma TierIsCompleted(m: Manifest, tier: seq<string>)
    ensures AreCompleted(m, CompletedOf(m, tier))
  {
    forall id | id in CompletedOf(m, tier) ensures id in CompletedIds(m) { CompletedExactly(m, tier, id); }
  }

  /** The completed ids of the first `n` tiers, in order. */
  function Done(m: Manifest, tiers: seq<seq<string>>, n: nat): seq<string>
    requires n <= |tiers|
  {
    if n == 0 then [] else Done(m, tiers, n - 1) + CompletedOf(m, tiers[n - 1])
  }

  lemma {:induction false} DoneIsCompleted(m: Manifest, tiers: seq<seq<string>>, n: nat)
    requires n <= |tiers|
    ensures AreCompleted(m, Done(m, tiers, n))
  {
    if n > 0 {
      DoneIsCompleted(m, tiers, n - 1);
      TierIsCompleted(m, tiers[n - 1]);
    }
  }

  /** The tiers among the first `n` that have something to test. */
  function TestedTiers(m: Manifest, tiers: seq<seq<string>>, n: nat): (indices: seq<nat>)
    requires n <= |tiers|
    ensures forall i | 0 <= i < |indices| :: indices[i] < n
  {
    if n == 0 then []
    else TestedTiers(m, tiers, n - 1) + if CompletedOf(m, tiers[n - 1]) == [] then [] else [n - 1]
  }

  lemma {:induction false} TestedHasSome(m: Manifest, tiers: seq<seq<string>>, n: nat, i: nat)
    requires n <= |tiers| && i < |TestedTiers(m, tiers, n)|
    ensures CompletedOf(m, tiers[TestedTiers(m, tiers, n)[i]]) != []
  {
    if i < |TestedTiers(m, tiers, n - 1)| { TestedHasSome(m, tiers, n - 1, i); }
  }

  lemma {:induction false} TestedIncreases(m: Manifest, tiers: seq<seq<string>>, n: nat, i: nat, j: nat)
    requires n <= |tiers| && i < j < |TestedTiers(m, tiers, n)|
    ensures TestedTiers(m, tiers, n)[i] < TestedTiers(m, tiers, n)[j]
  {
    if j < |TestedTiers(m, tiers, n - 1)| { TestedIncreases(m, tiers, n - 1, i, j); }
  }

  /** A component with this id is completed. */
  predicate IsCompleted(m: Manifest, id: string) {
    exists c | c in m.components :: c.completed && c.id == id
  }

  lemma CompletedSays(m: Manifest, id: string)
    ensures id in CompletedIds(m) <==> IsCompleted(m, id)
  {
  }

  /** A tier is tested iff it lists a completed component. */
  lemma {:induction false} TestedTiersExactly(m: Manifest, tiers: seq<seq<string>>, n: nat, t: nat)
    requires n <= |tiers|
    ensures t in TestedTiers(m, tiers, n) <==> t < n && exists id | id in tiers[t] :: IsCompleted(m, id)
    decreases n
  {
    if n > 0 {
      TestedTiersExactly(m, tiers, n - 1, t);
      if t == n - 1 { SomeCompletedIff(m, tiers[t]); }
    }
  }

  lemma SomeCompletedIff(m: Manifest, tier: seq<string>)
    ensures CompletedOf(m, tier) != [] <==> exists id | id in tier :: IsCompleted(m, id)
  {
    if CompletedOf(m, tier) != [] {
      var id := CompletedOf(m, tier)[0];
      assert id in CompletedOf(m, tier);
      CompletedExactly(m, tier, id);
      assert IsCompleted(m, id);
    }
    if id :| id in tier && IsCompleted(m, id) { CompletedExactly(m, tier, id); }
  }

  /** The ids up to a tier are those of completed components it or a tier
      before it lists. */
  lemma {:induction false} DoneExactly(m: Manifest, tiers: seq<seq<string>>, n: nat, id: string)
    requires n <= |tiers|
    ensures id in Done(m, tiers, n) <==> IsCompleted(m, id) && exists t | 0 <= t < n :: id in tiers[t]
    decreases n
  {
    if n > 0 {
      DoneExactly(m, tiers, n - 1, id);
      CompletedExactly(m, tiers[n - 1], id);
      CompletedSays(m, id);
    }
  }

  function Prior(m: Manifest, tiers: seq<seq<string>>, n: nat): seq<string>
    requires n <= |tiers|
  {
    Seconds(Branched(m, Done(m, tiers, n)))
  }

  lemma {:induction false} BranchedTogether(m: Manifest, one: seq<string>, two: seq<string>)
    ensures Branched(m, one + two) == Branched(m, one) + Branched(m, two)
  {
    if two == [] {
      assert one + two == one;
    } else {
      var init := two[..|two| - 1];
      BranchedTogether(m, one, init);
      assert (one + two)[..|one + two| - 1] == one + init;
    }
  }

  /** Completed ids all name components, so none is dropped on the way. */
  lemma {:induction false} BranchedKeepsIds(m: Manifest, ids: seq<string>)
    requires AreCompleted(m, ids)
    ensures Firsts(Branched(m, ids)) == ids
  {
    if ids != [] {
      var init, last := ids[..|ids| - 1], ids[|ids| - 1];
      assert ids == init + [last];
      BranchedKeepsIds(m, init);
      assert last in CompletedIds(m);
      assert Branched(m, ids) == Branched(m, init) + [(last, GetComponent(m, last).value.branch)];
      assert Firsts(Branched(m, ids)) == Firsts(Branched(m, init)) + [last];
    }
  }

  lemma PriorGrows(m: Manifest, tiers: seq<seq<string>>, n: nat)
    requires n < |tiers|
    ensures Prior(m, tiers, n + 1) == Prior(m, tiers, n) + Seconds(Branched(m, CompletedOf(m, tiers[n])))
  {
    BranchedTogether(m, Done(m, tiers, n), CompletedOf(m, tiers[n]));
    SecondsTogether(Branched(m, Done(m, tiers, n)), Branched(m, CompletedOf(m, tiers[n])));
  }

  lemma SecondsTogether(one: seq<(string, string)>, two: seq<(string, string)>)
    ensures Seconds(one + two) == Seconds(one) + Seconds(two)
  {
  }

  // --- The run -----------------------------------------------------------------------

  ghost predicate AreTierResults(
    w: World, config: Config, m: Manifest, tiers: seq<seq<string>>, indices: seq<nat>, results: seq<ContractResult>)
  {
    && |results| == |indices|
    && forall j | 0 <= j < |indices| ::
         indices[j] < |tiers| &&
         IsTierResult(w, config, m, CompletedOf(m, tiers[indices[j]]), Prior(m, tiers, indices[j]), indices[j],
             results[j])
  }

  /** What contract testing answers in each mode. */
  ghost predicate AreResults(
    w: World, config: Config, m: Manifest, tiers: seq<seq<string>>, mode: Mode, merged: Option<Integrated>,
    results: seq<ContractResult>)
  {
    if mode.SkipMode? || CompletedIds(m) == {} then results == []
    else if merged.Some? then
      |results| == 1 && IsIntegratedResult(w, config, Done(m, tiers, |tiers|), merged.value, results[0])
    else if mode.FinalMode? then
      |results| == 1 && IsTierResult(w, config, m, Done(m, tiers, |tiers|), [], 0, results[0])
    else AreTierResults(w, config, m, tiers, TestedTiers(m, tiers, |tiers|), results)
  }

  method RunContractTesting(
    w: World, config: Config, m: Manifest, tiers: seq<seq<string>>, mode: Mode, merged: Option<Integrated>)
    returns (results: seq<ContractResult>)
    ensures AreResults(w, config, m, tiers, mode, merged, results)
  {
    if mode.SkipMode? || CompletedIds(m) == {} { return []; }
    if merged.Some? {
      var ids := AllDone(m, tiers);
      var result := IntegratedCheck(w, config, ids, merged.value);
      return [result];
    }
    if mode.FinalMode? {
      var ids := AllDone(m, tiers);
      var result := RunTierCheck(w, config, m, ids, [], 0);
      return [result];
    }
    results := TierByTier(w, config, m, tiers);
  }

  method AllDone(m: Manifest, tiers: seq<seq<string>>) returns (ids: seq<string>)
    ensures ids == Done(m, tiers, |tiers|)
  {
    ids := [];
    for n := 0 to |tiers|
      invariant ids == Done(m, tiers, n)
    {
      ids := ids + CompletedOf(m, tiers[n]);
    }
  }

  method TierByTier(w: World, config: Config, m: Manifest, tiers: seq<seq<string>>)
      returns (results: seq<ContractResult>)
    ensures AreTierResults(w, config, m, tiers, TestedTiers(m, tiers, |tiers|), results)
  {
    results := [];
    var prior: seq<string> := [];
    assert Prior(m, tiers, 0) == [];
    for n := 0 to |tiers|
      invariant prior == Prior(m, tiers, n)
      invariant AreTierResults(w, config, m, tiers, TestedTiers(m, tiers, n), results)
    {
      var ids := CompletedOf(m, tiers[n]);
      PriorGrows(m, tiers, n);
      if ids != [] {
        var result := RunTierCheck(w, config, m, ids, prior, n);
        OneMoreResult(w, config, m, tiers, n, results, result);
        results := results + [result];
        prior := prior + Seconds(Branched(m, ids));
      }
    }
  }

  lemma OneMoreResult(
    w: World, config: Config, m: Manifest, tiers: seq<seq<string>>, n: nat, results: seq<ContractResult>,
    r: ContractResult)
    requires n < |tiers| && CompletedOf(m, tiers[n]) != []
    requires AreTierResults(w, config, m, tiers, TestedTiers(m, tiers, n), results)
    requires IsTierResult(w, config, m, CompletedOf(m, tiers[n]), Prior(m, tiers, n), n, r)
    ensures AreTierResults(w, config, m, tiers, TestedTiers(m, tiers, n + 1), results + [r])
  {
    assert TestedTiers(m, tiers, n + 1) == TestedTiers(m, tiers, n) + [n];
  }

  /** What the integrated check answers: the base is tested at the commit it
      was given, for all components at once, and nobody is blamed. */
  ghost predicate IsIntegratedResult(w: World, config: Config, ids: seq<string>, base: Integrated, r: ContractResult) {
    var report := RunChecksOf(base.commit, config, ids);
    && r.breaker == None && r.tested == ids && r.tier == 0 && r.testedSha == base.sha
    && (r.output.NoWorktree? <==> base.sha == "" || !w.creates(IntegratedTree))
    && (r.output.SetupBroke? <==> base.sha != "" && w.creates(IntegratedTree) && base.setupFails)
    && (r.output.Tested? <==> base.sha != "" && w.creates(IntegratedTree) && !base.setupFails)
    && (r.output.Tested? ==> r.output.report == report)
    && (r.passed <==> r.output.Tested? && report.passed)
  }

  method IntegratedCheck(w: World, config: Config, ids: seq<string>, base: Integrated) returns (r: ContractResult)
    ensures IsIntegratedResult(w, config, ids, base, r)
  {
    if base.sha == "" || !w.creates(IntegratedTree) {
      return ContractResult(false, 0, ids, None, NoWorktree, base.sha);
    }
    if base.setupFails { return ContractResult(false, 0, ids, None, SetupBroke, base.sha); }
    var report := RunChecks(base.commit, config, ids);
    r := ContractResult(report.passed, 0, ids, None, TestOutput.Tested(report), base.sha);
  }

  /** Contract testing leaves nobody out: in every mode but skip the results
      together name exactly the completed components the tiers list. */
  lemma EveryCompletedIsTested(
    w: World, config: Config, m: Manifest, tiers: seq<seq<string>>, mode: Mode, merged: Option<Integrated>,
    results: seq<ContractResult>, id: string)
    requires !mode.SkipMode? && AreResults(w, config, m, tiers, mode, merged, results)
    ensures (exists j | 0 <= j < |results| :: id in results[j].tested) <==>
            IsCompleted(m, id) && exists t | 0 <= t < |tiers| :: id in tiers[t]
  {
    DoneExactly(m, tiers, |tiers|, id);
    if CompletedIds(m) == {} {
      CompletedSays(m, id);
    } else if merged.Some? || mode.FinalMode? {
      DoneIsCompleted(m, tiers, |tiers|);
      BranchedKeepsIds(m, Done(m, tiers, |tiers|));
      assert results[0].tested == Done(m, tiers, |tiers|);
    } else {
      TierResultsName(w, config, m, tiers, results, id);
    }
  }

  lemma TierResultsName(
    w: World, config: Config, m: Manifest, tiers: seq<seq<string>>, results: seq<ContractResult>, id: string)
    requires AreTierResults(w, config, m, tiers, TestedTiers(m, tiers, |tiers|), results)
    ensures (exists j | 0 <= j < |results| :: id in results[j].tested) <==>
            IsCompleted(m, id) && exists t | 0 <= t < |tiers| :: id in tiers[t]
  {
    var tested := TestedTiers(m, tiers, |tiers|);
    forall j | 0 <= j < |results|
      ensures id in results[j].tested <==> id in tiers[tested[j]] && IsCompleted(m, id)
    {
      TierResultNames(w, config, m, tiers[tested[j]], Prior(m, tiers, tested[j]), tested[j], results[j], id);
    }
    NamedSomewhere(m, tiers, results, id);
  }

  lemma NamedSomewhere(m: Manifest, tiers: seq<seq<string>>, results: seq<ContractResult>, id: string)
    requires |results| == |TestedTiers(m, tiers, |tiers|)|
    requires forall j | 0 <= j < |results| ::
               id in results[j].tested <==> id in tiers[TestedTiers(m, tiers, |tiers|)[j]] && IsCompleted(m, id)
    ensures (exists j | 0 <= j < |results| :: id in results[j].tested) <==>
            IsCompleted(m, id) && exists t | 0 <= t < |tiers| :: id in tiers[t]
  {
    if t :| 0 <= t < |tiers| && id in tiers[t] && IsCompleted(m, id) {
      TestedTiersExactly(m, tiers, |tiers|, t);
      var tested := TestedTiers(m, tiers, |tiers|);
      var j :| 0 <= j < |tested| && tested[j] == t;
      assert id in results[j].tested;
    }
  }

  lemma TierResultNames(
    w: World, config: Config, m: Manifest, tier: seq<string>, prior: seq<string>, t: nat, r: ContractResult,
    id: string)
    requires IsTierResult(w, config, m, CompletedOf(m, tier), prior, t, r)
    ensures id in r.tested <==> id in tier && IsCompleted(m, id)
  {
    TierIsCompleted(m, tier);
    BranchedKeepsIds(m, CompletedOf(m, tier));
    CompletedExactly(m, tier, id);
    CompletedSays(m, id);
  }

  /** Wherever a tier or the one-shot check passed, every carried check holds on
      all its runs at the merged tree. */
  lemma CarriedHoldsWherePassed(
    w: World, config: Config, m: Manifest, ids: seq<string>, prior: seq<string>, index: nat, r: ContractResult,
    c: CarriedCheck)
    requires NoCollision(config) && c in config.carried
    requires IsTierResult(w, config, m, ids, prior, index, r) && r.passed
    ensures HoldsAt(w.commit(prior + Seconds(Branched(m, ids))).site, c.AsWanted())
  {
    RunChecksMeans(w.commit(prior + Seconds(Branched(m, ids))), config, TierMerged(m, ids, prior));
  }

  // --- The incremental form agrees with the one-shot form ------------------------------

  /** The ids a branch list stands for. */
  function IdsOn(m: Manifest, branches: seq<string>): set<string> {
    set c | c in m.components && c.branch in branches :: c.id
  }

  /** No component outside `ids` shares a branch with one in it. */
  predicate NoStray(m: Manifest, ids: seq<string>) {
    forall c | c in m.components && c.branch in Seconds(Branched(m, ids)) :: c.id in ids
  }

  /** Components on one branch are one component. */
  predicate BranchesTell(m: Manifest) {
    forall a, b | a in m.components && b in m.components && a.branch == b.branch :: a.id == b.id
  }

  lemma {:induction false} BranchedMembers(m: Manifest, ids: seq<string>, pair: (string, string))
    ensures pair in Branched(m, ids) <==>
            pair.0 in ids && GetComponent(m, pair.0).Some? && GetComponent(m, pair.0).value.branch == pair.1
  {
    if ids != [] {
      BranchedMembers(m, ids[..|ids| - 1], pair);
      assert ids == ids[..|ids| - 1] + [ids[|ids| - 1]];
    }
  }

  lemma SecondsMembers(m: Manifest, ids: seq<string>, branch: string)
    ensures branch in Seconds(Branched(m, ids)) <==>
            exists id | id in ids :: GetComponent(m, id).Some? && GetComponent(m, id).value.branch == branch
  {
    var pairs := Branched(m, ids);
    if branch in Seconds(pairs) {
      var i :| 0 <= i < |pairs| && Seconds(pairs)[i] == branch;
      assert pairs[i] in pairs;
      BranchedMembers(m, ids, pairs[i]);
    }
    if id :| id in ids && GetComponent(m, id).Some? && GetComponent(m, id).value.branch == branch {
      BranchedMembers(m, ids, (id, branch));
      var i :| 0 <= i < |pairs| && pairs[i] == (id, branch);
      assert Seconds(pairs)[i] == branch;
    }
  }

  lemma DistinctBranchesLeaveNoStray(m: Manifest, ids: seq<string>)
    requires BranchesTell(m)
    ensures NoStray(m, ids)
  {
    forall c | c in m.components && c.branch in Seconds(Branched(m, ids)) ensures c.id in ids {
      SecondsMembers(m, ids, c.branch);
    }
  }

  /** Where nothing strays, the branches of completed ids stand for exactly
      those ids. */
  lemma IdsOnPrior(m: Manifest, ids: seq<string>)
    requires NoStray(m, ids) && AreCompleted(m, ids)
    ensures IdsOn(m, Seconds(Branched(m, ids))) == set id | id in ids
  {
    forall id | id in ids ensures id in IdsOn(m, Seconds(Branched(m, ids))) {
      assert id in CompletedIds(m);
      var c := GetComponent(m, id).value;
      SecondsMembers(m, ids, c.branch);
    }
  }

  /** The ids a tier check hands to its checks. */
  function TierMerged(m: Manifest, ids: seq<string>, prior: seq<string>): seq<string> {
    IdsOnBranches(m.components, prior) + Dedup(Firsts(Branched(m, ids)))
  }

  lemma TierIds(m: Manifest, ids: seq<string>, prior: seq<string>)
    requires AreCompleted(m, ids)
    ensures forall id :: id in TierMerged(m, ids, prior) <==> id in IdsOn(m, prior) || id in ids
  {
    BranchedKeepsIds(m, ids);
    forall id ensures id in IdsOnBranches(m.components, prior) <==> id in IdsOn(m, prior) {
    }
  }

  lemma DoneAfterLast(m: Manifest, tiers: seq<seq<string>>, n: nat, last: nat)
    requires last < n <= |tiers| && TestedTiers(m, tiers, n) != []
    requires last == TestedTiers(m, tiers, n)[|TestedTiers(m, tiers, n)| - 1]
    ensures Done(m, tiers, n) == Done(m, tiers, last + 1)
  {
    if last + 1 < n {
      assert CompletedOf(m, tiers[n - 1]) == [];
      DoneAfterLast(m, tiers, n - 1, last);
    }
  }

  /** What the last tested tier tests, the final form tests too: the same tree,
      and the same components unless one strays onto an earlier branch. */
  lemma LastTierIsFinal(m: Manifest, tiers: seq<seq<string>>, last: nat)
    requires TestedTiers(m, tiers, |tiers|) != []
    requires last == TestedTiers(m, tiers, |tiers|)[|TestedTiers(m, tiers, |tiers|)| - 1]
    ensures Prior(m, tiers, last) + Seconds(Branched(m, CompletedOf(m, tiers[last]))) ==
            [] + Seconds(Branched(m, Done(m, tiers, |tiers|)))
    ensures Done(m, tiers, |tiers|) == Done(m, tiers, last) + CompletedOf(m, tiers[last])
  {
    DoneAfterLast(m, tiers, |tiers|, last);
    PriorGrows(m, tiers, last);
  }

  lemma SameVerdict(commit: Commit, config: Config, one: seq<string>, two: seq<string>)
    requires NoCollision(config) && (set id | id in one) == (set id | id in two)
    ensures RunChecksOf(commit, config, one).passed == RunChecksOf(commit, config, two).passed
  {
    RunChecksMeans(commit, config, one);
    RunChecksMeans(commit, config, two);
  }

  lemma LastTierTestsTheSame(m: Manifest, tiers: seq<seq<string>>, last: nat)
    requires TestedTiers(m, tiers, |tiers|) != []
    requires last == TestedTiers(m, tiers, |tiers|)[|TestedTiers(m, tiers, |tiers|)| - 1]
    requires IdsOn(m, Prior(m, tiers, last)) <= set id | id in Done(m, tiers, |tiers|)
    ensures (set id | id in TierMerged(m, CompletedOf(m, tiers[last]), Prior(m, tiers, last))) ==
            (set id | id in TierMerged(m, Done(m, tiers, |tiers|), []))
  {
    LastTierIsFinal(m, tiers, last);
    TierIsCompleted(m, tiers[last]);
    DoneIsCompleted(m, tiers, |tiers|);
    DoneIsCompleted(m, tiers, last);
    TierIds(m, CompletedOf(m, tiers[last]), Prior(m, tiers, last));
    TierIds(m, Done(m, tiers, |tiers|), []);
    PriorIdsCovered(m, Done(m, tiers, last));
  }

  /** In TIER mode the verdict of the last tested tier is FINAL mode's verdict. */
  lemma FinalAgreesWithLastTier(
    w: World, config: Config, m: Manifest, tiers: seq<seq<string>>, last: nat, tier: ContractResult,
    final: ContractResult)
    requires NoCollision(config)
    requires TestedTiers(m, tiers, |tiers|) != []
    requires last == TestedTiers(m, tiers, |tiers|)[|TestedTiers(m, tiers, |tiers|)| - 1]
    requires IsTierResult(w, config, m, CompletedOf(m, tiers[last]), Prior(m, tiers, last), last, tier)
    requires IsTierResult(w, config, m, Done(m, tiers, |tiers|), [], 0, final)
    requires w.creates(TierTree(last)) && w.creates(TierTree(0))
    requires IdsOn(m, Prior(m, tiers, last)) <= set id | id in Done(m, tiers, |tiers|)
    ensures tier.passed <==> final.passed
  {
    LastTierIsFinal(m, tiers, last);
    LastTierTestsTheSame(m, tiers, last);
    SameVerdict(w.commit([] + Seconds(Branched(m, Done(m, tiers, |tiers|)))), config,
                TierMerged(m, CompletedOf(m, tiers[last]), Prior(m, tiers, last)),
                TierMerged(m, Done(m, tiers, |tiers|), []));
  }

  lemma StrayIds(m: Manifest, tiers: seq<seq<string>>, last: nat, stray: string)
    requires last < |tiers|
    requires stray in IdsOn(m, Prior(m, tiers, last)) && stray !in Done(m, tiers, |tiers|)
    ensures stray in TierMerged(m, CompletedOf(m, tiers[last]), Prior(m, tiers, last))
    ensures stray !in TierMerged(m, Done(m, tiers, |tiers|), [])
  {
    TierIsCompleted(m, tiers[last]);
    DoneIsCompleted(m, tiers, |tiers|);
    TierIds(m, CompletedOf(m, tiers[last]), Prior(m, tiers, last));
    TierIds(m, Done(m, tiers, |tiers|), []);
  }

  /** A machine on which everything works but the checks. */
  function FailingWorld(): World {
    World(t => true, (t, b) => true, t => false, t => FailingCommit())
  }

  /** A commit on which every acceptance check exits 1. */
  function FailingCommit(): Commit { Commit(name => true, SteadySite("sha", 1)) }

  /** A plan with one check, for one component. */
  function FailsFor(comp: string): Config {
    Config(Some([]),
           Some(PinnedPlan("plan",
               map[comp := ComponentPlan(false, [Check("check", "", ["false"], FailsOnBase, false, "")])],
                           false)), [])
  }

  lemma FailsForExactly(comp: string, merged: seq<string>)
    ensures NoCollision(FailsFor(comp))
    ensures RunChecksOf(FailingCommit(), FailsFor(comp), merged).passed <==> comp !in merged
  {
    var plan := FailsFor(comp).plan.value;
    RunChecksMeans(FailingCommit(), FailsFor(comp), merged);
    var item := Wanted("plan", comp, plan.components[comp].checks[0]);
    assert Planned(plan, item);
    assert FailingCommit().site.run(item.digest, item.check, 1).exit != Some(0);
    assert !HoldsAt(FailingCommit().site, item);
  }

  lemma PriorIdsCovered(m: Manifest, ids: seq<string>)
    requires AreCompleted(m, ids)
    ensures (set id | id in ids) <= IdsOn(m, Seconds(Branched(m, ids)))
  {
    forall id | id in ids ensures id in IdsOn(m, Seconds(Branched(m, ids))) {
      assert id in CompletedIds(m);
      SecondsMembers(m, ids, GetComponent(m, id).value.branch);
    }
  }

  // --- Blame --------------------------------------------------------------------------

  /** The last step of a bisection tests what the tier check tested. */
  lemma LastStepFails(
    w: World, config: Config, m: Manifest, ids: seq<string>, prior: seq<string>)
    requires NoCollision(config) && Branched(m, ids) != []
    requires !RunChecksOf(w.commit(prior + Seconds(Branched(m, ids))), config, TierMerged(m, ids, prior)).passed
    ensures !StepClean(w, config, prior, Branched(m, ids), IdsOnBranches(m.components, prior), |Branched(m, ids)| - 1)
  {
    var pairs, before := Branched(m, ids), IdsOnBranches(m.components, prior);
    assert pairs[..|pairs|] == pairs;
    assert (set id | id in IdsAt(before, pairs, |pairs|)) == (set id | id in TierMerged(m, ids, prior));
    SameVerdict(w.commit(prior + Seconds(pairs)), config, IdsAt(before, pairs, |pairs|), TierMerged(m, ids, prior));
  }

  /** A tier one of whose steps is not clean has a first one. */
  lemma FirstStop(
    w: World, config: Config, prior: seq<string>, pairs: seq<(string, string)>, before: seq<string>, end: nat)
    returns (k: nat)
    requires end < |pairs| && !StepClean(w, config, prior, pairs, before, end)
    ensures StopsAt(w, config, prior, pairs, before, k)
    decreases end
  {
    if j :| 0 <= j < end && !StepClean(w, config, prior, pairs, before, j) {
      k := FirstStop(w, config, prior, pairs, before, j);
    } else {
      k := end;
    }
  }

  lemma CleanPrefixes(w: World, prior: seq<string>, pairs: seq<(string, string)>)
    requires MergesCleanly(w, prior + Seconds(pairs))
    ensures MergesCleanly(w, prior)
    ensures forall j | 0 <= j < |pairs| :: w.merges(TreeAt(prior, pairs, j), pairs[j].1)
    ensures forall j | 0 <= j <= |pairs| :: MergesCleanly(w, TreeAt(prior, pairs, j))
  {
    var tree := prior + Seconds(pairs);
    forall i | 0 <= i < |prior| ensures w.merges(prior[..i], prior[i]) {
      assert tree[..i] == prior[..i] && tree[i] == prior[i];
    }
    forall j | 0 <= j <= |pairs|
      ensures j < |pairs| ==> w.merges(TreeAt(prior, pairs, j), pairs[j].1)
      ensures MergesCleanly(w, TreeAt(prior, pairs, j))
    {
      var at := TreeAt(prior, pairs, j);
      assert at == tree[..|prior| + j];
      forall i | 0 <= i < |at| ensures w.merges(at[..i], at[i]) {
        assert at[..i] == tree[..i] && at[i] == tree[i];
      }
      if j < |pairs| { assert tree[|prior| + j] == pairs[j].1; }
    }
  }

  /** Bisection is exact: it names the first component whose prefix of the tier
      fails its checks, and it names nobody exactly when the setup of a prefix
      no longer than that one fails. */
  lemma BlameIsExact(
    w: World, config: Config, m: Manifest, ids: seq<string>, prior: seq<string>, index: nat, r: ContractResult)
    returns (k: nat)
    requires NoCollision(config) && IsTierResult(w, config, m, ids, prior, index, r)
    requires r.output.Tested? && !r.passed && Branched(m, ids) != [] && w.creates(BisectTree)
    ensures k < |Branched(m, ids)|
    ensures var pairs, before := Branched(m, ids), IdsOnBranches(m.components, prior);
            && (forall j | 0 < j <= k :: TreePasses(w, config, TreeAt(prior, pairs, j), IdsAt(before, pairs, j)))
            && !TreePasses(w, config, TreeAt(prior, pairs, k + 1), IdsAt(before, pairs, k + 1))
            && MergesCleanly(w, TreeAt(prior, pairs, k + 1))
            && r.breaker == if w.setupFails(TreeAt(prior, pairs, k + 1)) then None else Some(pairs[k].0)
  {
    var pairs, before := Branched(m, ids), IdsOnBranches(m.components, prior);
    CleanPrefixes(w, prior, pairs);
    LastStepFails(w, config, m, ids, prior);
    k := FirstStop(w, config, prior, pairs, before, |pairs| - 1);
    forall j | 0 < j <= k ensures TreePasses(w, config, TreeAt(prior, pairs, j), IdsAt(before, pairs, j)) {
      assert StepClean(w, config, prior, pairs, before, j - 1);
    }
  }

  /** A tier whose branches conflict names the first component that does. */
  lemma ConflictNamesFirst(
    w: World, config: Config, m: Manifest, ids: seq<string>, prior: seq<string>, index: nat, r: ContractResult)
    returns (k: nat)
    requires IsTierResult(w, config, m, ids, prior, index, r) && w.creates(TierTree(index))
    requires MergesCleanly(w, prior) && !MergesCleanly(w, prior + Seconds(Branched(m, ids)))
    ensures var pairs := Branched(m, ids);
            && k < |pairs| && !r.passed && r.breaker == Some(pairs[k].0)
            && !w.merges(TreeAt(prior, pairs, k), pairs[k].1)
            && forall j | 0 <= j < k :: w.merges(TreeAt(prior, pairs, j), pairs[j].1)
  {
    var pairs := Branched(m, ids);
    var tree := prior + Seconds(pairs);
    k :| 0 <= k < |pairs| && pairs[k].0 == r.output.id && ConflictsAt(w, tree, |prior| + k);
    BranchAt(prior, pairs, k);
    FirstsMerge(w, prior, pairs, k);
  }

  lemma BranchAt(prior: seq<string>, pairs: seq<(string, string)>, j: nat)
    requires j < |pairs|
    ensures (prior + Seconds(pairs))[..|prior| + j] == TreeAt(prior, pairs, j)
    ensures (prior + Seconds(pairs))[|prior| + j] == pairs[j].1
  {
  }

  lemma FirstsMerge(w: World, prior: seq<string>, pairs: seq<(string, string)>, k: nat)
    requires k < |pairs| && MergesCleanly(w, (prior + Seconds(pairs))[..|prior| + k])
    ensures forall j | 0 <= j < k :: w.merges(TreeAt(prior, pairs, j), pairs[j].1)
  {
    var tree := prior + Seconds(pairs);
    forall j | 0 <= j < k ensures w.merges(TreeAt(prior, pairs, j), pairs[j].1) {
      BranchAt(prior, pairs, j);
      assert tree[..|prior| + k][..|prior| + j] == tree[..|prior| + j];
    }
  }

  /** The merge of component `k` is the one that turned pass into fail. */
  ghost predicate TurnsPassIntoFail(w: World, config: Config, m: Manifest, ids: seq<string>, prior: seq<string>,
                                    k: nat) {
    var pairs, before := Branched(m, ids), IdsOnBranches(m.components, prior);
    && k < |pairs|
    && TreePasses(w, config, TreeAt(prior, pairs, k), IdsAt(before, pairs, k))
    && !TreePasses(w, config, TreeAt(prior, pairs, k + 1), IdsAt(before, pairs, k + 1))
  }

  lemma BlameAfterPass(
    w: World, config: Config, m: Manifest, ids: seq<string>, prior: seq<string>, index: nat, r: ContractResult)
    returns (k: nat)
    requires NoCollision(config) && IsTierResult(w, config, m, ids, prior, index, r)
    requires r.output.Tested? && !r.passed && Branched(m, ids) != [] && w.creates(BisectTree) && r.breaker.Some?
    requires TreePasses(w, config, prior, IdsOnBranches(m.components, prior))
    ensures TurnsPassIntoFail(w, config, m, ids, prior, k) && r.breaker == Some(Branched(m, ids)[k].0)
  {
    k := BlameIsExact(w, config, m, ids, prior, index, r);
    NothingMerged(prior, Branched(m, ids), IdsOnBranches(m.components, prior));
  }

  /** What the check of tier `t` answers in TIER mode. */
  ghost predicate IsResultOf(
    w: World, config: Config, m: Manifest, tiers: seq<seq<string>>, t: nat, r: ContractResult)
  {
    t < |tiers| && IsTierResult(w, config, m, CompletedOf(m, tiers[t]), Prior(m, tiers, t), t, r)
  }

  /** Tiers `t0` and `t` are tested one after the other. */
  predicate Consecutive(m: Manifest, tiers: seq<seq<string>>, t0: nat, t: nat) {
    exists j | 0 < j < |TestedTiers(m, tiers, |tiers|)| ::
      TestedTiers(m, tiers, |tiers|)[j - 1] == t0 && TestedTiers(m, tiers, |tiers|)[j] == t
  }

  /** Whoever sits on a branch of tier `t0` was tested with it: among the ids
      of the branches before it, or in the tier. */
  predicate NoStrayOn(m: Manifest, tiers: seq<seq<string>>, t0: nat)
    requires t0 < |tiers|
  {
    forall c | c in m.components && c.branch in Seconds(Branched(m, CompletedOf(m, tiers[t0]))) ::
      c.id in IdsOn(m, Prior(m, tiers, t0)) || c.id in CompletedOf(m, tiers[t0])
  }

  /** And it is meaningful: if the tier tested before passed and nobody strays
      onto its branches, the tree just before the named component's merge
      passes and the tree just after it does not, even when the component is
      the first of its tier. */
  lemma BreakerTurnedPassIntoFail(
    w: World, config: Config, m: Manifest, tiers: seq<seq<string>>, t0: nat, t: nat, r0: ContractResult,
    r: ContractResult)
    returns (k: nat)
    requires NoCollision(config) && w.creates(BisectTree)
    requires Consecutive(m, tiers, t0, t) && NoStrayOn(m, tiers, t0)
    requires IsResultOf(w, config, m, tiers, t0, r0) && r0.passed
    requires IsResultOf(w, config, m, tiers, t, r) && !r.passed && r.output.Tested? && r.breaker.Some?
    ensures TurnsPassIntoFail(w, config, m, CompletedOf(m, tiers[t]), Prior(m, tiers, t), k)
    ensures r.breaker == Some(Branched(m, CompletedOf(m, tiers[t]))[k].0)
  {
    ConsecutiveTiers(m, tiers, t0, t);
    TierHasBranches(m, tiers[t]);
    PreviousTierPassesPrior(w, config, m, tiers, t0, t, r0);
    k := BlameAfterPass(w, config, m, CompletedOf(m, tiers[t]), Prior(m, tiers, t), t, r);
  }

  lemma TierHasBranches(m: Manifest, tier: seq<string>)
    requires CompletedOf(m, tier) != []
    ensures Branched(m, CompletedOf(m, tier)) != []
  {
    TierIsCompleted(m, tier);
    BranchedKeepsIds(m, CompletedOf(m, tier));
    assert |Firsts(Branched(m, CompletedOf(m, tier)))| == |CompletedOf(m, tier)|;
  }

  lemma NothingMerged(prior: seq<string>, pairs: seq<(string, string)>, before: seq<string>)
    ensures TreeAt(prior, pairs, 0) == prior && IdsAt(before, pairs, 0) == before
  {
    assert pairs[..0] == [];
  }

  lemma ConsecutiveTiers(m: Manifest, tiers: seq<seq<string>>, t0: nat, t: nat)
    requires Consecutive(m, tiers, t0, t)
    ensures t0 < t < |tiers| && Done(m, tiers, t) == Done(m, tiers, t0 + 1) && CompletedOf(m, tiers[t]) != []
  {
    GapIsEmpty(m, tiers, t0, t);
    DoneAcrossGap(m, tiers, t0 + 1, t);
  }

  lemma GapIsEmpty(m: Manifest, tiers: seq<seq<string>>, t0: nat, t: nat)
    requires Consecutive(m, tiers, t0, t)
    ensures t0 < t < |tiers| && CompletedOf(m, tiers[t]) != []
    ensures forall i | t0 + 1 <= i < t :: CompletedOf(m, tiers[i]) == []
  {
    var j: nat :| 0 < j < |TestedTiers(m, tiers, |tiers|)| &&
                  TestedTiers(m, tiers, |tiers|)[j - 1] == t0 && TestedTiers(m, tiers, |tiers|)[j] == t;
    TestedIncreases(m, tiers, |tiers|, j - 1, j);
    TestedHasSome(m, tiers, |tiers|, j);
    forall i | t0 + 1 <= i < t ensures CompletedOf(m, tiers[i]) == [] { NothingBetween(m, tiers, j - 1, i); }
  }

  lemma NothingBetween(m: Manifest, tiers: seq<seq<string>>, i: nat, t: nat)
    requires i + 1 < |TestedTiers(m, tiers, |tiers|)|
    requires TestedTiers(m, tiers, |tiers|)[i] < t < TestedTiers(m, tiers, |tiers|)[i + 1]
    ensures t < |tiers| && CompletedOf(m, tiers[t]) == []
  {
    if CompletedOf(m, tiers[t]) != [] {
      TestedAll(m, tiers, |tiers|, t);
      var k :| 0 <= k < |TestedTiers(m, tiers, |tiers|)| && TestedTiers(m, tiers, |tiers|)[k] == t;
      if k < i { TestedIncreases(m, tiers, |tiers|, k, i); }
      if i + 1 < k { TestedIncreases(m, tiers, |tiers|, i + 1, k); }
    }
  }

  lemma {:induction false} TestedAll(m: Manifest, tiers: seq<seq<string>>, n: nat, t: nat)
    requires t < n <= |tiers|
    ensures CompletedOf(m, tiers[t]) != [] ==> t in TestedTiers(m, tiers, n)
  {
    if t < n - 1 {
      TestedAll(m, tiers, n - 1, t);
    } else if CompletedOf(m, tiers[t]) != [] {
      assert TestedTiers(m, tiers, n)[|TestedTiers(m, tiers, n)| - 1] == t;
    }
  }

  lemma {:induction false} DoneAcrossGap(m: Manifest, tiers: seq<seq<string>>, from: nat, to: nat)
    requires from <= to <= |tiers| && forall t | from <= t < to :: CompletedOf(m, tiers[t]) == []
    ensures Done(m, tiers, to) == Done(m, tiers, from)
  {
    if from < to { DoneAcrossGap(m, tiers, from, to - 1); }
  }

  /** The tree a tier starts from is the tree the tier tested before it ended
      with, tested for the same components where nobody strays. */
  lemma PreviousTierPassesPrior(
    w: World, config: Config, m: Manifest, tiers: seq<seq<string>>, t0: nat, t: nat, r0: ContractResult)
    requires NoCollision(config)
    requires t0 < t < |tiers| && Done(m, tiers, t) == Done(m, tiers, t0 + 1) && NoStrayOn(m, tiers, t0)
    requires IsResultOf(w, config, m, tiers, t0, r0) && r0.passed
    ensures TreePasses(w, config, Prior(m, tiers, t), IdsOnBranches(m.components, Prior(m, tiers, t)))
  {
    PriorGrows(m, tiers, t0);
    PriorStandsForTested(m, tiers, t0, t);
    SameVerdict(w.commit(Prior(m, tiers, t)), config,
                TierMerged(m, CompletedOf(m, tiers[t0]), Prior(m, tiers, t0)),
                IdsOnBranches(m.components, Prior(m, tiers, t)));
  }

  lemma PriorStandsForTested(m: Manifest, tiers: seq<seq<string>>, t0: nat, t: nat)
    requires t0 < t < |tiers| && Done(m, tiers, t) == Done(m, tiers, t0 + 1) && NoStrayOn(m, tiers, t0)
    ensures (set id | id in TierMerged(m, CompletedOf(m, tiers[t0]), Prior(m, tiers, t0))) ==
            (set id | id in IdsOnBranches(m.components, Prior(m, tiers, t)))
  {
    var ids0, prior0 := CompletedOf(m, tiers[t0]), Prior(m, tiers, t0);
    PriorGrows(m, tiers, t0);
    TierIsCompleted(m, tiers[t0]);
    TierIds(m, ids0, prior0);
    PriorIdsCovered(m, ids0);
    IdsOnTogether(m, prior0, Seconds(Branched(m, ids0)));
    assert (set id | id in IdsOnBranches(m.components, Prior(m, tiers, t))) == IdsOn(m, Prior(m, tiers, t));
  }

  lemma IdsOnTogether(m: Manifest, one: seq<string>, two: seq<string>)
    ensures IdsOn(m, one + two) == IdsOn(m, one) + IdsOn(m, two)
  {
  }

  lemma DistinctBranchesLeaveNoStrayOn(m: Manifest, tiers: seq<seq<string>>, t0: nat)
    requires BranchesTell(m) && t0 < |tiers|
    ensures NoStrayOn(m, tiers, t0)
  {
    var ids0 := CompletedOf(m, tiers[t0]);
    DistinctBranchesLeaveNoStray(m, ids0);
  }

  // --- When blame misleads ---------------------------------------------------------------

  /** The answer of a tier check that got as far as its checks. */
  function TestedResult(
    w: World, config: Config, m: Manifest, ids: seq<string>, prior: seq<string>, index: nat, breaker: Option<string>)
    : ContractResult
  {
    var pairs := Branched(m, ids);
    var report := RunChecksOf(w.commit(prior + Seconds(pairs)), config, TierMerged(m, ids, prior));
    ContractResult(report.passed, index, Firsts(pairs), breaker, TestOutput.Tested(report))
  }

  lemma EverythingMerges(tree: Tree)
    ensures MergesCleanly(FailingWorld(), tree) && !FailingWorld().setupFails(tree)
    ensures FailingWorld().commit(tree) == FailingCommit()
  {
  }

  lemma PassesWithout(m: Manifest, ids: seq<string>, prior: seq<string>, index: nat, comp: string)
    requires comp !in TierMerged(m, ids, prior)
    ensures var r := TestedResult(FailingWorld(), FailsFor(comp), m, ids, prior, index, None);
            IsTierResult(FailingWorld(), FailsFor(comp), m, ids, prior, index, r) && r.passed
  {
    FailsForExactly(comp, TierMerged(m, ids, prior));
    EverythingMerges(prior + Seconds(Branched(m, ids)));
  }

  /** A component already on the branches before a tier fails every prefix of
      it, the empty one too, and the bisection blames the tier's first. */
  lemma BlamesFirst(m: Manifest, ids: seq<string>, prior: seq<string>, index: nat, comp: string)
    requires Branched(m, ids) != [] && comp in IdsOn(m, prior)
    ensures var r := TestedResult(FailingWorld(), FailsFor(comp), m, ids, prior, index, Some(Branched(m, ids)[0].0));
            IsTierResult(FailingWorld(), FailsFor(comp), m, ids, prior, index, r) && !r.passed
  {
    assert comp in IdsOnBranches(m.components, prior);
    FailsForExactly(comp, TierMerged(m, ids, prior));
    EverythingMerges(prior + Seconds(Branched(m, ids)));
    NamesFirst(prior, Branched(m, ids), IdsOnBranches(m.components, prior), comp);
  }

  lemma NamesFirst(prior: seq<string>, pairs: seq<(string, string)>, before: seq<string>, comp: string)
    requires pairs != [] && comp in before
    ensures IsBreaker(FailingWorld(), FailsFor(comp), prior, pairs, before, Some(pairs[0].0))
  {
    FailsForExactly(comp, IdsAt(before, pairs, 1));
    EverythingMerges(prior);
    EverythingMerges(TreeAt(prior, pairs, 1));
    StoppedHere(FailingWorld(), FailsFor(comp), prior, pairs, before, 0, Some(pairs[0].0));
  }

  lemma NeverTurns(m: Manifest, tiers: seq<seq<string>>, t: nat, comp: string, k: nat)
    requires t < |tiers| && comp in IdsOn(m, Prior(m, tiers, t))
    ensures !TurnsPassIntoFail(FailingWorld(), FailsFor(comp), m, CompletedOf(m, tiers[t]), Prior(m, tiers, t), k)
  {
    var pairs, before := Branched(m, CompletedOf(m, tiers[t])), IdsOnBranches(m.components, Prior(m, tiers, t));
    assert comp in before;
    if k < |pairs| { FailsForExactly(comp, IdsAt(before, pairs, k)); }
  }

  /** Without that condition blame misleads: for every manifest with a
      component that strays onto a branch of the tier before, there are a
      machine and a plan with which that tier passes, the next one fails and
      names its first component, and yet no merge of the tier turned pass into
      fail. */
  lemma StrayMisblames(m: Manifest, tiers: seq<seq<string>>, t0: nat, t: nat)
    returns (w: World, config: Config, r0: ContractResult, r: ContractResult)
    requires Consecutive(m, tiers, t0, t) && t0 < |tiers| && !NoStrayOn(m, tiers, t0)
    ensures NoCollision(config) && w.creates(BisectTree)
    ensures IsResultOf(w, config, m, tiers, t0, r0) && r0.passed
    ensures IsResultOf(w, config, m, tiers, t, r) && !r.passed && r.output.Tested? && r.breaker.Some?
    ensures forall k: nat :: !TurnsPassIntoFail(w, config, m, CompletedOf(m, tiers[t]), Prior(m, tiers, t), k)
  {
    ConsecutiveTiers(m, tiers, t0, t);
    var stray := StrayIsTestedLater(m, tiers, t0, t);
    w, config := FailingWorld(), FailsFor(stray);
    FailsForExactly(stray, []);
    TierHasBranches(m, tiers[t]);
    var ids0, ids := CompletedOf(m, tiers[t0]), CompletedOf(m, tiers[t]);
    PassesWithout(m, ids0, Prior(m, tiers, t0), t0, stray);
    BlamesFirst(m, ids, Prior(m, tiers, t), t, stray);
    r0 := TestedResult(w, config, m, ids0, Prior(m, tiers, t0), t0, None);
    r := TestedResult(w, config, m, ids, Prior(m, tiers, t), t, Some(Branched(m, ids)[0].0));
    forall k: nat ensures !TurnsPassIntoFail(w, config, m, CompletedOf(m, tiers[t]), Prior(m, tiers, t), k) {
      NeverTurns(m, tiers, t, stray, k);
    }
  }

  /** A component that strays is not tested with its branch and is tested on
      it from the next tier on. */
  lemma StrayIsTestedLater(m: Manifest, tiers: seq<seq<string>>, t0: nat, t: nat) returns (stray: string)
    requires t0 < t < |tiers| && Done(m, tiers, t) == Done(m, tiers, t0 + 1) && !NoStrayOn(m, tiers, t0)
    ensures stray !in TierMerged(m, CompletedOf(m, tiers[t0]), Prior(m, tiers, t0))
    ensures stray in IdsOn(m, Prior(m, tiers, t))
  {
    var ids0 := CompletedOf(m, tiers[t0]);
    var c :| c in m.components && c.branch in Seconds(Branched(m, ids0)) &&
             c.id !in IdsOn(m, Prior(m, tiers, t0)) && c.id !in ids0;
    stray := c.id;
    PriorGrows(m, tiers, t0);
    TierIsCompleted(m, tiers[t0]);
    TierIds(m, ids0, Prior(m, tiers, t0));
  }

  /** The results of the last tested tier and of FINAL mode on one machine. */
  ghost predicate BothForms(
    w: World, config: Config, m: Manifest, tiers: seq<seq<string>>, last: nat, tier: ContractResult,
    final: ContractResult)
    requires last < |tiers|
  {
    && NoCollision(config) && w.creates(TierTree(last)) && w.creates(TierTree(0))
    && IsTierResult(w, config, m, CompletedOf(m, tiers[last]), Prior(m, tiers, last), last, tier)
    && IsTierResult(w, config, m, Done(m, tiers, |tiers|), [], 0, final)
  }

  /** Both halves of the agreement of the two forms: on every machine and for
      every plan they give one verdict iff whoever sits on an earlier tier's
      branch is among the tested. */
  lemma FormsAgreeIff(m: Manifest, tiers: seq<seq<string>>, last: nat)
    requires TestedTiers(m, tiers, |tiers|) != []
    requires last == TestedTiers(m, tiers, |tiers|)[|TestedTiers(m, tiers, |tiers|)| - 1]
    ensures (forall w, config, tier, final | BothForms(w, config, m, tiers, last, tier, final) ::
               tier.passed == final.passed) <==>
            IdsOn(m, Prior(m, tiers, last)) <= set id | id in Done(m, tiers, |tiers|)
  {
    if IdsOn(m, Prior(m, tiers, last)) <= set id | id in Done(m, tiers, |tiers|) {
      forall w, config, tier, final | BothForms(w, config, m, tiers, last, tier, final)
        ensures tier.passed == final.passed
      {
        FinalAgreesWithLastTier(w, config, m, tiers, last, tier, final);
      }
    } else {
      var stray :| stray in IdsOn(m, Prior(m, tiers, last)) && stray !in Done(m, tiers, |tiers|);
      var w, config, tier, final := FormsDisagree(m, tiers, last, stray);
    }
  }

  /** Distinct branch names are enough for that. */
  lemma DistinctBranchesAgree(m: Manifest, tiers: seq<seq<string>>, last: nat)
    requires BranchesTell(m) && TestedTiers(m, tiers, |tiers|) != []
    requires last == TestedTiers(m, tiers, |tiers|)[|TestedTiers(m, tiers, |tiers|)| - 1]
    ensures IdsOn(m, Prior(m, tiers, last)) <= set id | id in Done(m, tiers, |tiers|)
  {
    LastTierIsFinal(m, tiers, last);
    DoneIsCompleted(m, tiers, last);
    DistinctBranchesLeaveNoStray(m, Done(m, tiers, last));
    IdsOnPrior(m, Done(m, tiers, last));
  }

  lemma FormsDisagree(m: Manifest, tiers: seq<seq<string>>, last: nat, stray: string)
    returns (w: World, config: Config, tier: ContractResult, final: ContractResult)
    requires TestedTiers(m, tiers, |tiers|) != []
    requires last == TestedTiers(m, tiers, |tiers|)[|TestedTiers(m, tiers, |tiers|)| - 1]
    requires stray in IdsOn(m, Prior(m, tiers, last)) && stray !in Done(m, tiers, |tiers|)
    ensures BothForms(w, config, m, tiers, last, tier, final) && !tier.passed && final.passed
  {
    TestedHasSome(m, tiers, |tiers|, |TestedTiers(m, tiers, |tiers|)| - 1);
    TierHasBranches(m, tiers[last]);
    StrayIds(m, tiers, last, stray);
    FailsForExactly(stray, []);
    var ids := CompletedOf(m, tiers[last]);
    w, config := FailingWorld(), FailsFor(stray);
    BlamesFirst(m, ids, Prior(m, tiers, last), last, stray);
    PassesWithout(m, Done(m, tiers, |tiers|), [], 0, stray);
    tier := TestedResult(w, config, m, ids, Prior(m, tiers, last), last, Some(Branched(m, ids)[0].0));
    final := TestedResult(w, config, m, Done(m, tiers, |tiers|), [], 0, None);
  }

  /** Two consecutive tiers, the first passing and the second failing its
      checks with somebody named. */
  ghost predicate Blamed(
    w: World, config: Config, m: Manifest, tiers: seq<seq<string>>, t0: nat, t: nat, r0: ContractResult,
    r: ContractResult)
  {
    && NoCollision(config) && w.creates(BisectTree)
    && IsResultOf(w, config, m, tiers, t0, r0) && r0.passed
    && IsResultOf(w, config, m, tiers, t, r) && !r.passed && r.output.Tested? && r.breaker.Some?
  }

  /** The named component is the one whose merge turned pass into fail. */
  ghost predicate BlameIsRight(
    w: World, config: Config, m: Manifest, tiers: seq<seq<string>>, t: nat, r: ContractResult)
    requires t < |tiers|
  {
    exists k: nat ::
      TurnsPassIntoFail(w, config, m, CompletedOf(m, tiers[t]), Prior(m, tiers, t), k) &&
      r.breaker == Some(Branched(m, CompletedOf(m, tiers[t]))[k].0)
  }

  /** Both halves: after a tier that passed, blame is right on every machine
      and for every plan iff nobody strays onto that tier's branches. */
  lemma BlameIsRightIff(m: Manifest, tiers: seq<seq<string>>, t0: nat, t: nat)
    requires Consecutive(m, tiers, t0, t) && t0 < |tiers| && t < |tiers|
    ensures (forall w, config, r0, r | Blamed(w, config, m, tiers, t0, t, r0, r) ::
               BlameIsRight(w, config, m, tiers, t, r)) <==>
            NoStrayOn(m, tiers, t0)
  {
    if NoStrayOn(m, tiers, t0) {
      forall w, config, r0, r | Blamed(w, config, m, tiers, t0, t, r0, r)
        ensures BlameIsRight(w, config, m, tiers, t, r)
      {
        var k := BreakerTurnedPassIntoFail(w, config, m, tiers, t0, t, r0, r);
      }
    } else {
      var w, config, r0, r := StrayMisblames(m, tiers, t0, t);
      assert Blamed(w, config, m, tiers, t0, t, r0, r) && !BlameIsRight(w, config, m, tiers, t, r);
    }
  }
}
