/**
 A run in which the second of two tiers breaks what the first one passed: the
 assumptions of Tiers.BreakerTurnedPassIntoFail can all be met together.
 */
module BlameExample {
  import opened Checks
  import opened Carried
  import opened Contract
  import opened Tiers

  /** Two components, one in each tier. */
  function TwoTiers(): Manifest { Manifest([Component("a", "A", true), Component("b", "B", true)]) }

  /** A machine on which everything works until the second branch is in. */
  function BreakingWorld(): World {
    World(t => true, (t, b) => true, t => false, (t: Tree) => Commit(name => "B" !in t, FailingCommit().site))
  }

  function OneRow(): Config { Config(Some(["row"]), None, []) }

  lemma OneRowPasses(tree: Tree, ids: seq<string>)
    ensures RunChecksOf(BreakingWorld().commit(tree), OneRow(), ids).passed <==> "B" !in tree
  {
    var passes := BreakingWorld().commit(tree).rowPasses;
    assert ["row"][0] == "row" && FailedRows(passes, ["row"]) == [] <==> passes("row");
  }

  /** Two tiers of one completed component each. */
  lemma OneInEach(m: Manifest, x: string, y: string)
    requires x in CompletedIds(m) && y in CompletedIds(m)
    ensures var tiers := [[x], [y]];
            && CompletedOf(m, tiers[0]) == [x] && CompletedOf(m, tiers[1]) == [y]
            && Done(m, tiers, 0) == [] && Done(m, tiers, 1) == [x] && Done(m, tiers, 2) == [x, y]
            && TestedTiers(m, tiers, 2) == [0, 1] && Consecutive(m, tiers, 0, 1)
  {
    var tiers := [[x], [y]];
    OneId(m, x);
    OneId(m, y);
    assert Done(m, tiers, 0) == [] && Done(m, tiers, 1) == [x] && Done(m, tiers, 2) == [x, y];
    assert TestedTiers(m, tiers, 0) == [] && TestedTiers(m, tiers, 1) == [0] && TestedTiers(m, tiers, 2) == [0, 1];
    assert TestedTiers(m, tiers, |tiers|)[1 - 1] == 0 && TestedTiers(m, tiers, |tiers|)[1] == 1;
  }

  lemma OneId(m: Manifest, id: string)
    requires id in CompletedIds(m)
    ensures CompletedOf(m, [id]) == [id]
    ensures GetComponent(m, id).Some? ==> Branched(m, [id]) == [(id, GetComponent(m, id).value.branch)]
  {
    assert [id][..0] == [];
  }

  lemma TwoTiersShape()
    ensures var m := TwoTiers();
            && BranchesTell(m) && "a" in CompletedIds(m) && "b" in CompletedIds(m)
            && Branched(m, ["a"]) == [("a", "A")] && Branched(m, ["b"]) == [("b", "B")]
  {
    var m := TwoTiers();
    var a, b := m.components[0], m.components[1];
    assert a in m.components && b in m.components;
    assert a.id in CompletedIds(m) && b.id in CompletedIds(m);
    assert m.components[1..] == [b] && m.components[1..][0] == b;
    assert GetComponent(m, "a") == Some(a) && GetComponent(m, "b") == Some(b);
    OneId(m, "a");
    OneId(m, "b");
  }

  /** A run to which BreakerTurnedPassIntoFail applies: the first tier passes,
      the second fails its checks and its one component is named. */
  lemma BlameHappens()
    returns (w: World, config: Config, m: Manifest, tiers: seq<seq<string>>, r0: ContractResult, r: ContractResult)
    ensures Consecutive(m, tiers, 0, 1) && |tiers| == 2 && NoStrayOn(m, tiers, 0)
    ensures Blamed(w, config, m, tiers, 0, 1, r0, r) && r.breaker == Some("b")
  {
    w, config, m, tiers := BreakingWorld(), OneRow(), TwoTiers(), [["a"], ["b"]];
    TwoTiersShape();
    OneInEach(m, "a", "b");
    DistinctBranchesLeaveNoStrayOn(m, tiers, 0);
    assert Branched(m, []) == [] && Prior(m, tiers, 0) == [] && Prior(m, tiers, 1) == Seconds([("a", "A")]) == ["A"];
    assert "A"[0] != "B"[0];
    PassesBeforeB(m, ["a"], [], 0);
    FailsAtB(m, ["b"], ["A"], 1);
    r0 := TestedResult(w, config, m, ["a"], [], 0, None);
    r := TestedResult(w, config, m, ["b"], ["A"], 1, Some("b"));
  }

  lemma PassesBeforeB(m: Manifest, ids: seq<string>, prior: seq<string>, index: nat)
    requires "B" !in prior + Seconds(Branched(m, ids))
    ensures var r := TestedResult(BreakingWorld(), OneRow(), m, ids, prior, index, None);
            IsTierResult(BreakingWorld(), OneRow(), m, ids, prior, index, r) && r.passed
  {
    OneRowPasses(prior + Seconds(Branched(m, ids)), TierMerged(m, ids, prior));
  }

  lemma FailsAtB(m: Manifest, ids: seq<string>, prior: seq<string>, index: nat)
    requires "B" !in prior && Branched(m, ids) == [("b", "B")]
    ensures var r := TestedResult(BreakingWorld(), OneRow(), m, ids, prior, index, Some("b"));
            IsTierResult(BreakingWorld(), OneRow(), m, ids, prior, index, r) && !r.passed
  {
    var pairs, before := [("b", "B")], IdsOnBranches(m.components, prior);
    assert Seconds(pairs)[0] == "B" && "B" in prior + Seconds(pairs) && pairs[..1] == pairs;
    OneRowPasses(prior + Seconds(pairs), TierMerged(m, ids, prior));
    OneRowPasses(TreeAt(prior, pairs, 1), IdsAt(before, pairs, 1));
    StoppedHere(BreakingWorld(), OneRow(), prior, pairs, before, 0, Some("b"));
  }

  // --- And such a mistake -----------------------------------------------------------------

  /** An unfinished component that shares the branch of a finished one. */
  function SharedBranch(): Manifest {
    Manifest([Component("a", "A", true), Component("s", "A", false), Component("b", "B", true)])
  }

  lemma SharedBranchShape()
    ensures var m, tiers := SharedBranch(), [["a"], ["b"]];
            && "a" in CompletedIds(m) && "b" in CompletedIds(m) && Branched(m, ["a"]) == [("a", "A")]
            && Prior(m, tiers, 0) == []
  {
    var m := SharedBranch();
    var a, b := m.components[0], m.components[2];
    assert a in m.components && b in m.components;
    assert a.id in CompletedIds(m) && b.id in CompletedIds(m);
    assert GetComponent(m, "a") == Some(a);
    OneId(m, "a");
    assert Branched(m, []) == [];
  }

  /** The unfinished component's check fails on the first branch. It runs from
      the second tier on, and the second tier's component is blamed although no
      merge of that tier turned pass into fail. */
  lemma MisblameHappens() returns (w: World, config: Config, r0: ContractResult, r: ContractResult)
    ensures var m, tiers := SharedBranch(), [["a"], ["b"]];
            && Consecutive(m, tiers, 0, 1) && Blamed(w, config, m, tiers, 0, 1, r0, r)
            && !BlameIsRight(w, config, m, tiers, 1, r)
  {
    var m, tiers := SharedBranch(), [["a"], ["b"]];
    SharedBranchShape();
    OneInEach(m, "a", "b");
    var s := m.components[1];
    assert s in m.components && s.branch in Seconds([("a", "A")]) by { assert Seconds([("a", "A")])[0] == "A"; }
    assert s.id !in ["a"] by { assert "s"[0] != "a"[0]; }
    assert IdsOn(m, []) == {};
    w, config, r0, r := StrayMisblames(m, tiers, 0, 1);
  }

  lemma UnfinishedStrays()
    ensures "s" in IdsOn(SharedBranch(), ["A"]) && "s" !in ["a", "b"]
  {
    var m := SharedBranch();
    assert m.components[1] in m.components && m.components[1].branch in ["A"];
    assert "s"[0] != "a"[0] && "s"[0] != "b"[0];
  }

  /** In the same plan the last tier fails where the one-shot check passes. */
  lemma DisagreementHappens() returns (w: World, config: Config, tier: ContractResult, final: ContractResult)
    ensures var m, tiers := SharedBranch(), [["a"], ["b"]];
            && TestedTiers(m, tiers, |tiers|) == [0, 1]
            && BothForms(w, config, m, tiers, 1, tier, final) && !tier.passed && final.passed
  {
    SharedBranchShape();
    OneInEach(SharedBranch(), "a", "b");
    assert Prior(SharedBranch(), [["a"], ["b"]], 1) == Seconds([("a", "A")]) == ["A"];
    UnfinishedStrays();
    w, config, tier, final := FormsDisagree(SharedBranch(), [["a"], ["b"]], 1, "s");
  }
}
