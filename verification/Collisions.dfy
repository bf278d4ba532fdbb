/**
 Checks that share a key of the run dictionary. Every probe writes its stages
 under a component label and a check id, later ones over earlier ones, and
 every check that has the key is then judged by what the last one left.

 Source: kstrl/acceptance/acceptance.py, _probe, and its callers.
 */
module Collisions {
  import opened Checks

  /** No later check writes over this one. */
  predicate IsLast(wanted: seq<Wanted>, k: nat)
    requires k < |wanted|
  {
    forall j | k < j < |wanted| :: wanted[j].Key() != wanted[k].Key()
  }

  /** One command from one plan copy. */
  predicate SameRun(a: Wanted, b: Wanted) {
    a.digest == b.digest && a.check == b.check
  }

  /** Whatever is wanted is what some key is judged by. */
  predicate NoneHidden(wanted: seq<Wanted>) {
    forall w | w in wanted :: Unhidden(wanted, w)
  }

  predicate Unhidden(wanted: seq<Wanted>, w: Wanted) {
    exists k | 0 <= k < |wanted| :: IsLast(wanted, k) && SameRun(wanted[k], w)
  }

  /** The check's own runs all exit 0. */
  ghost predicate AllZero(site: Site, w: Wanted, times: nat) {
    forall n | 1 <= n <= times :: site.run(w.digest, w.check, n).exit == Some(0)
  }

  /** The check passes by what stands under its key. */
  ghost predicate JudgedPass(site: Site, wanted: seq<Wanted>, times: nat, w: Wanted) {
    HeadVerdict(Exits(StagesOf(ProbeRuns(site, wanted, times), w.Key()))) == Pass
  }

  lemma ZeroRunsPass(site: Site, w: Wanted, times: nat)
    requires times > 0
    ensures HeadVerdict(Exits(RunsOf(site, w.digest, w.check, times))) == Pass <==> AllZero(site, w, times)
  {
    var exits := Exits(RunsOf(site, w.digest, w.check, times));
    HeadVerdictMeaning(exits);
    if HeadVerdict(exits) == Pass {
      forall n | 1 <= n <= times ensures site.run(w.digest, w.check, n).exit == Some(0) {
        assert exits[n - 1] in exits;
      }
    }
  }

  /** A check is judged by the runs of the last one with its key. */
  lemma JudgedByLast(site: Site, wanted: seq<Wanted>, times: nat, w: Wanted) returns (k: nat)
    requires site.probed && times > 0 && w in wanted
    ensures k < |wanted| && IsLast(wanted, k) && wanted[k].Key() == w.Key()
    ensures JudgedPass(site, wanted, times, w) <==> AllZero(site, wanted[k], times)
  {
    var i :| 0 <= i < |wanted| && wanted[i] == w;
    assert wanted[i].Key() == w.Key();
    FilledIsLastWriter(map[], site, wanted, times, w.Key());
    k := LastWriter(wanted, w.Key()).value;
    ZeroRunsPass(site, wanted[k], times);
  }

  /** And there is one last one with a key. */
  lemma LastIsUnique(wanted: seq<Wanted>, i: nat, j: nat)
    requires i < |wanted| && j < |wanted| && IsLast(wanted, i) && IsLast(wanted, j)
    requires wanted[i].Key() == wanted[j].Key()
    ensures i == j
  {
  }

  /** A commit on which one command from one copy fails and all else passes. */
  function FailsOnly(w: Wanted): Site {
    Site("sha", ReplayRecord("", None, NoDetail, "", map[]), true,
         (d, c, n) => Stage(AcceptanceCheck(""), "", Some(if d == w.digest && c == w.check then 1 else 0), [], None))
  }

  /** Everything wanted is judged to pass; everything wanted passes. */
  ghost predicate AllJudgedPass(site: Site, wanted: seq<Wanted>, times: nat) {
    forall w | w in wanted :: JudgedPass(site, wanted, times, w)
  }

  ghost predicate AllPass(site: Site, wanted: seq<Wanted>, times: nat) {
    site.probed && forall w | w in wanted :: AllZero(site, w, times)
  }

  lemma JudgedRightly(site: Site, wanted: seq<Wanted>, times: nat)
    requires times > 0 && wanted != [] && NoneHidden(wanted)
    ensures AllJudgedPass(site, wanted, times) <==> AllPass(site, wanted, times)
  {
    if !site.probed {
      assert wanted[0] in wanted && !JudgedPass(site, wanted, times, wanted[0]);
    } else if AllJudgedPass(site, wanted, times) {
      forall w | w in wanted ensures AllZero(site, w, times) {
        assert Unhidden(wanted, w);
        var k :| 0 <= k < |wanted| && IsLast(wanted, k) && SameRun(wanted[k], w);
        assert wanted[k] in wanted;
        var j := JudgedByLast(site, wanted, times, wanted[k]);
        LastIsUnique(wanted, j, k);
      }
    } else {
      var w :| w in wanted && !JudgedPass(site, wanted, times, w);
      var k := JudgedByLast(site, wanted, times, w);
      assert wanted[k] in wanted;
    }
  }

  /** A hidden check can fail while everything is judged to pass. */
  lemma HiddenFailurePasses(wanted: seq<Wanted>, times: nat, hidden: Wanted)
    requires times > 0 && hidden in wanted && !Unhidden(wanted, hidden)
    ensures AllJudgedPass(FailsOnly(hidden), wanted, times) && !AllZero(FailsOnly(hidden), hidden, times)
  {
    var site := FailsOnly(hidden);
    forall w | w in wanted ensures JudgedPass(site, wanted, times, w) {
      var k := JudgedByLast(site, wanted, times, w);
      assert !SameRun(wanted[k], hidden);
    }
    assert site.run(hidden.digest, hidden.check, 1).exit == Some(1);
  }

  /** Exactly when sharing keys does no harm: on every commit everything is
      judged to pass iff everything passes, iff nothing wanted is hidden. */
  lemma JudgedRightlyIff(wanted: seq<Wanted>, times: nat)
    requires times > 0 && wanted != []
    ensures (forall site: Site :: AllJudgedPass(site, wanted, times) <==> AllPass(site, wanted, times)) <==>
            NoneHidden(wanted)
  {
    if NoneHidden(wanted) {
      forall site: Site ensures AllJudgedPass(site, wanted, times) <==> AllPass(site, wanted, times) {
        JudgedRightly(site, wanted, times);
      }
    } else {
      var hidden :| hidden in wanted && !Unhidden(wanted, hidden);
      HiddenFailurePasses(wanted, times, hidden);
      assert !AllPass(FailsOnly(hidden), wanted, times);
    }
  }

  /** Where no key stands for two commands nothing is hidden. */
  lemma ConsistentHidesNone(wanted: seq<Wanted>)
    requires Consistent(wanted)
    ensures NoneHidden(wanted)
  {
    forall w | w in wanted ensures Unhidden(wanted, w) {
      var i :| 0 <= i < |wanted| && wanted[i] == w;
      var last := LastWriter(wanted, w.Key());
      assert wanted[i].Key() == w.Key();
      assert IsLast(wanted, last.value) && SameRun(wanted[last.value], wanted[i]);
    }
  }
}
