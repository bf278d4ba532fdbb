/**
 What Phase 3 prints of a held-out check: two rounds that differ only in what
 held-out checks say, run and print give the same answer, and exactly when the
 output of a held-out check can appear under another check's name.

 Source: kstrl/acceptance/acceptance_carried.py, replay_merged.
 */
module Phase3Secrecy {
  import opened Checks
  import opened Collisions
  import opened Carried
  import opened NonInterference

  /** Two commits on which two alike lists of checks run alike, and print alike
      where they are visible. */
  ghost predicate RunAlike(a: Site, wantedA: seq<Wanted>, b: Site, wantedB: seq<Wanted>)
    requires |wantedA| == |wantedB|
  {
    && a.probed == b.probed
    && forall i, n | 0 <= i < |wantedA| && 1 <= n <= HEAD_RUNS ::
         StagesAlike(wantedA[i].check.heldOut, [a.run(wantedA[i].digest, wantedA[i].check, n)],
                     [b.run(wantedB[i].digest, wantedB[i].check, n)])
  }

  lemma RunsOfAlike(a: Site, wantedA: seq<Wanted>, b: Site, wantedB: seq<Wanted>, i: nat)
    requires |wantedA| == |wantedB| && i < |wantedA| && RunAlike(a, wantedA, b, wantedB)
    ensures StagesAlike(wantedA[i].check.heldOut, RunsOf(a, wantedA[i].digest, wantedA[i].check, HEAD_RUNS),
                        RunsOf(b, wantedB[i].digest, wantedB[i].check, HEAD_RUNS))
  {
    var x, y := wantedA[i], wantedB[i];
    var all, all' := RunsOf(a, x.digest, x.check, HEAD_RUNS), RunsOf(b, y.digest, y.check, HEAD_RUNS);
    forall n | 0 <= n < HEAD_RUNS ensures all[n].exit == all'[n].exit && (!x.check.heldOut ==> all[n] == all'[n]) {
      var one, two := [a.run(x.digest, x.check, n + 1)], [b.run(y.digest, y.check, n + 1)];
      assert StagesAlike(x.check.heldOut, one, two);
      assert one[0].exit == two[0].exit;
    }
  }

  /** Two rounds with alike checks. */
  predicate RoundsAlike(planA: Option<PinnedPlan>, carriedA: seq<CarriedCheck>,
                        planB: Option<PinnedPlan>, carriedB: seq<CarriedCheck>, merged: seq<string>)
  {
    && WantedAlike(MergedWanted(planA, merged, []), MergedWanted(planB, merged, []))
    && WantedAlike(WantedAll(carriedA), WantedAll(carriedB))
  }

  lemma TogetherAlike(planA: Option<PinnedPlan>, carriedA: seq<CarriedCheck>,
                      planB: Option<PinnedPlan>, carriedB: seq<CarriedCheck>, merged: seq<string>)
    requires RoundsAlike(planA, carriedA, planB, carriedB, merged)
    ensures WantedAlike(MergedWanted(planA, merged, carriedA), MergedWanted(planB, merged, carriedB))
  {
    Parts(planA, merged, carriedA);
    Parts(planB, merged, carriedB);
    JoinAlike(MergedWanted(planA, merged, []), MergedWanted(planB, merged, []), WantedAll(carriedA),
        WantedAll(carriedB));
  }

  lemma Parts(plan: Option<PinnedPlan>, merged: seq<string>, carried: seq<CarriedCheck>)
    ensures MergedWanted(plan, merged, carried) == MergedWanted(plan, merged, []) + WantedAll(carried)
  {
    assert WantedAll([]) == [];
  }

  lemma JoinAlike(a: seq<Wanted>, b: seq<Wanted>, x: seq<Wanted>, y: seq<Wanted>)
    requires WantedAlike(a, b) && WantedAlike(x, y)
    ensures WantedAlike(a + x, b + y)
  {
    var one, two := a + x, b + y;
    forall i | 0 <= i < |one| ensures one[i].comp == two[i].comp && Alike(one[i].check, two[i].check) {
      if i >= |a| { assert x[i - |a|].comp == y[i - |a|].comp; }
    }
  }

  lemma OwnStagesAlike(a: Site, wantedA: seq<Wanted>, b: Site, wantedB: seq<Wanted>, w: Wanted)
    requires WantedAlike(wantedA, wantedB) && Consistent(wantedA) && Consistent(wantedB)
    requires RunAlike(a, wantedA, b, wantedB) && w in wantedA
    ensures StagesAlike(w.check.heldOut, StagesOf(ProbeRuns(a, wantedA, HEAD_RUNS), w.Key()),
                        StagesOf(ProbeRuns(b, wantedB, HEAD_RUNS), w.Key()))
  {
    var i :| 0 <= i < |wantedA| && wantedA[i] == w;
    assert Alike(wantedA[i].check, wantedB[i].check) && wantedB[i] in wantedB && wantedB[i].Key() == w.Key();
    OwnRuns(a, wantedA, HEAD_RUNS, wantedA[i]);
    OwnRuns(b, wantedB, HEAD_RUNS, wantedB[i]);
    RunsOfAlike(a, wantedA, b, wantedB, i);
  }

  function Keys(entries: seq<Entry>): seq<Key> {
    if entries == [] then [] else Keys(entries[..|entries| - 1]) + [entries[|entries| - 1].Key()]
  }

  /** Two carried checks under one key with one verdict. */
  ghost predicate JudgedAlike(x: CarriedCheck, y: CarriedCheck, runsA: Runs, runsB: Runs) {
    x.entry.Key() == y.entry.Key() && VerdictIn(runsA, x.AsWanted()) == VerdictIn(runsB, y.AsWanted())
  }

  lemma {:induction false} SameBroken(a: seq<CarriedCheck>, b: seq<CarriedCheck>, runsA: Runs, runsB: Runs, n: nat)
    requires n <= |a| == |b| && forall i | 0 <= i < n :: JudgedAlike(a[i], b[i], runsA, runsB)
    ensures Keys(Broken(runsA, a[..n])) == Keys(Broken(runsB, b[..n]))
    decreases n
  {
    if n > 0 {
      var k := n - 1;
      SameBroken(a, b, runsA, runsB, k);
      SameBrokenMore(a, b, runsA, runsB, k);
    }
  }

  lemma SameBrokenMore(a: seq<CarriedCheck>, b: seq<CarriedCheck>, runsA: Runs, runsB: Runs, k: nat)
    requires k < |a| == |b| && JudgedAlike(a[k], b[k], runsA, runsB)
    requires Keys(Broken(runsA, a[..k])) == Keys(Broken(runsB, b[..k]))
    ensures Keys(Broken(runsA, a[..k + 1])) == Keys(Broken(runsB, b[..k + 1]))
  {
    BrokenKeysMore(runsA, a, k);
    BrokenKeysMore(runsB, b, k);
  }

  lemma BrokenKeysMore(runs: Runs, carried: seq<CarriedCheck>, n: nat)
    requires n < |carried|
    ensures Keys(Broken(runs, carried[..n + 1])) ==
            if VerdictIn(runs, carried[n].AsWanted()) == Pass then Keys(Broken(runs, carried[..n]))
            else Keys(Broken(runs, carried[..n])) + [carried[n].entry.Key()]
  {
    assert carried[..n + 1][..n] == carried[..n];
    var before := Broken(runs, carried[..n]);
    assert Broken(runs, carried[..n + 1]) ==
           if VerdictIn(runs, carried[n].AsWanted()) == Pass then before else before + [carried[n].entry];
    MoreKeys(before, carried[n].entry);
  }

  lemma CarriedJudgedAlike(a: seq<CarriedCheck>, b: seq<CarriedCheck>, runsA: Runs, runsB: Runs, i: nat)
    requires WantedAlike(WantedAll(a), WantedAll(b)) && i < |a|
    requires StagesAlike(a[i].check.heldOut, StagesOf(runsA, a[i].AsWanted().Key()),
             StagesOf(runsB, a[i].AsWanted().Key()))
    requires a[i].check.id == a[i].entry.check && b[i].check.id == b[i].entry.check
    ensures JudgedAlike(a[i], b[i], runsA, runsB)
  {
    assert WantedAll(a)[i] == a[i].AsWanted() && WantedAll(b)[i] == b[i].AsWanted();
    SameFailingLine(a[i].AsWanted(), b[i].AsWanted(), runsA, runsB);
  }

  lemma MoreKeys(entries: seq<Entry>, entry: Entry)
    ensures Keys(entries + [entry]) == Keys(entries) + [entry.Key()]
  {
    assert (entries + [entry])[..|entries|] == entries;
  }

  lemma SameAnswer(a: Site, wantedA: seq<Wanted>, b: Site, wantedB: seq<Wanted>)
    requires WantedAlike(wantedA, wantedB) && Consistent(wantedA) && Consistent(wantedB)
    requires RunAlike(a, wantedA, b, wantedB)
    ensures var runsA, runsB := ProbeRuns(a, wantedA, HEAD_RUNS), ProbeRuns(b, wantedB, HEAD_RUNS);
            FailingLines(runsA, wantedA) == FailingLines(runsB, wantedB) &&
            FailedHeldOut(runsA, wantedA) == FailedHeldOut(runsB, wantedB)
  {
    var runsA, runsB := ProbeRuns(a, wantedA, HEAD_RUNS), ProbeRuns(b, wantedB, HEAD_RUNS);
    forall w | w in wantedA ensures StagesAlike(w.check.heldOut, StagesOf(runsA, w.Key()), StagesOf(runsB, w.Key())) {
      OwnStagesAlike(a, wantedA, b, wantedB, w);
    }
    Phase3HidesHeldOut(wantedA, wantedB, runsA, runsB);
  }

  lemma SameBreaks(a: Site, wantedA: seq<Wanted>, carriedA: seq<CarriedCheck>,
                   b: Site, wantedB: seq<Wanted>, carriedB: seq<CarriedCheck>)
    requires WantedAlike(wantedA, wantedB) && Consistent(wantedA) && Consistent(wantedB)
    requires RunAlike(a, wantedA, b, wantedB) && WantedAlike(WantedAll(carriedA), WantedAll(carriedB))
    requires forall i | 0 <= i < |carriedA| :: carriedA[i].AsWanted() in wantedA
    requires forall i | 0 <= i < |carriedA| :: carriedA[i].check.id == carriedA[i].entry.check
    requires forall i | 0 <= i < |carriedB| :: carriedB[i].check.id == carriedB[i].entry.check
    ensures Keys(Broken(ProbeRuns(a, wantedA, HEAD_RUNS), carriedA)) ==
            Keys(Broken(ProbeRuns(b, wantedB, HEAD_RUNS), carriedB))
  {
    var runsA, runsB := ProbeRuns(a, wantedA, HEAD_RUNS), ProbeRuns(b, wantedB, HEAD_RUNS);
    forall i | 0 <= i < |carriedA| ensures JudgedAlike(carriedA[i], carriedB[i], runsA, runsB) {
      OwnStagesAlike(a, wantedA, b, wantedB, carriedA[i].AsWanted());
      CarriedJudgedAlike(carriedA, carriedB, runsA, runsB, i);
    }
    SameBroken(carriedA, carriedB, runsA, runsB, |carriedA|);
    assert carriedA[..|carriedA|] == carriedA && carriedB[..|carriedB|] == carriedB;
  }

  /** Two rounds that differ only in what held-out checks say, run and print,
      with the same exits, have the same answer: accepted or not, line by line,
      with the same held-out checks named and the same carried entries broken. */
  lemma RoundHidesHeldOut(
    a: Site, planA: Option<PinnedPlan>, carriedA: seq<CarriedCheck>,
    b: Site, planB: Option<PinnedPlan>, carriedB: seq<CarriedCheck>, merged: seq<string>)
    requires RoundsAlike(planA, carriedA, planB, carriedB, merged)
    requires Consistent(MergedWanted(planA, merged, carriedA)) && Consistent(MergedWanted(planB, merged, carriedB))
    requires |MergedWanted(planA, merged, carriedA)| == |MergedWanted(planB, merged, carriedB)|
    requires a.sha == b.sha && a.record == b.record
    requires RunAlike(a, MergedWanted(planA, merged, carriedA), b, MergedWanted(planB, merged, carriedB))
    requires (forall i | 0 <= i < |carriedA| :: carriedA[i].check.id == carriedA[i].entry.check)
    requires (forall i | 0 <= i < |carriedB| :: carriedB[i].check.id == carriedB[i].entry.check)
    ensures var one := ReplayMergedOf(a, true, planA, merged, carriedA);
            var two := ReplayMergedOf(b, true, planB, merged, carriedB);
            && one.accepted == two.accepted && one.lines == two.lines && one.heldOut == two.heldOut
            && Keys(one.broken) == Keys(two.broken)
  {
    var wantedA, wantedB := MergedWanted(planA, merged, carriedA), MergedWanted(planB, merged, carriedB);
    TogetherAlike(planA, carriedA, planB, carriedB, merged);
    SameAnswer(a, wantedA, b, wantedB);
    CarriedAreWanted(planA, merged, carriedA);
    SameBreaks(a, wantedA, carriedA, b, wantedB, carriedB);
  }

  lemma CarriedAreWanted(plan: Option<PinnedPlan>, merged: seq<string>, carried: seq<CarriedCheck>)
    ensures forall i | 0 <= i < |carried| :: carried[i].AsWanted() in MergedWanted(plan, merged, carried)
  {
    forall i | 0 <= i < |carried| ensures carried[i].AsWanted() in MergedWanted(plan, merged, carried) {
      assert WantedAll(carried)[i] in WantedAll(carried);
    }
  }

  // --- When output of a held-out check can appear -------------------------------------------

  /** Two commits that differ only in what held-out checks print. */
  ghost predicate PrintAlike(a: Site, b: Site, wanted: seq<Wanted>) {
    RunAlike(a, wanted, b, wanted)
  }

  /** No visible check is judged by a held-out one. */
  predicate NoVisibleOverwritten(wanted: seq<Wanted>) {
    forall w, k | w in wanted && 0 <= k < |wanted| ::
      !w.check.heldOut && IsLast(wanted, k) && wanted[k].Key() == w.Key() ==> !wanted[k].check.heldOut
  }

  ghost predicate PrintsAlike(a: Site, b: Site, wanted: seq<Wanted>) {
    FailingLines(ProbeRuns(a, wanted, HEAD_RUNS), wanted) == FailingLines(ProbeRuns(b, wanted, HEAD_RUNS), wanted)
  }

  lemma {:induction false} SameLines(runsA: Runs, runsB: Runs, wanted: seq<Wanted>)
    requires forall w | w in wanted :: FailingLine(runsA, w) == FailingLine(runsB, w)
    ensures FailingLines(runsA, wanted) == FailingLines(runsB, wanted)
  {
    if wanted != [] {
      var n := |wanted| - 1;
      assert wanted[..n + 1] == wanted && wanted[n] in wanted;
      assert forall w | w in wanted[..n] :: w in wanted;
      SameLines(runsA, runsB, wanted[..n]);
      FailingMore(runsA, wanted, n);
      FailingMore(runsB, wanted, n);
    }
  }

  lemma LastStages(site: Site, wanted: seq<Wanted>, w: Wanted) returns (k: nat)
    requires w in wanted
    ensures k < |wanted| && IsLast(wanted, k) && wanted[k].Key() == w.Key()
    ensures StagesOf(ProbeRuns(site, wanted, HEAD_RUNS), w.Key()) ==
            if site.probed then RunsOf(site, wanted[k].digest, wanted[k].check, HEAD_RUNS) else []
  {
    var i :| 0 <= i < |wanted| && wanted[i] == w;
    assert wanted[i].Key() == w.Key();
    FilledIsLastWriter(map[], site, wanted, HEAD_RUNS, w.Key());
    k := LastWriter(wanted, w.Key()).value;
  }

  lemma LineStaysAlike(a: Site, b: Site, wanted: seq<Wanted>, w: Wanted)
    requires NoVisibleOverwritten(wanted) && PrintAlike(a, b, wanted) && w in wanted
    ensures FailingLine(ProbeRuns(a, wanted, HEAD_RUNS), w) == FailingLine(ProbeRuns(b, wanted, HEAD_RUNS), w)
  {
    var k := LastStages(a, wanted, w);
    var l := LastStages(b, wanted, w);
    LastIsUnique(wanted, k, l);
    RunsOfAlike(a, wanted, b, wanted, k);
    var one, two :=
        StagesOf(ProbeRuns(a, wanted, HEAD_RUNS), w.Key()), StagesOf(ProbeRuns(b, wanted, HEAD_RUNS), w.Key());
    assert Exits(one) == Exits(two);
    if !w.check.heldOut {
      assert !wanted[k].check.heldOut;
      assert one == two;
    }
  }

  const SECRET := "what the held-out check expects"

  /** Every check fails; the held-out ones print this. */
  function Printing(text: string): Site {
    Site("sha", ReplayRecord("", None, NoDetail, "", map[]), true,
         (d, c: Check, n) => Stage(AcceptanceCheck(""), "", Some(1), if c.heldOut then [text] else [], None))
  }

  /** What each check adds, one after the other. */
  function Flat(lines: Wanted -> seq<PhaseLine>, wanted: seq<Wanted>): seq<PhaseLine> {
    if wanted == [] then [] else Flat(lines, wanted[..|wanted| - 1]) + lines(wanted[|wanted| - 1])
  }

  lemma {:induction false} LineIsIn(lines: Wanted -> seq<PhaseLine>, wanted: seq<Wanted>, i: nat, line: PhaseLine)
    requires i < |wanted| && line in lines(wanted[i])
    ensures line in Flat(lines, wanted)
    decreases |wanted|
  {
    var n := |wanted| - 1;
    if i < n {
      assert wanted[..n][i] == wanted[i];
      LineIsIn(lines, wanted[..n], i, line);
    }
  }

  lemma {:induction false} ListIsFlat(runs: Runs, lines: Wanted -> seq<PhaseLine>, wanted: seq<Wanted>)
    requires forall w | w in wanted :: lines(w) == FailingLine(runs, w)
    ensures FailingLines(runs, wanted) == Flat(lines, wanted)
    decreases |wanted|
  {
    if wanted != [] {
      var n := |wanted| - 1;
      assert wanted[n] in wanted && forall w | w in wanted[..n] :: w in wanted;
      ListIsFlat(runs, lines, wanted[..n]);
    }
  }

  lemma LineIsListed(runs: Runs, wanted: seq<Wanted>, i: nat, line: PhaseLine)
    requires i < |wanted| && line in FailingLine(runs, wanted[i])
    ensures line in FailingLines(runs, wanted)
  {
    var lines := w => FailingLine(runs, w);
    ListIsFlat(runs, lines, wanted);
    LineIsIn(lines, wanted, i, line);
  }

  lemma {:induction false} ListedIsSomeLine(runs: Runs, wanted: seq<Wanted>, line: PhaseLine) returns (w: Wanted)
    requires line in FailingLines(runs, wanted)
    ensures w in wanted && line in FailingLine(runs, w)
  {
    var n := |wanted| - 1;
    assert wanted[..n + 1] == wanted;
    FailingMore(runs, wanted, n);
    if line in FailingLine(runs, wanted[n]) {
      w := wanted[n];
    } else {
      w := ListedIsSomeLine(runs, wanted[..n], line);
    }
  }

  /** A visible check judged by a held-out one prints its output. */
  lemma OverwrittenPrints(wanted: seq<Wanted>, w: Wanted, k: nat, text: string)
    requires w in wanted && k < |wanted| && !w.check.heldOut
    requires IsLast(wanted, k) && wanted[k].Key() == w.Key() && wanted[k].check.heldOut
    ensures Printed(text) in FailingLines(ProbeRuns(Printing(text), wanted, HEAD_RUNS), wanted)
  {
    var site := Printing(text);
    var runs := ProbeRuns(site, wanted, HEAD_RUNS);
    var l := LastStages(site, wanted, w);
    LastIsUnique(wanted, k, l);
    var stages := StagesOf(runs, w.Key());
    assert stages[2] == site.run(wanted[k].digest, wanted[k].check, 3) && stages[2].tail == [text];
    HeadVerdictMeaning(Exits(stages));
    assert Exits(stages)[0] == Some(1) && Exits(stages)[0] in Exits(stages);
    assert PrintedLines(stages[2].tail)[0] == Printed(text);
    assert Printed(text) in FailingLine(runs, w);
    var i :| 0 <= i < |wanted| && wanted[i] == w;
    LineIsListed(runs, wanted, i, Printed(text));
  }

  /** And prints nothing else than what a held-out check printed. */
  lemma OnlyThatIsPrinted(wanted: seq<Wanted>, text: string, other: string)
    requires Printed(other) in FailingLines(ProbeRuns(Printing(text), wanted, HEAD_RUNS), wanted)
    ensures other == text
  {
    var site := Printing(text);
    var w := ListedIsSomeLine(ProbeRuns(site, wanted, HEAD_RUNS), wanted, Printed(other));
    var k := LastStages(site, wanted, w);
    var stages := StagesOf(ProbeRuns(site, wanted, HEAD_RUNS), w.Key());
    assert stages[2] == site.run(wanted[k].digest, wanted[k].check, 3);
  }

  /** The exact condition: what Phase 3 prints never depends on what a held-out
      check prints iff no visible check shares its key with a held-out one that
      comes last. */
  lemma HeldOutOutputHiddenIff(wanted: seq<Wanted>)
    ensures (forall a, b | PrintAlike(a, b, wanted) :: PrintsAlike(a, b, wanted)) <==> NoVisibleOverwritten(wanted)
  {
    if NoVisibleOverwritten(wanted) {
      forall a, b | PrintAlike(a, b, wanted) ensures PrintsAlike(a, b, wanted) {
        forall w | w in wanted
          ensures FailingLine(ProbeRuns(a, wanted, HEAD_RUNS), w) == FailingLine(ProbeRuns(b, wanted, HEAD_RUNS), w)
        {
          LineStaysAlike(a, b, wanted, w);
        }
        SameLines(ProbeRuns(a, wanted, HEAD_RUNS), ProbeRuns(b, wanted, HEAD_RUNS), wanted);
      }
    } else {
      var w, k :| w in wanted && 0 <= k < |wanted| &&
                  !w.check.heldOut && IsLast(wanted, k) && wanted[k].Key() == w.Key() && wanted[k].check.heldOut;
      OverwrittenTells(wanted, w, k);
    }
  }

  lemma OverwrittenTells(wanted: seq<Wanted>, w: Wanted, k: nat)
    requires w in wanted && k < |wanted| && !w.check.heldOut
    requires IsLast(wanted, k) && wanted[k].Key() == w.Key() && wanted[k].check.heldOut
    ensures PrintAlike(Printing(SECRET), Printing(""), wanted) && !PrintsAlike(Printing(SECRET), Printing(""), wanted)
  {
    OverwrittenPrints(wanted, w, k, SECRET);
    if PrintsAlike(Printing(SECRET), Printing(""), wanted) { OnlyThatIsPrinted(wanted, "", SECRET); }
  }

  /** Where no key stands for two commands nothing held out is printed. */
  lemma ConsistentPrintsNothingHeldOut(wanted: seq<Wanted>)
    requires Consistent(wanted)
    ensures NoVisibleOverwritten(wanted)
  {
    forall w, k | w in wanted && 0 <= k < |wanted| && !w.check.heldOut && wanted[k].Key() == w.Key()
      ensures !wanted[k].check.heldOut
    {
      var i :| 0 <= i < |wanted| && wanted[i] == w;
      assert wanted[i].check == wanted[k].check;
    }
  }

  const VISIBLE: Wanted :=
    Wanted("0123456789ab0", "carried:0123456789ab/c", Check("k", "", ["a"], FailsOnBase, false, ""))
  const HELD_OUT: Wanted :=
    Wanted("0123456789ab1", "carried:0123456789ab/c", Check("k", "", ["b"], FailsOnBase, true, ""))

  /** A visible and a held-out check of two plans under one label: the visible
      one's lines print what the held-out one printed. */
  lemma LeakHappens()
    ensures Printed(SECRET) in
              FailingLines(ProbeRuns(Printing(SECRET), [VISIBLE, HELD_OUT], HEAD_RUNS), [VISIBLE, HELD_OUT])
  {
    OverwrittenPrints([VISIBLE, HELD_OUT], VISIBLE, 1, SECRET);
  }
}
