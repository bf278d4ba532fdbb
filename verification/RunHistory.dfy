/**
 The ledger over whole histories of runs, from no file at all: a carried check
 guards every later run until a person retires it, and whatever stands in the
 ledger was earned.

 Sources: kstrl/acceptance/acceptance_carried.py and its calls in
 kstrl/factory/factory_acceptance.py.
 */
module RunHistory {
  import opened Checks
  import opened BaseScreening
  import opened Carried
  import opened Contract
  import opened Tiers
  import opened CarriedGate
  import opened Lines
  import opened RunStep

  /** The ledger after a history that starts with no file. */
  ghost function After(history: seq<Run>): Doc {
    if history == [] then Doc([], [])
    else StepOf(After(history[..|history| - 1]), history[|history| - 1]).doc
  }

  lemma AfterOne(history: seq<Run>, k: nat)
    requires k < |history|
    ensures After(history[..k + 1]) == StepOf(After(history[..k]), history[k]).doc
  {
    assert history[..k + 1][..k] == history[..k];
  }

  // --- Histories -----------------------------------------------------------------------------

  predicate NamedBy(run: Run, id: Identity) {
    exists item | item in run.gate.approved :: item.names == id
  }

  /** After the gate a run only adds to the ledger, at its end. */
  lemma StepOnlyAdds(doc: Doc, run: Run)
    ensures AfterGate(doc, run.gate).checks <= StepOf(doc, run).doc.checks
    ensures AfterGate(doc, run.gate).retired == StepOf(doc, run).doc.retired
  {
  }

  /** One run keeps every entry no approved item of it names. */
  lemma StepKeeps(doc: Doc, run: Run, entry: Entry)
    requires entry in doc.checks && !NamedBy(run, entry.Identity())
    ensures entry in StepOf(doc, run).doc.checks
    ensures entry in Survivors(doc.checks, run.gate.approved)
  {
    RetireExactly(doc.checks, run.gate.approved, run.gate.runId, entry);
    assert entry in AfterGate(doc, run.gate).checks;
    StepOnlyAdds(doc, run);
  }

  lemma StaysOneRun(history: seq<Run>, k: nat, entry: Entry)
    requires k < |history| && entry in After(history[..k]).checks && !NamedBy(history[k], entry.Identity())
    ensures entry in After(history[..k + 1]).checks
  {
    AfterOne(history, k);
    StepKeeps(After(history[..k]), history[k], entry);
  }

  /** An entry leaves the ledger only through an approved item naming it. */
  lemma {:induction false} LeavesOnlyByApproval(history: seq<Run>, i: nat, j: nat, entry: Entry)
    requires i <= j <= |history| && entry in After(history[..i]).checks
    requires forall k | i <= k < j :: !NamedBy(history[k], entry.Identity())
    ensures entry in After(history[..j]).checks
    decreases j
  {
    if i < j {
      var k := j - 1;
      LeavesOnlyByApproval(history, i, k, entry);
      StaysOneRun(history, k, entry);
    }
  }

  /** And it leaves with a trace: the run that dropped it recorded the item. */
  lemma LeavingIsRecorded(doc: Doc, run: Run, entry: Entry)
    requires entry in doc.checks && entry !in StepOf(doc, run).doc.checks
    ensures Naming(run.gate.approved, entry.Identity()).Some?
    ensures RetiredRow(entry, Naming(run.gate.approved, entry.Identity()).value, run.gate.runId)
              in StepOf(doc, run).doc.retired
  {
    RetireExactly(doc.checks, run.gate.approved, run.gate.runId, entry);
    StepOnlyAdds(doc, run);
    assert AfterGate(doc, run.gate) == Retire(doc, run.gate.approved, run.gate.runId);
  }

  // --- Identities stay distinct ------------------------------------------------------------------

  predicate DistinctIdentities(checks: seq<Entry>) {
    forall i, j | 0 <= i < j < |checks| :: checks[i].Identity() != checks[j].Identity()
  }

  /** A run tests each component once. */
  predicate TestsOnce(run: Run) {
    run.phase3.Some? ==>
      var all := run.phase3.value.All();
      forall i, j | 0 <= i < j < |all| :: all[i] != all[j]
  }

  lemma {:induction false} AddedExactly(had: seq<Entry>, env: CarryEnv, merged: seq<string>, e: Entry)
    requires Carries(env)
    ensures e in Added(had, env, merged) <==>
            && e.component in merged && CarriesComponent(env, e.component) && !Seen(had, e.Identity())
            && exists c | c in env.kept.value[e.component].checks :: e == NewEntry(env, e.component, c)
  {
    if merged != [] {
      AddedExactly(had, env, merged[..|merged| - 1], e);
      assert merged == merged[..|merged| - 1] + [merged[|merged| - 1]];
    }
  }

  lemma {:induction false} AddedFromDistinct(had: seq<Entry>, env: CarryEnv, comp: string, checks: seq<Check>)
    requires Carries(env) && DistinctIds(checks)
    ensures DistinctIdentities(AddedFrom(had, env, comp, checks))
  {
    if checks != [] {
      AddedFromDistinct(had, env, comp, checks[..|checks| - 1]);
      var before := AddedFrom(had, env, comp, checks[..|checks| - 1]);
      var last := checks[|checks| - 1];
      forall e | e in before ensures e.Identity() != NewEntry(env, comp, last).Identity() {
        var c :| c in checks[..|checks| - 1] && e == NewEntry(env, comp, c);
        var i :| 0 <= i < |checks| - 1 && checks[i] == c;
      }
    }
  }

  lemma {:induction false} AddedDistinct(had: seq<Entry>, env: CarryEnv, merged: seq<string>)
    requires Carries(env) && ValidComponents(env.kept.value)
    requires forall i, j | 0 <= i < j < |merged| :: merged[i] != merged[j]
    ensures DistinctIdentities(Added(had, env, merged))
    ensures forall e | e in Added(had, env, merged) :: !Seen(had, e.Identity()) && e.component in merged
  {
    if merged != [] {
      var init, last := merged[..|merged| - 1], merged[|merged| - 1];
      AddedDistinct(had, env, init);
      assert merged == init + [last];
      assert last !in init;
      if CarriesComponent(env, last) {
        var checks := env.kept.value[last].checks;
        AddedFromDistinct(had, env, last, checks);
        JoinDistinct(Added(had, env, init), AddedFrom(had, env, last, checks));
      }
    }
  }

  lemma JoinDistinct(one: seq<Entry>, two: seq<Entry>)
    requires DistinctIdentities(one) && DistinctIdentities(two)
    requires forall a, b | a in one && b in two :: a.Identity() != b.Identity()
    ensures DistinctIdentities(one + two)
  {
    var all := one + two;
    forall i, j | 0 <= i < j < |all| ensures all[i].Identity() != all[j].Identity() {
      if i < |one| <= j { assert all[i] in one && all[j] in two; }
    }
  }

  lemma SurvivorsStayDistinct(checks: seq<Entry>, approved: seq<Item>)
    requires DistinctIdentities(checks)
    ensures DistinctIdentities(Survivors(checks, approved))
  {
    var picks := SurvivorsKeepOrder(checks, approved);
    var left := Survivors(checks, approved);
    forall i, j | 0 <= i < j < |left| ensures left[i].Identity() != left[j].Identity() {
      assert picks[i] < picks[j];
    }
  }

  lemma StepStaysDistinct(doc: Doc, run: Run)
    requires DistinctIdentities(doc.checks)
    requires RunIsSane(run) && TestsOnce(run)
    ensures DistinctIdentities(StepOf(doc, run).doc.checks)
  {
    SurvivorsStayDistinct(doc.checks, run.gate.approved);
    var after := AfterGate(doc, run.gate);
    if StepOf(doc, run).phase3 == Some(true) {
      var env := CarryOf(run);
      if Carries(env) && env.writes {
        AddedDistinct(after.checks, env, env.merged);
        forall a, b | a in after.checks && b in Added(after.checks, env, env.merged)
          ensures a.Identity() != b.Identity()
        {
          assert !Seen(after.checks, b.Identity());
        }
        JoinDistinct(after.checks, Added(after.checks, env, env.merged));
      }
    }
  }

  /** From the empty ledger onward, no history holds an identity twice. */
  lemma {:induction false} IdentitiesStayDistinct(history: seq<Run>)
    requires forall run | run in history :: RunIsSane(run) && TestsOnce(run)
    ensures DistinctIdentities(After(history).checks)
  {
    if history != [] {
      var init, last := history[..|history| - 1], history[|history| - 1];
      assert forall run | run in init :: run in history;
      assert last in history;
      IdentitiesStayDistinct(init);
      StepStaysDistinct(After(init), last);
    }
  }

  // --- Labels stay distinct ------------------------------------------------------------------------

  predicate HasPlan(run: Run) { run.phase3.Some? && run.phase3.value.plan.Some? }

  function PlanDigest(run: Run): string
    requires HasPlan(run)
  {
    run.phase3.value.plan.value.digest
  }

  /** Twelve characters tell the plans of a history apart. */
  ghost predicate DigestsTell(history: seq<Run>) {
    forall a, b | a in history && b in history && HasPlan(a) && HasPlan(b) ::
      && |PlanDigest(a)| >= 12
      && (Prefix(PlanDigest(a), 12) == Prefix(PlanDigest(b), 12) ==> PlanDigest(a) == PlanDigest(b))
  }

  /** What is assumed of a history, all of it about its runs and none of it
      about the ledger. */
  ghost predicate HistoryIsSane(history: seq<Run>) {
    (forall run | run in history :: RunIsSane(run) && TestsOnce(run)) && DigestsTell(history)
  }

  lemma NewEntryIsOfThePlan(doc: Doc, run: Run, entry: Entry)
    requires entry in StepOf(doc, run).doc.checks && entry !in AfterGate(doc, run.gate).checks
    ensures StepOf(doc, run).phase3 == Some(true) && HasPlan(run) && entry.planId == PlanDigest(run)
  {
    var had, env := AfterGate(doc, run.gate).checks, CarryOf(run);
    assert entry in Added(had, env, env.merged);
    AddedExactly(had, env, env.merged, entry);
  }

  /** Every entry is of the plan of some run before. */
  lemma {:induction false} EntryIsOfSomePlan(history: seq<Run>, n: nat, entry: Entry) returns (k: nat)
    requires n <= |history| && entry in After(history[..n]).checks
    ensures k < n && HasPlan(history[k]) && entry.planId == PlanDigest(history[k])
    decreases n
  {
    assert n > 0 by { assert history[..0] == []; }
    var doc, run := After(history[..n - 1]), history[n - 1];
    AfterOne(history, n - 1);
    if entry in doc.checks {
      k := EntryIsOfSomePlan(history, n - 1, entry);
    } else {
      GateOnlyRemoves(doc, run, entry);
      NewEntryIsOfThePlan(doc, run, entry);
      k := n - 1;
    }
  }

  lemma GateOnlyRemoves(doc: Doc, run: Run, entry: Entry)
    requires entry !in doc.checks
    ensures entry !in AfterGate(doc, run.gate).checks
  {
    RetireExactly(doc.checks, run.gate.approved, run.gate.runId, entry);
  }

  /** A label of a long enough digest gives its twelve characters back. */
  lemma LabelTellsPrefix(a: Entry, b: Entry)
    requires |a.planId| >= 12 && |b.planId| >= 12 && a.Key() == b.Key()
    ensures Prefix(a.planId, 12) == Prefix(b.planId, 12)
  {
    var one, two := LabelOf(a.planId, a.component), LabelOf(b.planId, b.component);
    assert one == two;
    assert one[8..20] == Prefix(a.planId, 12) && two[8..20] == Prefix(b.planId, 12);
  }

  /** Over every history whose plans twelve characters tell apart, no two
      entries share a key. */
  lemma LabelsStayDistinct(history: seq<Run>, n: nat)
    requires HistoryIsSane(history) && n <= |history|
    ensures LabelsDistinct(After(history[..n]).checks)
  {
    var checks := After(history[..n]).checks;
    assert forall run | run in history[..n] :: run in history;
    IdentitiesStayDistinct(history[..n]);
    forall i, j | 0 <= i < j < |checks| ensures checks[i].Key() != checks[j].Key() {
      if checks[i].Key() == checks[j].Key() { SameLabelSameEntry(history, n, checks[i], checks[j]); }
    }
  }

  lemma SameLabelSameEntry(history: seq<Run>, n: nat, a: Entry, b: Entry)
    requires DigestsTell(history) && n <= |history| && a.Key() == b.Key()
    requires a in After(history[..n]).checks && b in After(history[..n]).checks
    ensures a.Identity() == b.Identity()
  {
    var k := EntryIsOfSomePlan(history, n, a);
    var l := EntryIsOfSomePlan(history, n, b);
    assert history[k] in history && history[l] in history;
    LabelTellsPrefix(a, b);
    LabelTellsComponent(a.planId, a.component, b.component);
  }

  lemma EveryStepIsSane(history: seq<Run>, k: nat)
    requires HistoryIsSane(history) && k < |history|
    ensures Sane(After(history[..k]), history[k])
  {
    LabelsStayDistinct(history, k);
    assert history[k] in history;
    SurvivorsKeepLabels(After(history[..k]).checks, history[k].gate.approved);
  }

  lemma SurvivorsKeepLabels(checks: seq<Entry>, approved: seq<Item>)
    requires LabelsDistinct(checks)
    ensures LabelsDistinct(Survivors(checks, approved))
  {
    var picks := SurvivorsKeepOrder(checks, approved);
    var left := Survivors(checks, approved);
    forall i, j | 0 <= i < j < |left| ensures left[i].Key() != left[j].Key() {
      assert picks[i] < picks[j];
    }
  }

  // --- Regression safety ----------------------------------------------------------------------------

  /** Regression safety over every history: a check carried once guards every
      later run under a stack until a person retires it. Whatever run k is, if
      it got past the gate then the check passed on that run's base, and if it
      passed Phase 3 then the check passed every run at every commit that was
      tested. */
  lemma CarriedCheckGuardsEveryLaterRun(history: seq<Run>, i: nat, k: nat, entry: Entry)
    requires HistoryIsSane(history)
    requires i <= k < |history| && entry in After(history[..i]).checks
    requires forall r | i <= r <= k :: !NamedBy(history[r], entry.Identity())
    requires history[k].gate.stack.Some?
    ensures var step := StepOf(After(history[..k]), history[k]);
            step.gate.refused == [] ==> HoldsThrough(history[k], step.phase3, entry)
    ensures entry in After(history[..k + 1]).checks
  {
    LeavesOnlyByApproval(history, i, k, entry);
    StepKeeps(After(history[..k]), history[k], entry);
    AfterOne(history, k);
    EveryStepIsSane(history, k);
    if StepOf(After(history[..k]), history[k]).gate.refused == [] {
      EntryHoldsThroughRun(After(history[..k]), history[k], entry);
    }
  }

  // --- What carrying adds, exactly ---------------------------------------------------------------

  /** What carrying adds, by the fields it reads alone: the run has a plan, a
      base reading and a stack, Phase 3 passed on a commit, the ledger can be
      read and written, the component is among the tested, has merged, and the
      base kept a check of this id for it. */
  ghost predicate CarriesIdentity(env: CarryEnv, id: Identity) {
    && env.plan.Some? && env.kept.Some? && env.stack.Some? && env.sha != "" && env.readable && env.writes
    && id.0 == env.plan.value.digest && id.1 in env.merged && env.hasMerged(id.1) && id.1 in env.kept.value
    && exists c | c in env.kept.value[id.1].checks :: c.id == id.2
  }

  /** An identity is in the ledger after carrying iff it was there or the run
      carries it, with the old entries as a prefix. Retirement plays no part. */
  lemma CarryAddsExactly(doc: Doc, env: CarryEnv, id: Identity)
    ensures Seen(AfterCarry(doc, env).checks, id) <==> Seen(doc.checks, id) || CarriesIdentity(env, id)
    ensures doc.checks <= AfterCarry(doc, env).checks && AfterCarry(doc, env).retired == doc.retired
  {
    var after := AfterCarry(doc, env).checks;
    if Carries(env) && env.writes {
      if Seen(after, id) && !Seen(doc.checks, id) {
        var e :| e in after && e.Identity() == id;
        assert e in Added(doc.checks, env, env.merged);
        AddedExactly(doc.checks, env, env.merged, e);
        var c :| c in env.kept.value[e.component].checks && e == NewEntry(env, e.component, c);
        assert c.id == id.2;
      }
      if Seen(doc.checks, id) {
        var e :| e in doc.checks && e.Identity() == id;
        assert e in after;
      } else if CarriesIdentity(env, id) {
        var c :| c in env.kept.value[id.1].checks && c.id == id.2;
        var e := NewEntry(env, id.1, c);
        AddedExactly(doc.checks, env, env.merged, e);
        assert e in after;
      }
    }
  }

  /** After a run past the gate whose Phase 3 passes on the base itself, every
      kept check of every component that merged guards the later runs. */
  lemma EveryMergedCheckIsCarried(history: seq<Run>, k: nat, comp: string, check: Check)
    requires k < |history| && StepOf(After(history[..k]), history[k]).phase3 == Some(true)
    requires history[k].phase3.Some? && history[k].phase3.value.plan.Some? && history[k].phase3.value.kept.Some?
    requires var p := history[k].phase3.value;
             && p.merged.Some? && p.merged.value.sha != "" && p.readable && p.writes && history[k].gate.stack.Some?
             && IsCompleted(p.manifest, comp) && (exists t | 0 <= t < |p.tiers| :: comp in p.tiers[t])
             && p.hasMerged(comp) && comp in p.kept.value && check in p.kept.value[comp].checks
    ensures exists e | e in After(history[..k + 1]).checks ::
              e.planId == history[k].phase3.value.plan.value.digest && e.component == comp && e.check == check.id
  {
    AfterOne(history, k);
    var m, tiers := history[k].phase3.value.manifest, history[k].phase3.value.tiers;
    DoneExactly(m, tiers, |tiers|, comp);
    CompletedSays(m, comp);
    var env := CarryOf(history[k]);
    var id := (history[k].phase3.value.plan.value.digest, comp, check.id);
    assert CarriesIdentity(env, id);
    CarryAddsExactly(AfterGate(After(history[..k]), history[k].gate), env, id);
    var e :| e in After(history[..k + 1]).checks && e.Identity() == id;
  }

  /** A retired check is not retired for good. An identity that is not in the
      ledger enters it in a run, retired or not, exactly when the gate opens,
      everything tested holds and the run carries it: carrying compares with
      the entries, not with what was retired. */
  lemma EntersIff(doc: Doc, run: Run, id: Identity)
    requires Sane(doc, run) && !Seen(AfterGate(doc, run.gate).checks, id)
    ensures Seen(StepOf(doc, run).doc.checks, id) <==>
            && run.gate.stack.Some? && Opens(doc, run.gate) && RoundHolds(doc, run)
            && CarriesIdentity(CarryOf(run), id)
  {
    if run.gate.stack.Some? { Phase3PassesIff(doc, run); }
    if StepOf(doc, run).phase3 == Some(true) { CarryAddsExactly(AfterGate(doc, run.gate), CarryOf(run), id); }
  }

  /** When a retired check stays retired through the very run that retires it,
      exactly: unless that run's base and what it tests let it through with a
      plan that keeps the check. */
  lemma RetiredReturnsIff(doc: Doc, run: Run, entry: Entry)
    requires Sane(doc, run) && entry in doc.checks && NamedBy(run, entry.Identity())
    requires run.gate.readable && run.gate.stack.Some? && run.gate.writes
    ensures exists r | r in StepOf(doc, run).doc.retired :: r.Identity() == entry.Identity()
    ensures Seen(StepOf(doc, run).doc.checks, entry.Identity()) <==>
            Opens(doc, run.gate) && RoundHolds(doc, run) && CarriesIdentity(CarryOf(run), entry.Identity())
  {
    var id, after := entry.Identity(), AfterGate(doc, run.gate);
    RetireExactly(doc.checks, run.gate.approved, run.gate.runId, entry);
    var row := RetiredRow(entry, Naming(run.gate.approved, id).value, run.gate.runId);
    assert after == Retire(doc, run.gate.approved, run.gate.runId);
    StepOnlyAdds(doc, run);
    assert row in StepOf(doc, run).doc.retired && row.Identity() == id;
    forall e | e in after.checks ensures e.Identity() != id {
      RetireExactly(doc.checks, run.gate.approved, run.gate.runId, e);
    }
    EntersIff(doc, run, id);
  }

  // --- A retired check that returns ------------------------------------------------------------

  const CARRIED_ONCE: Entry := Entry("plan", "c", "k", "stack", "run", "sha")

  /** A run that retires that entry and merges the component again under the
      plan it came from, with every check exiting 0. */
  function ReturningRun(): Run {
    var parts := map["c" := ComponentPlan(false, [Check("k", "", ["true"], FailsOnBase, false, "")])];
    var passing := Commit(name => true, SteadySite("sha", 0));
    Run(GateEnv(true, Some("stack"), [Item("item", "owner", "today", CARRIED_ONCE.Identity())], true, "run", true, None,
                id => None, true),
        Some(Phase3(World(t => true, (t, b) => true, t => false, t => passing), [],
                    Manifest([Component("c", "branch", true)]), [["c"]], FinalMode,
                    Some(Integrated("sha", false, passing)), Some(PinnedPlan("plan", parts, true)), Some(parts),
                    comp => true, true, true)))
  }

  lemma ReturningRunTestsC()
    ensures ReturningRun().phase3.value.All() == ["c"] && CompletedIds(ReturningRun().phase3.value.manifest) != {}
  {
    var p := ReturningRun().phase3.value;
    var c := p.manifest.components[0];
    assert c in p.manifest.components && c.id in CompletedIds(p.manifest);
    assert ["c"][..0] == [] && CompletedOf(p.manifest, ["c"]) == ["c"];
    assert Done(p.manifest, p.tiers, 0) == [];
  }

  lemma NobodySurvives()
    ensures Survivors([CARRIED_ONCE], ReturningRun().gate.approved) == []
  {
    var approved := ReturningRun().gate.approved;
    assert approved[0] in approved;
    assert [CARRIED_ONCE][..0] == [];
  }

  lemma ReturningRunIsSane()
    ensures Sane(Doc([CARRIED_ONCE], []), ReturningRun())
    ensures Opens(Doc([CARRIED_ONCE], []), ReturningRun().gate) && RoundHolds(Doc([CARRIED_ONCE], []), ReturningRun())
  {
    NobodySurvives();
    ReturningRunTestsC();
    assert "c"[0] == 'c';
  }

  /** The inbox says that no later run replays a retired check: here one entry
      is retired and its identity is in the ledger again after the same run. */
  lemma RetiredReturnHappens()
    ensures var doc, id := StepOf(Doc([CARRIED_ONCE], []), ReturningRun()).doc, CARRIED_ONCE.Identity();
            Seen(doc.checks, id) && exists r | r in doc.retired :: r.Identity() == id
  {
    var run := ReturningRun();
    ReturningRunIsSane();
    ReturningRunTestsC();
    assert run.gate.approved[0] in run.gate.approved;
    var kept := run.phase3.value.kept.value["c"].checks;
    assert kept[0] in kept && "c" in CarryOf(run).merged;
    RetiredReturnsIff(Doc([CARRIED_ONCE], []), run, CARRIED_ONCE);
  }

  // --- Every entry was earned --------------------------------------------------------------------

  /** The run put this entry into the ledger for a check of its own plan that
      exited 0 on every run at the commit the entry names. */
  ghost predicate Earned(run: Run, entry: Entry) {
    && run.phase3.Some? && run.phase3.value.plan.Some? && run.phase3.value.kept.Some? && run.phase3.value.OnBase()
    && var p := run.phase3.value;
       && entry.planId == p.plan.value.digest && entry.component in p.All() && entry.component in p.kept.value
       && entry.run == run.gate.runId && Some(entry.stackDigest) == run.gate.stack && p.hasMerged(entry.component)
       && entry.passedAt == p.merged.value.sha == p.merged.value.commit.site.sha
       && exists c | c in p.kept.value[entry.component].checks ::
            c.id == entry.check && HoldsAt(p.merged.value.commit.site, Wanted(entry.planId, entry.component, c))
  }

  lemma NewEntryIsEarned(doc: Doc, run: Run, entry: Entry)
    requires Sane(doc, run) && entry in StepOf(doc, run).doc.checks && entry !in AfterGate(doc, run.gate).checks
    ensures StepOf(doc, run).phase3 == Some(true) && Earned(run, entry)
  {
    NewEntryIsOfThePlan(doc, run, entry);
    var had, env, p := AfterGate(doc, run.gate).checks, CarryOf(run), run.phase3.value;
    assert entry in Added(had, env, env.merged);
    AddedExactly(had, env, env.merged, entry);
    Phase3PassesIff(doc, run);
    var c :| c in p.kept.value[entry.component].checks && entry == NewEntry(env, entry.component, c);
    assert TestedOn(p, p.merged.value.commit, p.All());
    assert Planned(p.KeptPlan().value, Wanted(entry.planId, entry.component, c));
  }

  /** Over every history: whatever stands in the ledger was put there by a run
      that passed Phase 3 on the base itself, and its check exited 0 on all
      runs at the commit the entry names. */
  lemma {:induction false} EveryEntryWasEarned(history: seq<Run>, n: nat, entry: Entry) returns (k: nat)
    requires HistoryIsSane(history) && n <= |history| && entry in After(history[..n]).checks
    ensures k < n && StepOf(After(history[..k]), history[k]).phase3 == Some(true) && Earned(history[k], entry)
    decreases n
  {
    assert n > 0 by { assert history[..0] == []; }
    k := n - 1;
    AfterOne(history, k);
    if entry in After(history[..k]).checks {
      k := EveryEntryWasEarned(history, k, entry);
    } else {
      GateOnlyRemoves(After(history[..k]), history[k], entry);
      EveryStepIsSane(history, k);
      NewEntryIsEarned(After(history[..k]), history[k], entry);
    }
  }
}
