/**
 From the stage machine to the answers that read its record: a base, a gate or
 a recheck goes on only where the recipe could run at all, and a recipe that ran
 and failed is told apart from one that never ran.

 Sources: kstrl/acceptance/replay.py and the readers of its record in
 kstrl/acceptance/acceptance.py, acceptance_carried.py and recheck.py.
 */
module ReplayedSites {
  import opened Checks
  import opened BaseScreening
  import opened Carried
  import opened CarriedGate
  import opened JudgeHead
  import opened Recheck
  import R = Replay

  /** Nothing kept the recipe from running: the commit resolved, was checked
      out and its worktree removed, neither zone was refused, and no stack that
      a person has not confirmed would have run on the host. */
  predicate Reached(recipe: R.Recipe, host: R.Host) {
    && host.resolves && host.checksOut && host.removes
    && !(host.setupRung.ProvenRung? && host.setupRung.refusal != "")
    && !(host.testRung.ProvenRung? && host.testRung.refusal != "")
    && !(recipe.unconfirmed != "" && host.setupRung.HostFallback?)
  }

  /** The site that a finished probing replay leaves. */
  ghost predicate IsSiteOf(site: Site, replay: R.Replay, host: R.Host)
    reads replay
  {
    replay.Finished(host, true) && site.record == replay.Record() && site.probed == replay.probed
  }

  lemma RefusedIff(recipe: R.Recipe, host: R.Host)
    requires host.resolves && host.checksOut && host.removes
    ensures R.Refused(recipe, host) == [] <==> Reached(recipe, host)
  {
  }

  /** A record reads as not replayed exactly when something kept the recipe
      from running: a setup, an up or a check that failed is not that. */
  lemma UnreplayedIff(site: Site, replay: R.Replay, host: R.Host)
    requires IsSiteOf(site, replay, host)
    ensures Unreplayed(site.record) <==> !Reached(replay.recipe, host)
  {
    if host.resolves && host.checksOut && host.removes {
      RefusedIff(replay.recipe, host);
      if R.Refused(replay.recipe, host) == [] && replay.stages != [] {
        var script := R.Script(replay.recipe, host, true);
        assert replay.stages[|replay.stages| - 1] == script[|replay.stages| - 1];
      }
    }
  }

  /** A base takes a plan only where the recipe could run, and there it does iff
      no kept check objects. */
  lemma BaseAcceptsIff(site: Site, replay: R.Replay, host: R.Host, plan: PinnedPlan, exits: BaseExits)
    requires IsSiteOf(site, replay, host) && Covers(exits, plan.components)
    ensures Accepts(plan, site.record, exits) <==>
            && Reached(replay.recipe, host)
            && forall comp | comp in plan.components ::
                 PartClean(plan.components[comp].createsApp,
                           KeptPart(plan.designed, plan.components[comp].checks, exits[comp]), exits[comp])
  {
    UnreplayedIff(site, replay, host);
  }

  /** So a refused boundary starts no run, not even of components that create
      the application; a failed setup or up does start one of those. */
  lemma StoppedBaseStartsIff(site: Site, replay: R.Replay, host: R.Host, plan: PinnedPlan, exits: BaseExits)
    requires IsSiteOf(site, replay, host) && !site.probed && IsReadingOf(exits, site, plan)
    requires ValidComponents(plan.components) && Covers(exits, plan.components)
    ensures Accepts(plan, site.record, exits) <==>
            Reached(replay.recipe, host) && forall comp | comp in plan.components :: plan.components[comp].createsApp
  {
    UnreplayedIff(site, replay, host);
    StoppedBaseAcceptedOnlyForNewApps(plan, site, exits);
  }

  /** The gate of the carried checks says that it could not replay them exactly
      there, and then lets nothing through. */
  lemma GateSaysUnreplayedIff(site: Site, replay: R.Replay, host: R.Host, doc: Doc, env: GateEnv)
    requires IsSiteOf(site, replay, host) && env.base == Some(site)
    requires env.readable && env.stack.Some? && Survivors(doc.checks, env.approved) != []
    requires |Survivors(doc.checks, env.approved)| == |doc.checks| || env.writes
    ensures CouldNotReplay in GateOf(doc, env).refused <==> !Reached(replay.recipe, host)
    ensures !Reached(replay.recipe, host) ==> GateOf(doc, env).passed == []
  {
    UnreplayedIff(site, replay, host);
    var left := Survivors(doc.checks, env.approved);
    GateRefusalsExactly(doc, env, CouldNotReplay);
  }

  /** A recheck says that nothing ran exactly there. */
  lemma RecheckDidNotRunIff(site: Site, replay: R.Replay, host: R.Host, evidence: Evidence, stack: Option<string>)
    requires IsSiteOf(site, replay, host)
    ensures RefusesBecause(evidence, stack, site, DidNotRun) <==>
            CanRecheck(evidence, stack) && !Reached(replay.recipe, host)
  {
    UnreplayedIff(site, replay, host);
  }
}
