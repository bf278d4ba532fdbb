/**
 The base reading: every check of a plan runs once on the base, the base
 removes the designed checks it contradicts, and what is left is accepted or
 refuses the run.

 Sources: kstrl/acceptance/acceptance_base.py and the base half of
 kstrl/acceptance/acceptance.py.
 */
module BaseScreening {
  import opened Checks

  type BaseExits = map<string, map<string, Exit>>

  const NO_DESIGNED_CHECK := "no designed acceptance check"
  const BASE_NOT_RUNNABLE := "base not runnable"

  datatype Why = PassesThere | FailsThere | CouldNotRunThere

  datatype BaseRefusal =
    | BaseDidNotResolve | NotReplayed | ReadingNotWritten
    | CouldNotRun(comp: string, id: string)
    | PassesAlready(comp: string, id: string)
    | FailsAlready(comp: string, id: string)

  datatype BaseReading = BaseReading(
    sha: string, exits: BaseExits, said: map<string, string>, kept: map<string, ComponentPlan>)

  /** Every planned check has an exit on record, possibly "none". */
  predicate Covers(exits: BaseExits, components: map<string, ComponentPlan>) {
    forall comp | comp in components ::
      comp in exits && CoversPart(exits[comp], components[comp].checks)
  }

  predicate CoversPart(exits: map<string, Exit>, checks: seq<Check>) {
    forall check | check in checks :: check.id in exits
  }

  // --- Which designed checks the base removes ------------------------------

  function WhyRemoved(check: Check, verdict: Verdict, holds: bool): Option<Why> {
    if check.onBase.FailsOnBase? && verdict == Pass then Some(PassesThere)
    else if check.onBase.PassesOnBase? && verdict != Pass && holds then
      Some(if verdict == Fail then FailsThere else CouldNotRunThere)
    else None
  }

  /** The component has a check that fails on the base as it says. */
  predicate Holds(checks: seq<Check>, exits: map<string, Exit>)
    requires CoversPart(exits, checks)
  {
    exists c | c in checks :: c.onBase.FailsOnBase? && VerdictOf(exits[c.id]) == Fail
  }

  predicate IsRemoved(check: Check, checks: seq<Check>, exits: map<string, Exit>)
    requires CoversPart(exits, checks) && check in checks
  {
    WhyRemoved(check, VerdictOf(exits[check.id]), Holds(checks, exits)).Some?
  }

  function RemovedIds(checks: seq<Check>, exits: map<string, Exit>): set<string>
    requires CoversPart(exits, checks)
  {
    set c | c in checks && IsRemoved(c, checks, exits) :: c.id
  }

  method RemovedOnBase(checks: seq<Check>, exits: map<string, Exit>) returns (removed: set<string>)
    requires CoversPart(exits, checks)
    ensures removed == RemovedIds(checks, exits)
  {
    var holds := exists c | c in checks :: c.onBase.FailsOnBase? && VerdictOf(exits[c.id]) == Fail;
    removed := {};
    for i := 0 to |checks|
      invariant removed == set c | c in checks[..i] && IsRemoved(c, checks, exits) :: c.id
    {
      var check := checks[i];
      assert checks[..i + 1] == checks[..i] + [check];
      if WhyRemoved(check, VerdictOf(exits[check.id]), holds).Some? {
        removed := removed + {check.id};
      }
    }
    assert checks[..|checks|] == checks;
  }

  /** The checks whose id is not in `ids`, in their order. */
  function Without(checks: seq<Check>, ids: set<string>): (rest: seq<Check>)
    ensures forall c :: c in rest <==> c in checks && c.id !in ids
  {
    if checks == [] then []
    else
      var init, last := checks[..|checks| - 1], checks[|checks| - 1];
      assert checks == init + [last];
      Without(init, ids) + if last.id in ids then [] else [last]
  }

  lemma {:induction false} WithoutKeepsDistinct(checks: seq<Check>, ids: set<string>)
    requires DistinctIds(checks)
    ensures DistinctIds(Without(checks, ids))
  {
    if checks != [] {
      var init, last := checks[..|checks| - 1], checks[|checks| - 1];
      WithoutKeepsDistinct(init, ids);
      assert forall c | c in Without(init, ids) :: c in init && c.id != last.id;
    }
  }

  lemma {:induction false} WithoutNothing(checks: seq<Check>, ids: set<string>)
    requires forall c | c in checks :: c.id !in ids
    ensures Without(checks, ids) == checks
  {
    if checks != [] {
      var init, last := checks[..|checks| - 1], checks[|checks| - 1];
      assert checks == init + [last];
      assert last in checks;
      assert forall c | c in init :: c in checks;
      WithoutNothing(init, ids);
    }
  }

  function Screened(checks: seq<Check>, exits: map<string, Exit>): seq<Check>
    requires CoversPart(exits, checks)
  {
    Without(checks, RemovedIds(checks, exits))
  }

  /** What a head runs of one component: an operator's part is kept whole. */
  function KeptPart(designed: bool, checks: seq<Check>, exits: map<string, Exit>): seq<Check>
    requires CoversPart(exits, checks)
  {
    if designed then Screened(checks, exits) else checks
  }

  /** The checks each head runs, by component. */
  function Kept(plan: PinnedPlan, exits: BaseExits): map<string, ComponentPlan>
    requires Covers(exits, plan.components)
  {
    if !plan.designed then plan.components
    else map comp | comp in plan.components && Screened(plan.components[comp].checks, exits[comp]) != []
           :: plan.components[comp].(checks := Screened(plan.components[comp].checks, exits[comp]))
  }

  /** Kept, read one component at a time. */
  lemma KeptAt(plan: PinnedPlan, exits: BaseExits, comp: string)
    requires ValidComponents(plan.components) && Covers(exits, plan.components) && comp in plan.components
    ensures var checks := KeptPart(plan.designed, plan.components[comp].checks, exits[comp]);
            && (comp in Kept(plan, exits) <==> checks != [])
            && (comp in Kept(plan, exits) ==> Kept(plan, exits)[comp] == plan.components[comp].(checks := checks))
  {
  }

  ghost predicate KeptSoFar(
    plan: PinnedPlan, exits: BaseExits, comp: string,
    kept: map<string, ComponentPlan>, said: map<string, string>)
    requires Covers(exits, plan.components) && comp in plan.components
  {
    var checks := Screened(plan.components[comp].checks, exits[comp]);
    && (comp in kept <==> checks != [])
    && (comp in kept ==> kept[comp] == plan.components[comp].(checks := checks))
    && (comp in said <==> checks == [])
    && (comp in said ==> said[comp] == NO_DESIGNED_CHECK)
  }

  method KeptOnBase(plan: PinnedPlan, exits: BaseExits)
    returns (kept: map<string, ComponentPlan>, said: map<string, string>)
    requires Covers(exits, plan.components)
    ensures kept == Kept(plan, exits)
    ensures said.Keys == plan.components.Keys - kept.Keys
    ensures forall comp | comp in said :: said[comp] == NO_DESIGNED_CHECK
  {
    if !plan.designed { return plan.components, map[]; }
    kept, said := map[], map[];
    var todo := plan.components.Keys;
    while todo != {}
      invariant todo <= plan.components.Keys
      invariant kept.Keys + said.Keys == plan.components.Keys - todo
      invariant forall comp | comp in plan.components && comp !in todo :: KeptSoFar(plan, exits, comp, kept, said)
    {
      var comp :| comp in todo;
      var part := plan.components[comp];
      var removed := RemovedOnBase(part.checks, exits[comp]);
      var checks := Without(part.checks, removed);
      KeptStep(plan, exits, kept, said, todo, comp);
      if checks != [] {
        kept := kept[comp := part.(checks := checks)];
      } else {
        said := said[comp := NO_DESIGNED_CHECK];
      }
      todo := todo - {comp};
    }
    KeptForAll(plan, exits, kept, said);
  }

  lemma KeptStep(plan: PinnedPlan, exits: BaseExits, kept: map<string, ComponentPlan>, said: map<string, string>,
                 todo: set<string>, comp: string)
    requires Covers(exits, plan.components) && comp in todo && todo <= plan.components.Keys
    requires kept.Keys + said.Keys == plan.components.Keys - todo
    requires forall other | other in plan.components && other !in todo :: KeptSoFar(plan, exits, other, kept, said)
    ensures var part := plan.components[comp];
            var checks := Screened(part.checks, exits[comp]);
            var kept' := if checks != [] then kept[comp := part.(checks := checks)] else kept;
            var said' := if checks != [] then said else said[comp := NO_DESIGNED_CHECK];
            && kept'.Keys + said'.Keys == plan.components.Keys - (todo - {comp})
            && forall other | other in plan.components && other !in todo - {comp} ::
                 KeptSoFar(plan, exits, other, kept', said')
  {
    var part := plan.components[comp];
    var checks := Screened(part.checks, exits[comp]);
    var kept' := if checks != [] then kept[comp := part.(checks := checks)] else kept;
    var said' := if checks != [] then said else said[comp := NO_DESIGNED_CHECK];
    forall other | other in plan.components && other !in todo - {comp}
      ensures KeptSoFar(plan, exits, other, kept', said')
    {
      if other != comp { assert KeptSoFar(plan, exits, other, kept, said); }
    }
  }

  lemma KeptForAll(plan: PinnedPlan, exits: BaseExits, kept: map<string, ComponentPlan>, said: map<string, string>)
    requires Covers(exits, plan.components) && plan.designed
    requires kept.Keys + said.Keys == plan.components.Keys
    requires forall comp | comp in plan.components :: KeptSoFar(plan, exits, comp, kept, said)
    ensures kept == Kept(plan, exits)
    ensures said.Keys == plan.components.Keys - kept.Keys
    ensures forall comp | comp in said :: said[comp] == NO_DESIGNED_CHECK
  {
    forall comp | comp in plan.components
      ensures comp in kept <==> comp in Kept(plan, exits)
      ensures comp in kept ==> kept[comp] == Kept(plan, exits)[comp]
      ensures comp in said <==> comp !in kept
      ensures comp in said ==> said[comp] == NO_DESIGNED_CHECK
    {
      assert KeptSoFar(plan, exits, comp, kept, said);
    }
  }

  // --- Why the base refuses the plan ---------------------------------------

  function Contradiction(comp: string, check: Check, verdict: Verdict): Option<BaseRefusal> {
    if verdict == NotRun then Some(CouldNotRun(comp, check.id))
    else if verdict == Pass && check.onBase.FailsOnBase? then Some(PassesAlready(comp, check.id))
    else if verdict == Fail && check.onBase.PassesOnBase? then Some(FailsAlready(comp, check.id))
    else None
  }

  /** What one kept check says against the plan: a check that did not run is
      no objection where the plan creates the application. */
  function Objection(comp: string, createsApp: bool, check: Check, code: Exit): Option<BaseRefusal> {
    if VerdictOf(code) == NotRun && createsApp then None
    else Contradiction(comp, check, VerdictOf(code))
  }

  /** Which objection a check raises, by its exit and its promise alone. */
  lemma ObjectionSays(comp: string, createsApp: bool, check: Check, code: Exit)
    ensures Objection(comp, createsApp, check, code) ==
            if code == Some(0) then
              if check.onBase == FailsOnBase then Some(PassesAlready(comp, check.id)) else None
            else if code == None || code == Some(126) || code == Some(127) then
              if createsApp then None else Some(CouldNotRun(comp, check.id))
            else if check.onBase == PassesOnBase then Some(FailsAlready(comp, check.id))
            else None
  {
  }

  /** Why a designed check is removed, by its exit and its promise alone. */
  lemma RemovalSays(check: Check, code: Exit, holds: bool)
    ensures WhyRemoved(check, VerdictOf(code), holds) ==
            if check.onBase == FailsOnBase then if code == Some(0) then Some(PassesThere) else None
            else if code == Some(0) || !holds then None
            else if code == None || code == Some(126) || code == Some(127) then Some(CouldNotRunThere)
            else Some(FailsThere)
  {
  }

  /** No check of the part objects. */
  predicate PartClean(createsApp: bool, checks: seq<Check>, exits: map<string, Exit>)
    requires CoversPart(exits, checks)
  {
    forall c | c in checks :: Objection("", createsApp, c, exits[c.id]).None?
  }

  /** Some check of the part objects with `r`. */
  ghost predicate PartObjects(
    comp: string, createsApp: bool, checks: seq<Check>, exits: map<string, Exit>, r: BaseRefusal)
    requires CoversPart(exits, checks)
  {
    exists c | c in checks :: Objection(comp, createsApp, c, exits[c.id]) == Some(r)
  }

  ghost predicate Objects(components: map<string, ComponentPlan>, exits: BaseExits, done: set<string>, r: BaseRefusal)
    requires Covers(exits, components) && done <= components.Keys
  {
    exists comp | comp in done ::
      PartObjects(comp, components[comp].createsApp, components[comp].checks, exits[comp], r)
  }

  /** Some check of a part that creates the application did not run. */
  predicate PartMissed(part: ComponentPlan, exits: map<string, Exit>)
    requires CoversPart(exits, part.checks)
  {
    part.createsApp && exists c | c in part.checks :: VerdictOf(exits[c.id]) == NotRun
  }

  method PartErrors(comp: string, part: ComponentPlan, exits: map<string, Exit>)
    returns (missed: bool, errors: seq<BaseRefusal>)
    requires CoversPart(exits, part.checks)
    ensures missed == PartMissed(part, exits)
    ensures errors == [] <==> PartClean(part.createsApp, part.checks, exits)
    ensures forall r :: r in errors <==> PartObjects(comp, part.createsApp, part.checks, exits, r)
  {
    missed, errors := false, [];
    for i := 0 to |part.checks|
      invariant missed <==> PartMissed(part.(checks := part.checks[..i]), exits)
      invariant errors == [] <==> PartClean(part.createsApp, part.checks[..i], exits)
      invariant forall r :: r in errors <==> PartObjects(comp, part.createsApp, part.checks[..i], exits, r)
    {
      var check := part.checks[i];
      assert part.checks[..i + 1] == part.checks[..i] + [check];
      assert check in part.checks[..i + 1];
      var verdict := VerdictOf(exits[check.id]);
      if verdict == NotRun && part.createsApp {
        missed := true;
      } else {
        var said := Contradiction(comp, check, verdict);
        assert said == Objection(comp, part.createsApp, check, exits[check.id]);
        if said.Some? { errors := errors + [said.value]; }
      }
    }
    assert part.checks[..|part.checks|] == part.checks;
  }

  method BaseErrors(components: map<string, ComponentPlan>, record: ReplayRecord, exits: BaseExits)
    returns (notRunnable: set<string>, errors: seq<BaseRefusal>)
    requires Covers(exits, components)
    ensures Unreplayed(record) ==> notRunnable == {} && errors == [NotReplayed]
    ensures !Unreplayed(record) ==>
              (errors == [] <==>
               forall comp | comp in components ::
                 PartClean(components[comp].createsApp, components[comp].checks, exits[comp]))
    ensures !Unreplayed(record) ==> forall r :: r in errors <==> Objects(components, exits, components.Keys, r)
    ensures !Unreplayed(record) ==>
              notRunnable == set comp | comp in components && PartMissed(components[comp], exits[comp])
  {
    if Unreplayed(record) { return {}, [NotReplayed]; }
    notRunnable, errors := {}, [];
    var todo := components.Keys;
    while todo != {}
      invariant todo <= components.Keys
      invariant errors == [] <==>
                (forall comp | comp in components && comp !in todo ::
                  PartClean(components[comp].createsApp, components[comp].checks, exits[comp]))
      invariant forall r :: r in errors <==> Objects(components, exits, components.Keys - todo, r)
      invariant notRunnable ==
                set comp | comp in components && comp !in todo && PartMissed(components[comp], exits[comp])
    {
      var comp :| comp in todo;
      var missed, found := PartErrors(comp, components[comp], exits[comp]);
      if missed { notRunnable := notRunnable + {comp}; }
      errors := errors + found;
      todo := todo - {comp};
    }
  }

  /** The base takes the plan: it was replayed and no kept check objects. */
  ghost predicate Accepts(plan: PinnedPlan, record: ReplayRecord, exits: BaseExits)
    requires Covers(exits, plan.components)
  {
    && !Unreplayed(record)
    && forall comp | comp in plan.components ::
         PartClean(plan.components[comp].createsApp,
                   KeptPart(plan.designed, plan.components[comp].checks, exits[comp]), exits[comp])
  }

  // --- The reading of one base ---------------------------------------------

  /** The one base exit of a check. */
  function ExitOnBase(site: Site, digest: string, check: Check): Exit {
    if site.probed then site.run(digest, check, 1).exit else None
  }

  /** `exits` is what one run of each of the checks on `site` gave. */
  ghost predicate IsPartReading(exits: map<string, Exit>, site: Site, digest: string, checks: seq<Check>) {
    && exits.Keys == (set c | c in checks :: c.id)
    && forall c | c in checks :: exits[c.id] == ExitOnBase(site, digest, c)
  }

  ghost predicate IsReadingOf(exits: BaseExits, site: Site, plan: PinnedPlan) {
    && exits.Keys == plan.components.Keys
    && forall comp | comp in plan.components ::
         IsPartReading(exits[comp], site, plan.digest, plan.components[comp].checks)
  }

  lemma ReadingCovers(exits: BaseExits, site: Site, plan: PinnedPlan)
    requires IsReadingOf(exits, site, plan)
    ensures Covers(exits, plan.components)
  {
    forall comp | comp in plan.components
      ensures CoversPart(exits[comp], plan.components[comp].checks)
    {
      assert IsPartReading(exits[comp], site, plan.digest, plan.components[comp].checks);
    }
  }

  predicate Planned(plan: PinnedPlan, w: Wanted) {
    w.digest == plan.digest && w.comp in plan.components && w.check in plan.components[w.comp].checks
  }

  method AllWanted(plan: PinnedPlan) returns (wanted: seq<Wanted>)
    ensures forall w :: w in wanted <==> Planned(plan, w)
  {
    wanted := [];
    var todo := plan.components.Keys;
    while todo != {}
      invariant todo <= plan.components.Keys
      invariant forall w :: w in wanted <==> Planned(plan, w) && w.comp !in todo
    {
      var comp :| comp in todo;
      var checks := plan.components[comp].checks;
      var more := WantedOf(plan.digest, comp, checks);
      forall w ensures w in more <==> Planned(plan, w) && w.comp == comp {
        if Planned(plan, w) && w.comp == comp {
          var i :| 0 <= i < |checks| && checks[i] == w.check;
          assert more[i] == w;
        }
      }
      wanted := wanted + more;
      todo := todo - {comp};
    }
  }

  lemma PlanIsConsistent(plan: PinnedPlan, wanted: seq<Wanted>)
    requires ValidComponents(plan.components)
    requires forall w | w in wanted :: Planned(plan, w)
    ensures Consistent(wanted)
  {
    forall i, j | 0 <= i < |wanted| && 0 <= j < |wanted| && wanted[i].Key() == wanted[j].Key()
      ensures wanted[i].digest == wanted[j].digest && wanted[i].check == wanted[j].check
    {
      assert Planned(plan, wanted[i]) && Planned(plan, wanted[j]);
      SameIdSameCheck(plan.components[wanted[i].comp].checks, wanted[i].check, wanted[j].check);
    }
  }

  method ExitsOnBase(site: Site, plan: PinnedPlan) returns (exits: BaseExits)
    requires ValidComponents(plan.components)
    ensures IsReadingOf(exits, site, plan)
  {
    var wanted := AllWanted(plan);
    PlanIsConsistent(plan, wanted);
    var log := new RunLog();
    log.Probe(site, wanted, 1);
    var runs := log.runs;
    exits := map comp | comp in plan.components ::
      map id | id in (set c | c in plan.components[comp].checks :: c.id) :: FirstExit(runs, (comp, id));
    forall comp | comp in plan.components
      ensures IsPartReading(exits[comp], site, plan.digest, plan.components[comp].checks)
    {
      forall check | check in plan.components[comp].checks
        ensures exits[comp][check.id] == ExitOnBase(site, plan.digest, check)
      {
        var item := Wanted(plan.digest, comp, check);
        assert Planned(plan, item);
        OwnRuns(site, wanted, 1, item);
      }
    }
  }

  /** What a reading is: the exits of one run, the kept checks, and what is
      said of each component. */
  ghost predicate IsBaseReading(reading: BaseReading, site: Site, plan: PinnedPlan) {
    && reading.sha == site.sha
    && IsReadingOf(reading.exits, site, plan)
    && Covers(reading.exits, plan.components)
    && reading.kept == Kept(plan, reading.exits)
  }

  /** What is said of a component, "" for nothing: that no designed check is
      left, or that a check of a new application did not run. */
  ghost predicate SaysOf(reading: BaseReading, comp: string, part: ComponentPlan) {
    (if comp in reading.said then reading.said[comp] else "") ==
    if comp !in reading.kept then NO_DESIGNED_CHECK
    else if part.createsApp && comp in reading.exits &&
            exists c | c in reading.kept[comp].checks ::
              c.id in reading.exits[comp] && VerdictOf(reading.exits[comp][c.id]) == NotRun
    then BASE_NOT_RUNNABLE
    else ""
  }

  /** Replay every check once on the base and read what it says. The reading
      is returned with the refusals, as the source writes it either way. */
  method ReplayBase(base: Option<Site>, plan: PinnedPlan, writes: bool)
    returns (reading: Option<BaseReading>, errors: seq<BaseRefusal>)
    requires ValidComponents(plan.components)
    ensures base.None? ==> reading.None? && errors == [BaseDidNotResolve]
    ensures base.Some? ==> reading.Some? && IsBaseReading(reading.value, base.value, plan)
    ensures base.Some? ==> (errors == [] <==> writes && Accepts(plan, base.value.record, reading.value.exits))
    ensures base.Some? && !Unreplayed(base.value.record) ==>
              forall comp | comp in plan.components :: SaysOf(reading.value, comp, plan.components[comp])
  {
    if base.None? { return None, [BaseDidNotResolve]; }
    var site := base.value;
    var exits := ExitsOnBase(site, plan);
    ReadingCovers(exits, site, plan);
    var kept, dropped := KeptOnBase(plan, exits);
    KeptIsCovered(plan, exits);
    var notRunnable;
    notRunnable, errors := BaseErrors(kept, site.record, exits);
    AcceptsIffKeptClean(plan, site.record, exits);
    var said := dropped + map comp | comp in notRunnable :: BASE_NOT_RUNNABLE;
    reading := Some(BaseReading(site.sha, exits, said, kept));
    if !Unreplayed(site.record) { ReadingSays(plan, reading.value, dropped, notRunnable); }
    if !writes { errors := errors + [ReadingNotWritten]; }
  }

  lemma ReadingSays(plan: PinnedPlan, reading: BaseReading, dropped: map<string, string>, notRunnable: set<string>)
    requires ValidComponents(plan.components) && Covers(reading.exits, plan.components)
    requires reading.kept == Kept(plan, reading.exits) && Covers(reading.exits, reading.kept)
    requires dropped.Keys == plan.components.Keys - reading.kept.Keys
    requires forall comp | comp in dropped :: dropped[comp] == NO_DESIGNED_CHECK
    requires notRunnable == set comp | comp in reading.kept && PartMissed(reading.kept[comp], reading.exits[comp])
    requires reading.said == dropped + map comp | comp in notRunnable :: BASE_NOT_RUNNABLE
    ensures forall comp | comp in plan.components :: SaysOf(reading, comp, plan.components[comp])
  {
    forall comp | comp in plan.components
      ensures SaysOf(reading, comp, plan.components[comp])
    {
      KeptAt(plan, reading.exits, comp);
      if comp in reading.kept {
        assert CoversPart(reading.exits[comp], reading.kept[comp].checks);
        assert comp in notRunnable <==> PartMissed(reading.kept[comp], reading.exits[comp]);
      }
    }
  }

  lemma KeptIsCovered(plan: PinnedPlan, exits: BaseExits)
    requires ValidComponents(plan.components) && Covers(exits, plan.components)
    ensures Covers(exits, Kept(plan, exits))
  {
    forall comp | comp in Kept(plan, exits)
      ensures CoversPart(exits[comp], Kept(plan, exits)[comp].checks)
    {
      KeptAt(plan, exits, comp);
    }
  }

  lemma AcceptsIffKeptClean(plan: PinnedPlan, record: ReplayRecord, exits: BaseExits)
    requires ValidComponents(plan.components)
    requires Covers(exits, plan.components) && Covers(exits, Kept(plan, exits))
    ensures Accepts(plan, record, exits) <==>
            && !Unreplayed(record)
            && forall comp | comp in Kept(plan, exits) ::
                 PartClean(Kept(plan, exits)[comp].createsApp, Kept(plan, exits)[comp].checks, exits[comp])
  {
    forall comp | comp in plan.components { KeptAt(plan, exits, comp); }
    if forall comp | comp in Kept(plan, exits) ::
        PartClean(Kept(plan, exits)[comp].createsApp, Kept(plan, exits)[comp].checks, exits[comp]) {
      forall comp | comp in plan.components
        ensures PartClean(plan.components[comp].createsApp,
                          KeptPart(plan.designed, plan.components[comp].checks, exits[comp]), exits[comp])
      {
        KeptAt(plan, exits, comp);
      }
    }
  }

  // --- What screening means ------------------------------------------------

  /** A check survives screening exactly when the base does not contradict it,
      where a check that promises to pass is only given up for a component
      that still holds a check failing as promised. */
  lemma ScreenedExactly(checks: seq<Check>, exits: map<string, Exit>, check: Check)
    requires DistinctIds(checks) && CoversPart(exits, checks) && check in checks
    ensures check in Screened(checks, exits) <==>
            match check.onBase
            case FailsOnBase => VerdictOf(exits[check.id]) != Pass
            case PassesOnBase => VerdictOf(exits[check.id]) == Pass || !Holds(checks, exits)
  {
    if check.id in RemovedIds(checks, exits) {
      var c :| c in checks && IsRemoved(c, checks, exits) && c.id == check.id;
      SameIdSameCheck(checks, c, check);
    }
  }

  /** The check that made a component hold survives screening. */
  lemma HolderSurvives(checks: seq<Check>, exits: map<string, Exit>) returns (holder: Check)
    requires DistinctIds(checks) && CoversPart(exits, checks) && Holds(checks, exits)
    ensures holder in checks && holder in Screened(checks, exits)
    ensures holder.onBase.FailsOnBase? && VerdictOf(exits[holder.id]) == Fail
  {
    holder :| holder in checks && holder.onBase.FailsOnBase? && VerdictOf(exits[holder.id]) == Fail;
    ScreenedExactly(checks, exits, holder);
  }

  /** A component loses all its checks iff each promises to fail on the base
      and exited 0 there: a check that promises to pass never leaves alone. */
  lemma LosesAllChecksIff(checks: seq<Check>, exits: map<string, Exit>)
    requires DistinctIds(checks) && CoversPart(exits, checks)
    ensures Screened(checks, exits) == [] <==>
            forall c | c in checks :: c.onBase.FailsOnBase? && exits[c.id] == Some(0)
  {
    if Screened(checks, exits) == [] {
      if Holds(checks, exits) {
        var _ := HolderSurvives(checks, exits);
      }
      forall c | c in checks ensures c.onBase.FailsOnBase? && exits[c.id] == Some(0) {
        ScreenedExactly(checks, exits, c);
      }
    } else {
      var c := Screened(checks, exits)[0];
      assert c in Screened(checks, exits) && c in checks;
      ScreenedExactly(checks, exits, c);
    }
  }

  /** The parts of a designed plan the base has no quarrel with, in terms of
      the plan and its exits alone, without mentioning what is removed. */
  ghost predicate PartAcceptable(createsApp: bool, checks: seq<Check>, exits: map<string, Exit>)
    requires CoversPart(exits, checks)
  {
    if createsApp then
      || Holds(checks, exits)
      || (forall c | c in checks && c.onBase.PassesOnBase? :: VerdictOf(exits[c.id]) != Fail)
    else
      && (forall c | c in checks && c.onBase.FailsOnBase? :: VerdictOf(exits[c.id]) != NotRun)
      && (|| Holds(checks, exits)
          || forall c | c in checks && c.onBase.PassesOnBase? :: VerdictOf(exits[c.id]) == Pass)
  }

  lemma PartAcceptableIff(createsApp: bool, checks: seq<Check>, exits: map<string, Exit>)
    requires DistinctIds(checks) && CoversPart(exits, checks)
    ensures PartClean(createsApp, Screened(checks, exits), exits) <==> PartAcceptable(createsApp, checks, exits)
  {
    forall c | c in checks
      ensures c in Screened(checks, exits) <==>
              match c.onBase
              case FailsOnBase => VerdictOf(exits[c.id]) != Pass
              case PassesOnBase => VerdictOf(exits[c.id]) == Pass || !Holds(checks, exits)
    {
      ScreenedExactly(checks, exits, c);
    }
  }

  /** Screening a designed plan, exactly characterised. */
  lemma DesignedAcceptedIff(plan: PinnedPlan, record: ReplayRecord, exits: BaseExits)
    requires ValidComponents(plan.components) && Covers(exits, plan.components) && plan.designed
    ensures Accepts(plan, record, exits) <==>
            && !Unreplayed(record)
            && forall comp | comp in plan.components ::
                 PartAcceptable(plan.components[comp].createsApp, plan.components[comp].checks, exits[comp])
  {
    forall comp | comp in plan.components
      ensures PartAcceptable(plan.components[comp].createsApp, plan.components[comp].checks, exits[comp]) <==>
              PartClean(plan.components[comp].createsApp,
                        KeptPart(plan.designed, plan.components[comp].checks, exits[comp]), exits[comp])
    {
      PartAcceptableIff(plan.components[comp].createsApp, plan.components[comp].checks, exits[comp]);
    }
  }

  /** What an operator's check must say of the base. */
  predicate AsPromised(createsApp: bool, check: Check, code: Exit) {
    match VerdictOf(code)
    case Pass => check.onBase.PassesOnBase?
    case Fail => check.onBase.FailsOnBase?
    case NotRun => createsApp
  }

  /** An operator's plan is refused by any contradiction, and by a check that
      did not run unless its component creates the application. */
  lemma OperatorAcceptedIff(plan: PinnedPlan, record: ReplayRecord, exits: BaseExits)
    requires Covers(exits, plan.components) && !plan.designed
    ensures Accepts(plan, record, exits) <==>
            && !Unreplayed(record)
            && forall comp | comp in plan.components ::
                 forall c | c in plan.components[comp].checks ::
                   AsPromised(plan.components[comp].createsApp, c, exits[comp][c.id])
  {
    forall comp | comp in plan.components
      ensures PartClean(plan.components[comp].createsApp, plan.components[comp].checks, exits[comp]) <==>
              forall c | c in plan.components[comp].checks ::
                AsPromised(plan.components[comp].createsApp, c, exits[comp][c.id])
    {
      forall c | c in plan.components[comp].checks
        ensures Objection("", plan.components[comp].createsApp, c, exits[comp][c.id]).None? <==>
                AsPromised(plan.components[comp].createsApp, c, exits[comp][c.id])
      {
      }
    }
  }

  lemma ScreenedTwice(checks: seq<Check>, exits: map<string, Exit>)
    requires DistinctIds(checks) && CoversPart(exits, checks)
    ensures DistinctIds(Screened(checks, exits)) && CoversPart(exits, Screened(checks, exits))
    ensures Screened(Screened(checks, exits), exits) == Screened(checks, exits)
  {
    var once := Screened(checks, exits);
    WithoutKeepsDistinct(checks, RemovedIds(checks, exits));
    if Holds(checks, exits) {
      var holder := HolderSurvives(checks, exits);
      assert Holds(once, exits);
    }
    forall c | c in once ensures !IsRemoved(c, once, exits) {
      ScreenedExactly(checks, exits, c);
    }
    assert RemovedIds(once, exits) == {};
    WithoutNothing(once, {});
  }

  /** What is kept stays a valid plan, and screening it again, against the same
      base, removes nothing more. */
  lemma ScreeningIsIdempotent(plan: PinnedPlan, exits: BaseExits)
    requires ValidComponents(plan.components) && Covers(exits, plan.components)
    ensures ValidComponents(Kept(plan, exits))
    ensures Covers(exits, Kept(plan, exits))
    ensures Kept(plan.(components := Kept(plan, exits)), exits) == Kept(plan, exits)
  {
    KeptIsCovered(plan, exits);
    KeptIsValid(plan, exits);
    forall comp | comp in Kept(plan, exits) { KeptAgainAt(plan, exits, comp); }
  }

  lemma KeptIsValid(plan: PinnedPlan, exits: BaseExits)
    requires ValidComponents(plan.components) && Covers(exits, plan.components)
    ensures ValidComponents(Kept(plan, exits))
  {
    forall comp | comp in Kept(plan, exits)
      ensures Kept(plan, exits)[comp].checks != [] && DistinctIds(Kept(plan, exits)[comp].checks)
    {
      KeptAt(plan, exits, comp);
      if plan.designed { ScreenedTwice(plan.components[comp].checks, exits[comp]); }
    }
  }

  lemma KeptAgainAt(plan: PinnedPlan, exits: BaseExits, comp: string)
    requires ValidComponents(plan.components) && Covers(exits, plan.components)
    requires ValidComponents(Kept(plan, exits)) && Covers(exits, Kept(plan, exits))
    requires comp in Kept(plan, exits)
    ensures comp in Kept(plan.(components := Kept(plan, exits)), exits)
    ensures Kept(plan.(components := Kept(plan, exits)), exits)[comp] == Kept(plan, exits)[comp]
  {
    KeptAt(plan, exits, comp);
    if plan.designed { ScreenedTwice(plan.components[comp].checks, exits[comp]); }
    KeptAt(plan.(components := Kept(plan, exits)), exits, comp);
  }

  /** On an accepted base a component that does not create the application has
      every kept check measured, and each says of the base what it promised. */
  lemma AcceptedBaseIsMeasured(plan: PinnedPlan, record: ReplayRecord, exits: BaseExits, comp: string, check: Check)
    requires ValidComponents(plan.components)
    requires Covers(exits, plan.components) && Accepts(plan, record, exits)
    requires comp in Kept(plan, exits) && !plan.components[comp].createsApp
    requires check in Kept(plan, exits)[comp].checks
    ensures check in plan.components[comp].checks
    ensures VerdictOf(exits[comp][check.id]) == if check.onBase.FailsOnBase? then Fail else Pass
  {
    KeptAt(plan, exits, comp);
    assert Objection("", false, check, exits[comp][check.id]).None?;
  }

  lemma StoppedPart(designed: bool, part: ComponentPlan, exits: map<string, Exit>)
    requires part.checks != [] && CoversPart(exits, part.checks)
    requires forall c | c in part.checks :: exits[c.id].None?
    ensures KeptPart(designed, part.checks, exits) == part.checks
    ensures PartClean(part.createsApp, part.checks, exits) <==> part.createsApp
  {
    assert RemovedIds(part.checks, exits) == {};
    WithoutNothing(part.checks, {});
    assert part.checks[0] in part.checks;
    assert Objection("", part.createsApp, part.checks[0], None).None? <==> part.createsApp;
  }

  /** A base replay that stopped before its checks removes nothing, and is
      accepted only if every planned component creates the application. */
  lemma StoppedBaseAcceptedOnlyForNewApps(plan: PinnedPlan, site: Site, exits: BaseExits)
    requires ValidComponents(plan.components) && Covers(exits, plan.components)
    requires !site.probed && IsReadingOf(exits, site, plan)
    ensures Kept(plan, exits) == plan.components
    ensures Accepts(plan, site.record, exits) <==>
            !Unreplayed(site.record) && forall comp | comp in plan.components :: plan.components[comp].createsApp
  {
    StoppedKeepsAll(plan, site, exits);
    StoppedIsClean(plan, site, exits);
  }

  lemma StoppedKeepsAll(plan: PinnedPlan, site: Site, exits: BaseExits)
    requires ValidComponents(plan.components) && Covers(exits, plan.components)
    requires !site.probed && IsReadingOf(exits, site, plan)
    ensures Kept(plan, exits) == plan.components
  {
    forall comp | comp in plan.components
      ensures comp in Kept(plan, exits) && Kept(plan, exits)[comp] == plan.components[comp]
    {
      StoppedAt(plan, site, exits, comp);
    }
    SameParts(Kept(plan, exits), plan.components);
  }

  lemma SameParts(kept: map<string, ComponentPlan>, planned: map<string, ComponentPlan>)
    requires kept.Keys <= planned.Keys
    requires forall comp | comp in planned :: comp in kept && kept[comp] == planned[comp]
    ensures kept == planned
  {
  }

  lemma StoppedIsClean(plan: PinnedPlan, site: Site, exits: BaseExits)
    requires ValidComponents(plan.components) && Covers(exits, plan.components)
    requires !site.probed && IsReadingOf(exits, site, plan)
    ensures forall comp | comp in plan.components ::
              PartClean(plan.components[comp].createsApp,
                        KeptPart(plan.designed, plan.components[comp].checks, exits[comp]), exits[comp]) <==>
              plan.components[comp].createsApp
  {
    forall comp | comp in plan.components
      ensures PartClean(plan.components[comp].createsApp,
                        KeptPart(plan.designed, plan.components[comp].checks, exits[comp]), exits[comp]) <==>
              plan.components[comp].createsApp
    {
      StoppedAt(plan, site, exits, comp);
    }
  }

  lemma StoppedAt(plan: PinnedPlan, site: Site, exits: BaseExits, comp: string)
    requires ValidComponents(plan.components) && Covers(exits, plan.components)
    requires !site.probed && IsReadingOf(exits, site, plan) && comp in plan.components
    ensures comp in Kept(plan, exits) && Kept(plan, exits)[comp] == plan.components[comp]
    ensures PartClean(plan.components[comp].createsApp,
                      KeptPart(plan.designed, plan.components[comp].checks, exits[comp]), exits[comp]) <==>
            plan.components[comp].createsApp
  {
    assert IsPartReading(exits[comp], site, plan.digest, plan.components[comp].checks);
    StoppedPart(plan.designed, plan.components[comp], exits[comp]);
    KeptAt(plan, exits, comp);
  }
}
