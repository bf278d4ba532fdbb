/**
 The replay of a stack's recipe in a throwaway worktree: setup, up, then the
 stack's checks or a probe in their place, until one stage fails. One record
 is filled in as the stages run.

 Source: kstrl/acceptance/replay.py.
 */
module Replay {
  import opened Checks

  datatype Rung =
    | ProvenRung(zone: string, refusal: string, title: string)
    | HostFallback(platform: string, title: string)

  function RefusalOf(rung: Rung): string {
    if rung.ProvenRung? then rung.refusal else ""
  }

  /** A command's exit (None: timed out, or output that is not utf-8) and the
      last lines it printed. */
  datatype Given = Given(exit: Exit, tail: seq<string>)

  /** The `[stack]`: "" for a setup or up it does not have, and why a person
      has not confirmed it ("" when one has). */
  datatype Recipe = Recipe(
    digest: string, unconfirmed: string, setup: string, up: string, checks: seq<(string, string)>)

  /** What the machine answers while one replay runs. */
  datatype Host = Host(
    resolves: bool, checksOut: bool, removes: bool, setupRung: Rung, testRung: Rung,
    setup: Given, up: Given, check: nat -> Given, groupEmpties: bool)

  const NOT_RESOLVED := "the base branch did not resolve"
  const NOT_CHECKED_OUT := "the base was not checked out"
  const WORKTREE_SURVIVED := "the replay worktree survived"

  // --- The stages ----------------------------------------------------------

  function Ran(name: StageName, command: string, given: Given): Stage {
    var failed :=
      if given.exit == Some(0) then None
      else if name.SetupStage? then Some(SetupFailed(given.exit))
      else if given.exit.None? || given.exit.value in SHELL_COULD_NOT_RUN then Some(CheckNotRunnable)
      else Some(BaseContradiction);
    Stage(name, command, given.exit, given.tail, failed)
  }

  function Ready(command: string, given: Given): Stage {
    var failed :=
      if given.exit.None? then Some(UpTimeout)
      else if given.exit.value == 0 then None
      else Some(UpFailed(given.exit.value));
    Stage(UpStage, command, given.exit, given.tail, failed)
  }

  /** Which failure a stage is, by its exit alone. */
  lemma FailureByExit(command: string, name: string, given: Given)
    ensures Ran(SetupStage, command, given).failed ==
            (if given.exit == Some(0) then None else Some(SetupFailed(given.exit)))
    ensures Ready(command, given).failed ==
            (if given.exit == None then Some(UpTimeout)
             else if given.exit == Some(0) then None else Some(UpFailed(given.exit.value)))
    ensures Ran(StackCheck(name), command, given).failed ==
            (if given.exit == Some(0) then None
             else if given.exit == None || given.exit == Some(126) || given.exit == Some(127)
              then Some(CheckNotRunnable)
             else Some(BaseContradiction))
  {
  }

  /** Every stage the recipe asks for, in order, as it would go if reached. */
  function Opening(recipe: Recipe, host: Host): seq<Stage> {
    (if recipe.setup != "" then [Ran(SetupStage, recipe.setup, host.setup)] else []) +
    (if recipe.up != "" then [Ready(recipe.up, host.up)] else [])
  }

  function CheckStages(recipe: Recipe, host: Host, n: nat): (stages: seq<Stage>)
    requires n <= |recipe.checks|
    ensures |stages| == n
    ensures forall i | 0 <= i < n ::
              stages[i] == Ran(StackCheck(recipe.checks[i].0), recipe.checks[i].1, host.check(i))
  {
    seq(n, i requires 0 <= i < n => Ran(StackCheck(recipe.checks[i].0), recipe.checks[i].1, host.check(i)))
  }

  function Script(recipe: Recipe, host: Host, probe: bool): seq<Stage> {
    Opening(recipe, host) + if probe then [] else CheckStages(recipe, host, |recipe.checks|)
  }

  predicate AllPassed(stages: seq<Stage>) {
    forall i | 0 <= i < |stages| :: stages[i].failed.None?
  }

  /** `ran` is what happens to a script that stops at its first failure. */
  ghost predicate StopsAtFirstFailure(ran: seq<Stage>, script: seq<Stage>) {
    && ran <= script
    && AllPassed(ran[..if ran == [] then 0 else |ran| - 1])
    && (AllPassed(ran) ==> ran == script)
  }

  /** That determines what ran. */
  lemma StopIsUnique(one: seq<Stage>, two: seq<Stage>, script: seq<Stage>)
    requires StopsAtFirstFailure(one, script) && StopsAtFirstFailure(two, script)
    ensures one == two
  {
  }

  /** What the record keeps of the stage that failed. */
  function Said(stage: Stage): Detail { StageSaid(stage.name, stage.command, stage.exit, stage.tail) }

  /** The zone whose sandbox a failed command ran in, "" when it ran in none. */
  function Hint(rung: Rung): string {
    if rung.ProvenRung? then rung.zone else ""
  }

  /** The rung a stage runs in. */
  function RungOf(host: Host, stage: Stage): Rung {
    if stage.name.SetupStage? then host.setupRung else host.testRung
  }

  /** Whether a recipe with no refusal gets as far as starting its `up`. */
  predicate UpReached(recipe: Recipe, host: Host) {
    recipe.up != "" && (recipe.setup == "" || host.setup.exit == Some(0))
  }

  /** Why the boundary refuses the stages. */
  function Refused(recipe: Recipe, host: Host): seq<string> {
    (if RefusalOf(host.setupRung) != "" then [RefusalOf(host.setupRung)] else []) +
    (if RefusalOf(host.testRung) != "" then [RefusalOf(host.testRung)] else []) +
    (if recipe.unconfirmed != "" && host.setupRung.HostFallback? then [recipe.unconfirmed] else [])
  }

  // --- The record ----------------------------------------------------------

  class Replay {
    const recipe: Recipe
    var stages: seq<Stage>
    /** Whether an `up` group was started, and whether it was found empty
        after the stop; None while it has not been stopped. */
    var started: bool
    var groupGone: Option<bool>
    var failed: Option<Failure>
    var detail: Detail
    var sandbox: string
    var error: string
    var isolation: map<string, string>
    /** Whether the probe ran in place of the stack's checks. */
    var probed: bool
    /** Whether the throwaway worktree exists. */
    var worktree: bool

    constructor (recipe: Recipe)
      ensures this.recipe == recipe && stages == [] && !started && groupGone.None? && failed.None?
      ensures error == "" && !probed && !worktree && detail == NoDetail && sandbox == "" && isolation == map[]
    {
      this.recipe := recipe;
      stages, started, groupGone, failed, detail, sandbox := [], false, None, None, NoDetail, "";
      error, probed, worktree, isolation := "", false, false, map[];
    }

    method Passed(stage: Stage, rung: Rung) returns (ok: bool)
      modifies this`stages, this`failed, this`detail, this`sandbox
      ensures stages == old(stages) + [stage]
      ensures ok <==> stage.failed.None?
      ensures failed == if ok then old(failed) else stage.failed
      ensures detail == if ok then old(detail) else Said(stage)
      ensures sandbox == if ok then old(sandbox) else Hint(rung)
    {
      stages := stages + [stage];
      if stage.failed.None? { return true; }
      failed, detail, sandbox := stage.failed, Said(stage), Hint(rung);
      return false;
    }

    /** The record tells what the stage gave and where it ran. */
    ghost predicate Explained(host: Host, stage: Stage)
      reads this
    {
      detail == Said(stage) && sandbox == Hint(RungOf(host, stage))
    }

    /** setup, then up, until one fails. */
    method OpeningStages(host: Host) returns (ok: bool)
      requires stages == [] && !started && failed.None?
      modifies this`stages, this`failed, this`detail, this`sandbox, this`started
      ensures StopsAtFirstFailure(stages, Opening(recipe, host))
      ensures failed == if stages == [] then None else stages[|stages| - 1].failed
      ensures failed.Some? ==> Explained(host, stages[|stages| - 1])
      ensures ok <==> AllPassed(Opening(recipe, host))
      ensures ok ==> failed.None?
      ensures started <==> UpReached(recipe, host)
    {
      if recipe.setup != "" {
        ok := Passed(Ran(SetupStage, recipe.setup, host.setup), host.setupRung);
        assert stages == Opening(recipe, host)[..1];
        if !ok {
          assert Opening(recipe, host)[0].failed.Some?;
          return;
        }
      }
      if recipe.up != "" {
        started := true;
        ok := Passed(Ready(recipe.up, host.up), host.testRung);
        assert stages == Opening(recipe, host);
        assert AllPassed(stages[..|stages| - 1]) && (stages[|stages| - 1].failed.None? <==> ok);
        return;
      }
      ok := true;
    }

    /** The stack's checks in order, until one fails. */
    method StackChecks(host: Host)
      requires failed.None? && stages == Opening(recipe, host) && AllPassed(stages)
      modifies this`stages, this`failed, this`detail, this`sandbox
      ensures StopsAtFirstFailure(stages, Script(recipe, host, false))
      ensures failed == if stages == [] then None else stages[|stages| - 1].failed
      ensures failed.Some? ==> Explained(host, stages[|stages| - 1])
    {
      var script := Script(recipe, host, false);
      for n := 0 to |recipe.checks|
        invariant stages == Opening(recipe, host) + CheckStages(recipe, host, n)
        invariant AllPassed(stages) && failed.None?
      {
        var ok := Passed(Ran(StackCheck(recipe.checks[n].0), recipe.checks[n].1, host.check(n)), host.testRung);
        assert stages == Opening(recipe, host) + CheckStages(recipe, host, n + 1);
        assert stages == script[..|stages|];
        if !ok {
          assert stages[|stages| - 1].failed.Some?;
          return;
        }
      }
    }

    /** setup, up, every check (or the probe), until one fails. */
    method StagesUntilFailure(host: Host, probe: bool)
      requires stages == [] && !started && failed.None? && !probed
      modifies this`stages, this`failed, this`detail, this`sandbox, this`started, this`probed
      ensures StopsAtFirstFailure(stages, Script(recipe, host, probe))
      ensures failed == if stages == [] then None else stages[|stages| - 1].failed
      ensures failed.Some? ==> Explained(host, stages[|stages| - 1])
      ensures started <==> UpReached(recipe, host)
      ensures probed <==> probe && AllPassed(Opening(recipe, host))
    {
      var ok := OpeningStages(host);
      if !ok {
        assert !AllPassed(stages);
        return;
      }
      assert stages == Opening(recipe, host);
      if probe {
        probed := true;
        return;
      }
      StackChecks(host);
    }

    /** The stages, then the stop of the `up` group whatever happened. */
    method RunStages(host: Host, probe: bool)
      requires stages == [] && !started && failed.None? && groupGone.None? && !probed
      modifies this`stages, this`failed, this`detail, this`sandbox, this`started, this`probed, this`groupGone
      ensures StopsAtFirstFailure(stages, Script(recipe, host, probe))
      ensures failed == if stages == [] then None else stages[|stages| - 1].failed
      ensures failed.Some? ==> Explained(host, stages[|stages| - 1])
      ensures started <==> UpReached(recipe, host)
      ensures probed <==> probe && AllPassed(Opening(recipe, host))
      ensures groupGone == if started then Some(host.groupEmpties) else None
    {
      StagesUntilFailure(host, probe);
      if started { groupGone := Some(host.groupEmpties); }
    }

    /** Run the stages only when both zones hold. */
    method ReplayInRungs(host: Host, probe: bool)
      requires stages == [] && !started && failed.None? && groupGone.None? && !probed
      modifies this`stages, this`failed, this`detail, this`sandbox, this`started, this`probed, this`groupGone,
               this`isolation
      ensures Played(host, probe)
    {
      isolation := map["setup" := Labelled(host.setupRung), "test" := Labelled(host.testRung)];
      var refused := Refused(recipe, host);
      if refused != [] {
        failed, detail := Some(BoundaryRefused), Refusals(refused);
        return;
      }
      RunStages(host, probe);
    }

    /** The whole replay: check out, run, remove the worktree. */
    method ReplayStack(host: Host, probe: bool)
      requires stages == [] && !started && failed.None? && groupGone.None? && !probed && error == "" && !worktree
      modifies this
      ensures Finished(host, probe)
    {
      if !host.resolves {
        error := NOT_RESOLVED;
        return;
      }
      if !host.checksOut {
        error := NOT_CHECKED_OUT;
        return;
      }
      worktree := true;
      ReplayInRungs(host, probe);
      if host.removes {
        worktree := false;
      } else {
        error := WORKTREE_SURVIVED;
      }
    }

    /** Nothing of the recipe ran. */
    ghost predicate Untouched()
      reads this
    {
      stages == [] && failed.None? && !probed && !started && groupGone.None?
    }

    /** What the record says once both zones were proven or refused. */
    ghost predicate Played(host: Host, probe: bool)
      reads this
    {
      && isolation == map["setup" := Labelled(host.setupRung), "test" := Labelled(host.testRung)]
      && if Refused(recipe, host) != [] then
           && stages == [] && failed == Some(BoundaryRefused) && detail == Refusals(Refused(recipe, host))
           && !probed && !started && groupGone.None?
         else
           && StopsAtFirstFailure(stages, Script(recipe, host, probe))
           && failed == (if stages == [] then None else stages[|stages| - 1].failed)
           && (failed.Some? ==> Explained(host, stages[|stages| - 1]))
           && (probed <==> probe && AllPassed(Opening(recipe, host)))
           && (started <==> UpReached(recipe, host))
           && groupGone == if started then Some(host.groupEmpties) else None
    }

    /** What a finished record says, against the recipe and what the machine
        answered: nothing about how the methods above are written. */
    ghost predicate Finished(host: Host, probe: bool)
      reads this
    {
      && error == (if !host.resolves then NOT_RESOLVED
                   else if !host.checksOut then NOT_CHECKED_OUT
                   else if !host.removes then WORKTREE_SURVIVED
                   else "")
      && (worktree <==> host.resolves && host.checksOut && !host.removes)
      && if host.resolves && host.checksOut then Played(host, probe) else Untouched()
    }

    function Record(): ReplayRecord
      reads this
    {
      ReplayRecord(recipe.digest, failed, detail, error, isolation)
    }
  }

  function Labelled(rung: Rung): string {
    if RefusalOf(rung) != "" then RefusalOf(rung) else rung.title
  }

  // --- What a finished replay guarantees its readers -----------------------

  /** The site a probing replay leaves is sound: the checks ran only when
      nothing failed before them, and when they did not run the record says
      why. A clean record therefore means that every check ran. */
  lemma RecordMeansSite(replay: Replay, host: Host, sha: string, run: (string, Check, nat) -> Stage)
    requires replay.Finished(host, true)
    ensures Sound(Site(sha, replay.Record(), replay.probed, run))
    ensures replay.failed.None? && replay.error == "" ==> replay.probed && replay.stages == Opening(replay.recipe, host)
  {
    if host.resolves && host.checksOut && Refused(replay.recipe, host) == [] {
      var script := Script(replay.recipe, host, true);
      assert script == Opening(replay.recipe, host);
      if replay.probed && replay.stages != [] {
        assert replay.stages[|replay.stages| - 1] == script[|replay.stages| - 1];
      }
    }
  }

  /** The stages that ran end in one that passed iff all of them did. */
  lemma LastDecides(ran: seq<Stage>, script: seq<Stage>)
    requires StopsAtFirstFailure(ran, script)
    ensures (ran == [] || ran[|ran| - 1].failed.None?) <==> AllPassed(ran)
  {
    if ran != [] && ran[|ran| - 1].failed.None? {
      var init := ran[..|ran| - 1];
      forall i | 0 <= i < |ran| ensures ran[i].failed.None? {
        if i < |init| { assert init[i] == ran[i]; }
      }
    }
  }

  /** All that ran passed iff the whole script passes. */
  lemma AllRanIff(ran: seq<Stage>, script: seq<Stage>)
    requires StopsAtFirstFailure(ran, script)
    ensures AllPassed(ran) <==> AllPassed(script)
  {
    if AllPassed(script) {
      forall i | 0 <= i < |ran| ensures ran[i].failed.None? {
        assert ran[i] == script[i];
      }
    }
  }

  /** The verdict of a replay of the stack's own checks: it failed nowhere iff
      every stage of the recipe exited 0 and both zones held. */
  lemma CleanIff(replay: Replay, host: Host)
    requires replay.Finished(host, false) && replay.error == ""
    ensures replay.failed.None? <==>
            Refused(replay.recipe, host) == [] && AllPassed(Script(replay.recipe, host, false))
  {
    if Refused(replay.recipe, host) == [] {
      LastDecides(replay.stages, Script(replay.recipe, host, false));
      AllRanIff(replay.stages, Script(replay.recipe, host, false));
    }
  }

  // --- The record by what the machine answered ------------------------------

  /** Both zones held and the commit was checked out. */
  predicate Runs(recipe: Recipe, host: Host) {
    && host.resolves && host.checksOut
    && !(host.setupRung.ProvenRung? && host.setupRung.refusal != "")
    && !(host.testRung.ProvenRung? && host.testRung.refusal != "")
    && !(recipe.unconfirmed != "" && host.setupRung.HostFallback?)
  }

  /** A setup that fails is the only stage: nothing is started or probed. */
  lemma {:induction false} FailedSetupStops(replay: Replay, host: Host, probe: bool)
    requires replay.Finished(host, probe) && Runs(replay.recipe, host)
    requires replay.recipe.setup != "" && host.setup.exit != Some(0)
    ensures replay.failed == Some(SetupFailed(host.setup.exit))
    ensures |replay.stages| == 1 && replay.stages[0].name == SetupStage && replay.stages[0].exit == host.setup.exit
    ensures replay.detail ==
            StageSaid(SetupStage, replay.recipe.setup, host.setup.exit, host.setup.tail)
    ensures replay.sandbox == (if host.setupRung.ProvenRung? then host.setupRung.zone else "")
    ensures !replay.started && !replay.probed && replay.groupGone == None
  {
    var script := Script(replay.recipe, host, probe);
    assert script[0] == Ran(SetupStage, replay.recipe.setup, host.setup);
    StopsAt(replay.stages, script, 0);
  }

  /** An `up` that is not ready stops the replay, and its group is stopped. */
  lemma {:induction false} FailedUpStops(replay: Replay, host: Host, probe: bool)
    requires replay.Finished(host, probe) && Runs(replay.recipe, host)
    requires replay.recipe.setup == "" || host.setup.exit == Some(0)
    requires replay.recipe.up != "" && host.up.exit != Some(0)
    ensures replay.failed == Some(if host.up.exit == None then UpTimeout else UpFailed(host.up.exit.value))
    ensures replay.stages != [] && replay.stages[|replay.stages| - 1].name == UpStage
    ensures replay.detail == StageSaid(UpStage, replay.recipe.up, host.up.exit, host.up.tail)
    ensures replay.sandbox == (if host.testRung.ProvenRung? then host.testRung.zone else "")
    ensures replay.started && !replay.probed && replay.groupGone == Some(host.groupEmpties)
  {
    var script, opening := Script(replay.recipe, host, probe), Opening(replay.recipe, host);
    var k := |opening| - 1;
    assert opening[k] == Ready(replay.recipe.up, host.up) && script[k] == opening[k];
    assert forall i | 0 <= i < k :: script[i] == Ran(SetupStage, replay.recipe.setup, host.setup);
    StopsAt(replay.stages, script, k);
  }

  /** Where a script stops: at its first failing stage. */
  lemma StopsAt(ran: seq<Stage>, script: seq<Stage>, k: nat)
    requires StopsAtFirstFailure(ran, script) && k < |script| && script[k].failed.Some?
    requires forall i | 0 <= i < k :: script[i].failed.None?
    ensures ran == script[..k + 1]
  {
    var cut := script[..k + 1];
    assert cut[k] == script[k] && cut[..k] == script[..k];
    StopIsUnique(ran, cut, script);
  }

  /** A refused boundary says why: each zone's refusal, and that an unconfirmed
      stack would run on the host. */
  lemma RefusedBoundarySays(replay: Replay, host: Host, probe: bool)
    requires replay.Finished(host, probe) && host.resolves && host.checksOut && !Runs(replay.recipe, host)
    ensures replay.failed == Some(BoundaryRefused) && replay.stages == [] && !replay.started && !replay.probed
    ensures replay.detail.Refusals? && replay.detail.why ==
              (if host.setupRung.ProvenRung? && host.setupRung.refusal != "" then [host.setupRung.refusal] else []) +
              (if host.testRung.ProvenRung? && host.testRung.refusal != "" then [host.testRung.refusal] else []) +
              (if replay.recipe.unconfirmed != "" && host.setupRung.HostFallback? then [replay.recipe.unconfirmed]
               else [])
  {
  }

  /** What the record says of the isolation of each zone: its refusal, or its
      label. */
  lemma IsolationSays(replay: Replay, host: Host, probe: bool)
    requires replay.Finished(host, probe) && host.resolves && host.checksOut
    ensures replay.isolation.Keys == {"setup", "test"}
    ensures replay.isolation["setup"] ==
            if host.setupRung.ProvenRung? && host.setupRung.refusal != "" then host.setupRung.refusal
            else host.setupRung.title
    ensures replay.isolation["test"] ==
            if host.testRung.ProvenRung? && host.testRung.refusal != "" then host.testRung.refusal
            else host.testRung.title
  {
  }

  /** With both behind it a probing replay probes, whatever its checks are, and
      any other stops at the first check that does not exit 0. */
  lemma OpenedProbes(replay: Replay, host: Host)
    requires replay.Finished(host, true) && Runs(replay.recipe, host)
    requires (replay.recipe.setup == "" || host.setup.exit == Some(0)) &&
             (replay.recipe.up == "" || host.up.exit == Some(0))
    ensures replay.probed && replay.failed == None
    ensures |replay.stages| ==
            (if replay.recipe.setup != "" then 1 else 0) + (if replay.recipe.up != "" then 1 else 0)
    ensures replay.started == (replay.recipe.up != "")
  {
    var script := Script(replay.recipe, host, true);
    assert script == Opening(replay.recipe, host) && AllPassed(script);
    LastDecides(replay.stages, script);
    AllRanIff(replay.stages, script);
  }

  lemma {:induction false} StopsAtFailingCheck(replay: Replay, host: Host, k: nat)
    requires replay.Finished(host, false) && Runs(replay.recipe, host)
    requires (replay.recipe.setup == "" || host.setup.exit == Some(0)) &&
             (replay.recipe.up == "" || host.up.exit == Some(0))
    requires k < |replay.recipe.checks| && host.check(k).exit != Some(0)
    requires forall i | 0 <= i < k :: host.check(i).exit == Some(0)
    ensures replay.failed == Some(if host.check(k).exit in {None, Some(126), Some(127)} then CheckNotRunnable
                                  else BaseContradiction)
    ensures replay.stages != [] &&
            replay.stages[|replay.stages| - 1].name == StackCheck(replay.recipe.checks[k].0) &&
            replay.stages[|replay.stages| - 1].exit == host.check(k).exit
  {
    RunsAsScripted(replay, host);
    OpeningPasses(replay.recipe, host);
    StopsAtCheck(replay.stages, replay.recipe, host, k);
  }

  lemma RunsAsScripted(replay: Replay, host: Host)
    requires replay.Finished(host, false) && Runs(replay.recipe, host)
    ensures StopsAtFirstFailure(replay.stages, Script(replay.recipe, host, false))
    ensures replay.failed == if replay.stages == [] then None else replay.stages[|replay.stages| - 1].failed
  {
    assert Refused(replay.recipe, host) == [];
  }

  lemma OpeningPasses(recipe: Recipe, host: Host)
    requires recipe.setup == "" || host.setup.exit == Some(0)
    requires recipe.up == "" || host.up.exit == Some(0)
    ensures AllPassed(Opening(recipe, host))
  {
  }

  lemma {:induction false} StopsAtCheck(ran: seq<Stage>, recipe: Recipe, host: Host, k: nat)
    requires StopsAtFirstFailure(ran, Script(recipe, host, false)) && AllPassed(Opening(recipe, host))
    requires k < |recipe.checks| && host.check(k).exit != Some(0)
    requires forall i | 0 <= i < k :: host.check(i).exit == Some(0)
    ensures ran != [] &&
            ran[|ran| - 1] == Ran(StackCheck(recipe.checks[k].0), recipe.checks[k].1, host.check(k))
  {
    ChecksPassUntil(recipe, host, k);
    StopsAt(ran, Script(recipe, host, false), |Opening(recipe, host)| + k);
  }

  lemma {:induction false} ChecksPassUntil(recipe: Recipe, host: Host, k: nat)
    requires AllPassed(Opening(recipe, host)) && k < |recipe.checks|
    requires forall i | 0 <= i < k :: host.check(i).exit == Some(0)
    ensures var script, n := Script(recipe, host, false), |Opening(recipe, host)|;
            && n + k < |script|
            && script[n + k] == Ran(StackCheck(recipe.checks[k].0), recipe.checks[k].1, host.check(k))
            && forall i | 0 <= i < n + k :: script[i].failed.None?
  {
    var opening, checks := Opening(recipe, host), CheckStages(recipe, host, |recipe.checks|);
    assert forall i | 0 <= i < k :: checks[i].failed.None?;
    assert Script(recipe, host, false) == opening + checks;
  }
}
