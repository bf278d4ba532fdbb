/**
 The values the acceptance protocol passes around: exits and their verdicts,
 the checks of a plan, the stages a check leaves behind, and one replayed
 commit seen as an oracle.

 Source: kstrl/acceptance/acceptance.py.
 */
module Checks {

  datatype Option<+T> = None | Some(value: T)

  /** The exit status of one run; None when the run gave none. */
  type Exit = Option<int>

  datatype Verdict = Pass | Fail | NotRun

  /** The exits a shell gives for a command it could not run. */
  const SHELL_COULD_NOT_RUN: set<int> := {126, 127}

  /** How often a head runs each check (owner decision 4 of the source). */
  const HEAD_RUNS: nat := 3

  function VerdictOf(code: Exit): Verdict {
    if code == Some(0) then Pass
    else if code.None? || code.value in SHELL_COULD_NOT_RUN then NotRun
    else Fail
  }

  function HeadVerdict(exits: seq<Exit>): Verdict {
    if exits != [] && forall i | 0 <= i < |exits| :: VerdictOf(exits[i]) == Pass then Pass
    else if exists i | 0 <= i < |exits| :: VerdictOf(exits[i]) == Fail then Fail
    else NotRun
  }

  /** What a head verdict means in terms of the exits alone. A fail outranks a
      run that could not happen, and no run at all is never a pass. */
  lemma HeadVerdictMeaning(exits: seq<Exit>)
    ensures HeadVerdict(exits) == Pass <==> exits != [] && forall e | e in exits :: e == Some(0)
    ensures HeadVerdict(exits) == Fail <==> exists e | e in exits :: e.Some? && e.value !in {0, 126, 127}
    ensures HeadVerdict(exits) == NotRun <==>
              (forall e | e in exits :: e.None? || e.value in {0, 126, 127}) &&
              (exits == [] || exists e | e in exits :: e != Some(0))
  {
    assert forall i | 0 <= i < |exits| :: exits[i] in exits;
    if e :| e in exits && e.Some? && e.value !in {0, 126, 127} {
      var i :| 0 <= i < |exits| && exits[i] == e;
      assert VerdictOf(exits[i]) == Fail;
    }
    if e :| e in exits && e != Some(0) {
      var i :| 0 <= i < |exits| && exits[i] == e;
      assert VerdictOf(exits[i]) != Pass;
    }
  }

  datatype OnBase = FailsOnBase | PassesOnBase

  datatype Check = Check(
    id: string, criterion: string, argv: seq<string>, onBase: OnBase, heldOut: bool, sha256: string)

  datatype ComponentPlan = ComponentPlan(createsApp: bool, checks: seq<Check>)

  datatype PinnedPlan = PinnedPlan(
    digest: string, components: map<string, ComponentPlan>, designed: bool)

  predicate DistinctIds(checks: seq<Check>) {
    forall i, j | 0 <= i < j < |checks| :: checks[i].id != checks[j].id
  }

  /** What plan validation leaves: every component has checks, no id twice. */
  predicate ValidComponents(components: map<string, ComponentPlan>) {
    forall comp | comp in components :: components[comp].checks != [] && DistinctIds(components[comp].checks)
  }

  lemma SameIdSameCheck(checks: seq<Check>, a: Check, b: Check)
    requires DistinctIds(checks) && a in checks && b in checks && a.id == b.id
    ensures a == b
  {
    var i :| 0 <= i < |checks| && checks[i] == a;
    var j :| 0 <= j < |checks| && checks[j] == b;
    assert i == j;
  }

  /** The stage at which a replay failed, in the vocabulary of
      kstrl/project/stack.py. */
  datatype Failure =
    | BoundaryRefused | SetupFailed(given: Exit) | UpFailed(code: int) | UpTimeout
    | CheckNotRunnable | BaseContradiction

  datatype StageName = SetupStage | UpStage | StackCheck(name: string) | AcceptanceCheck(id: string)

  /** One command of a replay: its command line, exit, last lines and the
      failure it is of the replay, if any. */
  datatype Stage = Stage(
    name: StageName, command: string, exit: Exit, tail: seq<string>, failed: Option<Failure>)

  function Exits(stages: seq<Stage>): (exits: seq<Exit>)
    ensures |exits| == |stages| && forall i | 0 <= i < |stages| :: exits[i] == stages[i].exit
  {
    seq(|stages|, i requires 0 <= i < |stages| => stages[i].exit)
  }

  /** What a replay keeps of why it stopped: the refusals of the boundary, or
      the stage that failed and what it gave. */
  datatype Detail =
    | NoDetail
    | Refusals(why: seq<string>)
    | StageSaid(name: StageName, command: string, exit: Exit, tail: seq<string>)

  /** What a replay says of itself once it is over. */
  datatype ReplayRecord = ReplayRecord(
    stackDigest: string, failed: Option<Failure>, detail: Detail, error: string,
    isolation: map<string, string>)

  /** The replay did not reach the recipe at all, so it measured nothing. */
  predicate Unreplayed(record: ReplayRecord) {
    record.error != "" || record.failed == Some(BoundaryRefused)
  }

  /** One commit under replay. `probed` says whether the checks ran there;
      `run(digest, check, n)` is the n-th run of a check from the plan copy
      with that digest. */
  datatype Site = Site(
    sha: string, record: ReplayRecord, probed: bool, run: (string, Check, nat) -> Stage)

  /** What every finished replay guarantees; Replay.RecordMeansSite proves it
      of the stage machine. */
  ghost predicate Sound(site: Site) {
    && (site.probed ==> site.record.failed.None?)
    && (!site.probed ==> site.record.error != "" || site.record.failed.Some?)
  }

  /** A replayed commit on which every run of every check exits alike. */
  function SteadySite(sha: string, exit: int): Site {
    Site(sha, ReplayRecord("", None, NoDetail, "", map[]), true,
         (d, c, n) => Stage(AcceptanceCheck(""), "", Some(exit), [], None))
  }

  type Key = (string, string)
  type Runs = map<Key, seq<Stage>>

  /** `times` runs of one check, in order. */
  function RunsOf(site: Site, digest: string, check: Check, times: nat): (stages: seq<Stage>)
    ensures |stages| == times
    ensures forall n | 0 <= n < times :: stages[n] == site.run(digest, check, n + 1)
  {
    seq(times, n requires 0 <= n < times => site.run(digest, check, n + 1))
  }

  /** A group is a plan digest and the (component, check) pairs run from it. */
  datatype Wanted = Wanted(digest: string, comp: string, check: Check) {
    function Key(): Key { (comp, check.id) }
  }

  /** The checks of one component, from one plan copy. */
  function WantedOf(digest: string, comp: string, checks: seq<Check>): (wanted: seq<Wanted>)
    ensures |wanted| == |checks|
    ensures forall i | 0 <= i < |checks| :: wanted[i] == Wanted(digest, comp, checks[i])
  {
    seq(|checks|, i requires 0 <= i < |checks| => Wanted(digest, comp, checks[i]))
  }

  /** The runs after every wanted check wrote its stages, later ones over
      earlier ones. */
  function Filled(runs: Runs, site: Site, wanted: seq<Wanted>, times: nat): Runs {
    if wanted == [] then runs
    else
      var last := wanted[|wanted| - 1];
      Filled(runs, site, wanted[..|wanted| - 1], times)
        [last.Key() := RunsOf(site, last.digest, last.check, times)]
  }

  /** The dictionary the probes of one replay fill in place. */
  class RunLog {
    var runs: Runs

    constructor ()
      ensures runs == map[]
    {
      runs := map[];
    }

    /** One probe after the other, each into the shared dictionary; nothing is
        filled in when the replay stopped before its checks. */
    method Probe(site: Site, wanted: seq<Wanted>, times: nat)
      modifies this
      ensures runs == if site.probed then Filled(old(runs), site, wanted, times) else old(runs)
    {
      if !site.probed { return; }
      for i := 0 to |wanted|
        invariant runs == Filled(old(runs), site, wanted[..i], times)
      {
        assert wanted[..i + 1][..i] == wanted[..i];
        var item := wanted[i];
        runs := runs[item.Key() := RunsOf(site, item.digest, item.check, times)];
      }
      assert wanted[..|wanted|] == wanted;
    }
  }

  function ProbeRuns(site: Site, wanted: seq<Wanted>, times: nat): Runs {
    if site.probed then Filled(map[], site, wanted, times) else map[]
  }

  function StagesOf(runs: Runs, key: Key): seq<Stage> {
    if key in runs then runs[key] else []
  }

  function FirstExit(runs: Runs, key: Key): Exit {
    var stages := StagesOf(runs, key);
    if stages == [] then None else stages[0].exit
  }

  /** No two wanted checks write under the same key with different runs. */
  predicate Consistent(wanted: seq<Wanted>) {
    forall i, j | 0 <= i < |wanted| && 0 <= j < |wanted| ::
      wanted[i].Key() == wanted[j].Key() ==> wanted[i].digest == wanted[j].digest && wanted[i].check == wanted[j].check
  }

  /** The index of the last wanted check that writes under `key`. */
  function LastWriter(wanted: seq<Wanted>, key: Key): (last: Option<nat>)
    ensures last.Some? <==> exists i | 0 <= i < |wanted| :: wanted[i].Key() == key
    ensures last.Some? ==> last.value < |wanted| && wanted[last.value].Key() == key
    ensures last.Some? ==> forall j | last.value < j < |wanted| :: wanted[j].Key() != key
  {
    if wanted == [] then None
    else if wanted[|wanted| - 1].Key() == key then
      assert wanted[|wanted| - 1].Key() == key;
      Some(|wanted| - 1)
    else
      var rest := LastWriter(wanted[..|wanted| - 1], key);
      assert rest.Some? ==> wanted[..|wanted| - 1][rest.value] == wanted[rest.value];
      assert forall i | 0 <= i < |wanted| - 1 :: wanted[..|wanted| - 1][i] == wanted[i];
      rest
  }

  /** What the dictionary holds under a key, whatever the collisions: the
      stages of the last writer, and nothing else. */
  lemma {:induction false} FilledIsLastWriter(runs: Runs, site: Site, wanted: seq<Wanted>, times: nat, key: Key)
    ensures var last := LastWriter(wanted, key);
            if last.None? then
              (key in Filled(runs, site, wanted, times) <==> key in runs) &&
              StagesOf(Filled(runs, site, wanted, times), key) == StagesOf(runs, key)
            else
              key in Filled(runs, site, wanted, times) &&
              Filled(runs, site, wanted, times)[key] ==
                RunsOf(site, wanted[last.value].digest, wanted[last.value].check, times)
  {
    if wanted != [] {
      var init := wanted[..|wanted| - 1];
      FilledIsLastWriter(runs, site, init, times, key);
      if wanted[|wanted| - 1].Key() != key {
        var last := LastWriter(init, key);
        if last.Some? { assert init[last.value] == wanted[last.value]; }
      }
    }
  }

  /** With consistent keys a probed site holds, for each wanted check, exactly
      that check's own runs; on a site that was not probed it holds none. */
  lemma OwnRuns(site: Site, wanted: seq<Wanted>, times: nat, item: Wanted)
    requires Consistent(wanted) && item in wanted
    ensures StagesOf(ProbeRuns(site, wanted, times), item.Key()) ==
            if site.probed then RunsOf(site, item.digest, item.check, times) else []
  {
    if site.probed {
      var i :| 0 <= i < |wanted| && wanted[i] == item;
      assert wanted[i].Key() == item.Key();
      FilledIsLastWriter(map[], site, wanted, times, item.Key());
      var last := LastWriter(wanted, item.Key());
      assert last.Some?;
      assert wanted[last.value].Key() == wanted[i].Key();
    }
  }

  /** A check passes a site's runs iff every one exited 0; no run is no pass. */
  lemma VerdictOfRuns(site: Site, digest: string, check: Check)
    ensures HeadVerdict(Exits(RunsOf(site, digest, check, HEAD_RUNS))) == Pass <==>
            forall n | 1 <= n <= HEAD_RUNS :: site.run(digest, check, n).exit == Some(0)
    ensures HeadVerdict(Exits([])) == NotRun
  {
    var exits := Exits(RunsOf(site, digest, check, HEAD_RUNS));
    HeadVerdictMeaning(exits);
    if HeadVerdict(exits) == Pass {
      forall n | 1 <= n <= HEAD_RUNS ensures site.run(digest, check, n).exit == Some(0) {
        assert exits[n - 1] in exits;
      }
    }
  }
}
