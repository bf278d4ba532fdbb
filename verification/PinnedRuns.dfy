/**
 Every run is a run of pinned files. The base, head and carried runs of the
 protocol are executions in one trace in which anybody may edit the plan
 directory between any two steps; whatever is judged a pass, or a failure that
 counts, ran from exactly the files that were pinned.

 Sources: kstrl/acceptance/acceptance.py, _run_check and _probe, and resolve of
 kstrl/acceptance/acceptance_carried.py.
 */
module PinnedRuns {
  import opened Checks
  import opened BaseScreening
  import opened HeadRecord
  import opened JudgeHead
  import opened Carried
  import opened Contract
  import opened PlanStore
  import opened CarriedGate
  import opened RunStep

  /** The program's digest, the trace, and what the machine answers. */
  datatype Journal = Journal(digest: Files -> string, trace: seq<Event>, exec: Exec)

  /** The step at which a replay executes run `n` of a wanted check. */
  type Schedule = (Wanted, nat) -> nat

  ghost predicate Trusted(h: Hashes, j: Journal) {
    CollisionFree(h) && IsDigest(h, j.digest)
  }

  /** Run `n` of a wanted check is an execution of the trace, and its stage is
      what that execution gave. */
  ghost predicate IsRun(j: Journal, when: Schedule, site: Site, w: Wanted, n: nat) {
    && when(w, n) < |j.trace| && j.trace[when(w, n)] == Executed(w.digest)
    && site.run(w.digest, w.check, n) == StageFrom(Used(j.digest, j.trace, when(w, n)), w.check, when(w, n), j.exec)
  }

  /** The probe of a site ran each wanted check `times` times in the trace. */
  ghost predicate RanIn(j: Journal, when: Schedule, site: Site, wanted: seq<Wanted>, times: nat) {
    site.probed ==> forall w, n | w in wanted && 1 <= n <= times :: IsRun(j, when, site, w, n)
  }

  /** These files were pinned at some step. */
  ghost predicate WasPinned(j: Journal, files: Files) {
    exists i | 0 <= i < |j.trace| :: j.trace[i] == Pinned(files)
  }

  /** A run of the pinned files, with the exit it gave there. */
  ghost predicate RanPinned(j: Journal, when: Schedule, files: Files, w: Wanted, n: nat, code: int) {
    && when(w, n) < |j.trace| && j.trace[when(w, n)] == Executed(w.digest)
    && Used(j.digest, j.trace, when(w, n)) == Some(files)
    && j.exec(files, w.check, when(w, n)).exit == Some(code)
  }

  /** A run with an exit under a pinned digest is a run of the pinned files. */
  lemma ExitMeansPinned(h: Hashes, j: Journal, when: Schedule, site: Site, w: Wanted, n: nat, files: Files)
    requires Trusted(h, j) && IsRun(j, when, site, w, n)
    requires WasPinned(j, files) && w.digest == j.digest(files)
    requires site.run(w.digest, w.check, n).exit.Some?
    ensures RanPinned(j, when, files, w, n, site.run(w.digest, w.check, n).exit.value)
  {
    var i :| 0 <= i < |j.trace| && j.trace[i] == Pinned(files);
    ExecutesWhatWasPinned(h, j.digest, j.trace, i, when(w, n));
  }

  /** A head that passes on its own ran every kept check, on every run, from
      the files of the plan that was pinned. */
  lemma PassingHeadRanPinned(
    h: Hashes, j: Journal, when: Schedule, files: Files, plan: PinnedPlan, base: BaseReading, comp: string, head: Head,
    check: Check, n: nat)
    requires Trusted(h, j) && WasPinned(j, files) && plan.digest == j.digest(files)
    requires Readable(plan, base, comp) && base.kept[comp].checks != [] && DistinctIds(base.kept[comp].checks)
    requires RanIn(j, when, head.site, WantedOf(plan.digest, comp, base.kept[comp].checks), HEAD_RUNS)
    requires PassedOnItsOwn(plan, base, comp, head) && check in base.kept[comp].checks && 1 <= n <= HEAD_RUNS
    ensures RanPinned(j, when, files, Wanted(plan.digest, comp, check), n, 0)
  {
    PassedIff(plan, base, comp, head);
    var w := Wanted(plan.digest, comp, check);
    IsWanted(plan.digest, comp, base.kept[comp].checks, check);
    assert head.site.run(plan.digest, check, n).exit == Some(0);
    assert IsRun(j, when, head.site, w, n);
    ExitMeansPinned(h, j, when, head.site, w, n, files);
  }

  lemma IsWanted(digest: string, comp: string, checks: seq<Check>, check: Check)
    requires check in checks
    ensures Wanted(digest, comp, check) in WantedOf(digest, comp, checks)
  {
    var i :| 0 <= i < |checks| && checks[i] == check;
    assert WantedOf(digest, comp, checks)[i] == Wanted(digest, comp, check);
  }

  /** On the base, a check that gave an exit gave it in the pinned files: what
      removes a check, refuses a plan or measures a failure is never an edit. */
  lemma BaseExitIsPinned(
    h: Hashes, j: Journal, when: Schedule, files: Files, plan: PinnedPlan, site: Site, exits: BaseExits,
    wanted: seq<Wanted>, comp: string, check: Check)
    requires Trusted(h, j) && WasPinned(j, files) && plan.digest == j.digest(files)
    requires IsReadingOf(exits, site, plan) && comp in plan.components && check in plan.components[comp].checks
    requires (forall w :: w in wanted <==> Planned(plan, w)) && RanIn(j, when, site, wanted, 1)
    requires comp in exits && check.id in exits[comp] && exits[comp][check.id].Some?
    ensures RanPinned(j, when, files, Wanted(plan.digest, comp, check), 1, exits[comp][check.id].value)
  {
    assert IsPartReading(exits[comp], site, plan.digest, plan.components[comp].checks);
    var w := Wanted(plan.digest, comp, check);
    assert Planned(plan, w) && w in wanted;
    assert IsRun(j, when, site, w, 1);
    ExitMeansPinned(h, j, when, site, w, 1, files);
  }

  /** The whole chain for a measured change: the failure on the base and every
      pass on the head are runs of one and the same pinned file map. */
  lemma MeasuredChangeIsPinned(
    h: Hashes, j: Journal, onBase: Schedule, onHead: Schedule, files: Files, plan: PinnedPlan, site: Site,
    base: BaseReading, wanted: seq<Wanted>, comp: string, head: Head, check: Check) returns (code: int)
    requires Trusted(h, j) && WasPinned(j, files) && plan.digest == j.digest(files)
    requires ValidComponents(plan.components) && IsBaseReading(base, site, plan) &&
             Accepts(plan, site.record, base.exits)
    requires comp in base.kept && !plan.components[comp].createsApp && Readable(plan, base, comp)
    requires (forall w :: w in wanted <==> Planned(plan, w)) && RanIn(j, onBase, site, wanted, 1)
    requires RanIn(j, onHead, head.site, WantedOf(plan.digest, comp, base.kept[comp].checks), HEAD_RUNS)
    requires PassedOnItsOwn(plan, base, comp, head) && check in base.kept[comp].checks && check.onBase.FailsOnBase?
    ensures code !in {0, 126, 127} && RanPinned(j, onBase, files, Wanted(plan.digest, comp, check), 1, code)
    ensures forall n | 1 <= n <= HEAD_RUNS :: RanPinned(j, onHead, files, Wanted(plan.digest, comp, check), n, 0)
  {
    AcceptedBaseIsMeasured(plan, site.record, base.exits, comp, check);
    KeptIsValid(plan, base.exits);
    code := base.exits[comp][check.id].value;
    BaseExitIsPinned(h, j, onBase, files, plan, site, base.exits, wanted, comp, check);
    forall n | 1 <= n <= HEAD_RUNS ensures RanPinned(j, onHead, files, Wanted(plan.digest, comp, check), n, 0) {
      PassingHeadRanPinned(h, j, onHead, files, plan, base, comp, head, check, n);
    }
  }

  /** A carried entry that holds through a run did so in the files pinned under
      its digest, on the base and on every run at every tested commit, whoever
      edited the directory since it was carried. */
  lemma CarriedEntryRanPinned(
    h: Hashes, j: Journal, onBase: Schedule, merged: Schedule, files: Files, run: Run, phase3: Option<bool>,
    entry: Entry, commit: Commit, ids: seq<string>)
    requires Trusted(h, j) && WasPinned(j, files) && entry.planId == j.digest(files)
    requires HoldsThrough(run, phase3, entry) && phase3 == Some(true) && run.phase3.Some?
    requires TestedOn(run.phase3.value, commit, ids)
    requires RanIn(j, onBase, run.gate.base.value, [Resolve(run.gate.copies, entry).value.AsWanted()], 1)
    requires RanIn(j, merged, commit.site, [Resolve(run.gate.copies, entry).value.AsWanted()], HEAD_RUNS)
    ensures RanPinned(j, onBase, files, Resolve(run.gate.copies, entry).value.AsWanted(), 1, 0)
    ensures forall n | 1 <= n <= HEAD_RUNS ::
              RanPinned(j, merged, files, Resolve(run.gate.copies, entry).value.AsWanted(), n, 0)
  {
    var w, site := Resolve(run.gate.copies, entry).value.AsWanted(), commit.site;
    assert w in [w];
    assert EntryHolds(run.gate.copies, site, entry);
    assert IsRun(j, onBase, run.gate.base.value, w, 1);
    ExitMeansPinned(h, j, onBase, run.gate.base.value, w, 1, files);
    forall n | 1 <= n <= HEAD_RUNS ensures RanPinned(j, merged, files, w, n, 0) {
      assert IsRun(j, merged, site, w, n);
      ExitMeansPinned(h, j, merged, site, w, n, files);
    }
  }
}
