/**
 The checks of features that merged earlier: the ledger that keeps them, the
 gate that replays them on every later base, their replay on the merged
 commit, and how they enter and leave.

 Source: kstrl/acceptance/acceptance_carried.py.
 */
module Carried {
  import opened Checks
  import opened BaseScreening
  import opened Lines

  /** The plan copy's digest, the component and the check id. */
  type Identity = (string, string, string)

  datatype Entry = Entry(
    planId: string, component: string, check: string, stackDigest: string, run: string, passedAt: string)
  {
    function Identity(): Identity { (planId, component, check) }

    /** How Phase 3 and the base replay key this entry's runs: 12 characters of
        the digest stand for the plan. */
    function Key(): Key { (LabelOf(planId, component), check) }
  }

  datatype Retired = Retired(
    planId: string, component: string, check: string, item: string, who: string, when: string, run: string)
  {
    function Identity(): Identity { (planId, component, check) }
  }

  /** An approved inbox item that names a carried check. */
  datatype Item = Item(id: string, decidedBy: string, decidedAt: string, names: Identity)

  datatype Doc = Doc(checks: seq<Entry>, retired: seq<Retired>)

  datatype CarriedCheck = CarriedCheck(entry: Entry, check: Check) {
    function AsWanted(): Wanted { Wanted(entry.planId, LabelOf(entry.planId, entry.component), check) }
  }

  function LabelOf(planId: string, comp: string): string {
    "carried:" + Prefix(planId, 12) + "/" + comp
  }

  // --- Retiring what a person approved -----------------------------------------

  /** The approved item that names an identity; the last one wins. */
  function Naming(approved: seq<Item>, id: Identity): (item: Option<Item>)
    ensures item.Some? <==> exists a | a in approved :: a.names == id
    ensures item.Some? ==> exists i | 0 <= i < |approved| ::
              approved[i] == item.value && item.value.names == id &&
               forall j | i < j < |approved| :: approved[j].names != id
  {
    if approved == [] then None
    else
      var init, last := approved[..|approved| - 1], approved[|approved| - 1];
      assert approved == init + [last];
      if last.names == id then
        assert last in approved;
        Some(last)
      else Naming(init, id)
  }

  function Survivors(checks: seq<Entry>, approved: seq<Item>): (kept: seq<Entry>)
    ensures |kept| <= |checks|
    ensures |kept| == |checks| ==> kept == checks
  {
    if checks == [] then []
    else
      var init, last := checks[..|checks| - 1], checks[|checks| - 1];
      assert checks == init + [last];
      Survivors(init, approved) + if Naming(approved, last.Identity()).None? then [last] else []
  }

  function OrUnknown(s: string): string { if s == "" then "unknown" else s }

  function RetiredRow(entry: Entry, item: Item, runId: string): Retired {
    Retired(entry.planId, entry.component, entry.check, item.id, OrUnknown(item.decidedBy), OrUnknown(item.decidedAt),
            runId)
  }

  function NewlyRetired(checks: seq<Entry>, approved: seq<Item>, runId: string): seq<Retired> {
    if checks == [] then []
    else
      var init, last := checks[..|checks| - 1], checks[|checks| - 1];
      assert checks == init + [last];
      var item := Naming(approved, last.Identity());
      NewlyRetired(init, approved, runId) + if item.None? then [] else [RetiredRow(last, item.value, runId)]
  }

  /** An entry survives iff no approved item names it, and each one that is
      named leaves a row saying which item retired it and in which run. */
  lemma {:induction false} RetireExactly(checks: seq<Entry>, approved: seq<Item>, runId: string, entry: Entry)
    ensures entry in Survivors(checks, approved) <==> entry in checks && Naming(approved, entry.Identity()).None?
    ensures entry in checks && Naming(approved, entry.Identity()).Some? ==>
              RetiredRow(entry, Naming(approved, entry.Identity()).value, runId) in
                  NewlyRetired(checks, approved, runId)
  {
    if checks != [] {
      RetireExactly(checks[..|checks| - 1], approved, runId, entry);
      assert checks == checks[..|checks| - 1] + [checks[|checks| - 1]];
    }
  }

  /** What the row of a retired entry says. */
  lemma RetiredRowSays(entry: Entry, item: Item, runId: string)
    ensures var row := RetiredRow(entry, item, runId);
            && row.planId == entry.planId && row.component == entry.component && row.check == entry.check
            && row.item == item.id && row.run == runId
            && row.who == (if item.decidedBy == "" then "unknown" else item.decidedBy)
            && row.when == (if item.decidedAt == "" then "unknown" else item.decidedAt)
  {
  }

  function Retire(doc: Doc, approved: seq<Item>, runId: string): Doc {
    Doc(Survivors(doc.checks, approved), doc.retired + NewlyRetired(doc.checks, approved, runId))
  }

  function Identities(checks: seq<Entry>): (ids: seq<Identity>)
    ensures |ids| == |checks| && forall i | 0 <= i < |checks| :: ids[i] == checks[i].Identity()
  {
    seq(|checks|, i requires 0 <= i < |checks| => checks[i].Identity())
  }

  function RetiredIdentities(rows: seq<Retired>): (ids: seq<Identity>)
    ensures |ids| == |rows| && forall i | 0 <= i < |rows| :: ids[i] == rows[i].Identity()
  {
    seq(|rows|, i requires 0 <= i < |rows| => rows[i].Identity())
  }

  /** How often an identity occurs. */
  function Count(checks: seq<Entry>, id: Identity): nat { multiset(Identities(checks))[id] }
  function CountRetired(rows: seq<Retired>, id: Identity): nat { multiset(RetiredIdentities(rows))[id] }

  lemma CountMore(checks: seq<Entry>, last: Entry, id: Identity)
    ensures Count(checks + [last], id) == Count(checks, id) + if last.Identity() == id then 1 else 0
  {
    assert Identities(checks + [last]) == Identities(checks) + [last.Identity()];
  }

  lemma CountRetiredMore(rows: seq<Retired>, last: Retired, id: Identity)
    ensures CountRetired(rows + [last], id) == CountRetired(rows, id) + if last.Identity() == id then 1 else 0
  {
    assert RetiredIdentities(rows + [last]) == RetiredIdentities(rows) + [last.Identity()];
  }

  lemma {:induction false} RetiringConserves(checks: seq<Entry>, approved: seq<Item>, runId: string, id: Identity)
    ensures Count(Survivors(checks, approved), id) + CountRetired(NewlyRetired(checks, approved, runId), id) ==
            Count(checks, id)
  {
    if checks != [] {
      var init, last := checks[..|checks| - 1], checks[|checks| - 1];
      assert checks == init + [last];
      RetireStep(init, last, approved, runId, id);
      RetiringConserves(init, approved, runId, id);
    } else {
      assert Identities(checks) == [] && RetiredIdentities([]) == [];
    }
  }

  lemma RetireStep(init: seq<Entry>, last: Entry, approved: seq<Item>, runId: string, id: Identity)
    ensures var one := if last.Identity() == id then 1 else 0;
            var named := Naming(approved, last.Identity()).Some?;
            && Count(init + [last], id) == Count(init, id) + one
            && Count(Survivors(init + [last], approved), id) ==
               Count(Survivors(init, approved), id) + (if named then 0 else one)
            && CountRetired(NewlyRetired(init + [last], approved, runId), id) ==
               CountRetired(NewlyRetired(init, approved, runId), id) + (if named then one else 0)
  {
    var all, item := init + [last], Naming(approved, last.Identity());
    assert all[..|all| - 1] == init;
    CountMore(init, last, id);
    if item.None? {
      CountMore(Survivors(init, approved), last, id);
      assert NewlyRetired(all, approved, runId) == NewlyRetired(init, approved, runId);
    } else {
      assert Survivors(all, approved) == Survivors(init, approved);
      CountRetiredMore(NewlyRetired(init, approved, runId), RetiredRow(last, item.value, runId), id);
    }
  }

  /** Nothing is lost and nothing appears: over checks and retired together the
      multiset of identities stays, and retired only grows at its end. */
  lemma RetireConserves(doc: Doc, approved: seq<Item>, runId: string)
    ensures var after := Retire(doc, approved, runId);
            && multiset(Identities(after.checks)) + multiset(RetiredIdentities(after.retired)) ==
               multiset(Identities(doc.checks)) + multiset(RetiredIdentities(doc.retired))
            && doc.retired <= after.retired
  {
    var more := NewlyRetired(doc.checks, approved, runId);
    assert RetiredIdentities(doc.retired + more) == RetiredIdentities(doc.retired) + RetiredIdentities(more);
    var left, moved := multiset(Identities(Survivors(doc.checks, approved))), multiset(RetiredIdentities(more));
    forall id ensures left[id] + moved[id] == multiset(Identities(doc.checks))[id] {
      RetiringConserves(doc.checks, approved, runId, id);
    }
    assert left + moved == multiset(Identities(doc.checks));
  }

  /** The survivors keep their order: they are a subsequence, picked by index. */
  lemma {:induction false} SurvivorsKeepOrder(checks: seq<Entry>, approved: seq<Item>) returns (picks: seq<nat>)
    ensures |picks| == |Survivors(checks, approved)|
    ensures forall i | 0 <= i < |picks| :: picks[i] < |checks| && Survivors(checks, approved)[i] == checks[picks[i]]
    ensures forall i, j | 0 <= i < j < |picks| :: picks[i] < picks[j]
  {
    if checks == [] {
      picks := [];
    } else {
      picks := SurvivorsKeepOrder(checks[..|checks| - 1], approved);
      if Naming(approved, checks[|checks| - 1].Identity()).None? { picks := picks + [|checks| - 1]; }
    }
  }

  // --- Resolving an entry ---------------------------------------------------------

  /** The verified, parsed plan copy under a digest; None when it cannot be
      read or does not have that digest. */
  type Copies = string -> Option<map<string, ComponentPlan>>

  function FirstById(checks: seq<Check>, id: string): (found: Option<Check>)
    ensures found.Some? ==> found.value in checks && found.value.id == id
    ensures found.None? ==> forall c | c in checks :: c.id != id
  {
    if checks == [] then None
    else if checks[0].id == id then Some(checks[0])
    else FirstById(checks[1..], id)
  }

  function Resolve(copies: Copies, entry: Entry): (found: Option<CarriedCheck>)
    ensures found.Some? ==> found.value.entry == entry && found.value.check.id == entry.check
  {
    var copy := copies(entry.planId);
    if copy.None? || entry.component !in copy.value then None
    else
      match FirstById(copy.value[entry.component].checks, entry.check)
      case None => None
      case Some(check) => Some(CarriedCheck(entry, check))
  }

  /** What an entry resolves to: a check of its id in its component of the plan
      copy under its digest, and to nothing only where there is none. */
  lemma ResolveExactly(copies: Copies, entry: Entry)
    ensures Resolve(copies, entry).Some? <==>
            && copies(entry.planId).Some? && entry.component in copies(entry.planId).value
            && exists c | c in copies(entry.planId).value[entry.component].checks :: c.id == entry.check
    ensures Resolve(copies, entry).Some? ==>
              Resolve(copies, entry).value.check in copies(entry.planId).value[entry.component].checks
  {
  }

  function Runnable(copies: Copies, entries: seq<Entry>): (runnable: seq<CarriedCheck>)
    ensures forall c :: c in runnable <==> exists e | e in entries :: Resolve(copies, e) == Some(c)
  {
    if entries == [] then []
    else
      var init, last := entries[..|entries| - 1], entries[|entries| - 1];
      assert entries == init + [last];
      var found := Resolve(copies, last);
      Runnable(copies, init) + if found.None? then [] else [found.value]
  }

  function WantedAll(carried: seq<CarriedCheck>): (wanted: seq<Wanted>)
    ensures |wanted| == |carried| && forall i | 0 <= i < |carried| :: wanted[i] == carried[i].AsWanted()
  {
    seq(|carried|, i requires 0 <= i < |carried| => carried[i].AsWanted())
  }

  // --- The gate on the base -------------------------------------------------------

  datatype GateRefusal =
    | LedgerUnreadable | RetirementNotWritten | BaseUnresolved | CouldNotReplay | NoApprovalRead | BaseReadingNotWritten
    | DoesNotPass(entry: Entry, otherStack: bool)

  /** The checks that passed, and why the run must not start. */
  datatype Gate = Gate(passed: seq<CarriedCheck>, refused: seq<GateRefusal>)

  /** What the machine and the inbox answer while the gate runs. */
  datatype GateEnv = GateEnv(
    readable: bool, stack: Option<string>, approved: seq<Item>, consulted: bool, runId: string, writes: bool,
    base: Option<Site>, copies: Copies, evidenceWrites: bool)

  predicate EntryPasses(copies: Copies, runs: Runs, entry: Entry) {
    Resolve(copies, entry).Some? && VerdictOf(FirstExit(runs, entry.Key())) == Pass
  }

  function PassedOnBase(copies: Copies, runs: Runs, entries: seq<Entry>): (passed: seq<CarriedCheck>)
    ensures |passed| <= |entries|
  {
    if entries == [] then []
    else
      var init, last := entries[..|entries| - 1], entries[|entries| - 1];
      PassedOnBase(copies, runs, init) +
      if EntryPasses(copies, runs, last) then [Resolve(copies, last).value] else []
  }

  function RefusedOnBase(copies: Copies, runs: Runs, entries: seq<Entry>, stack: string): (refused: seq<GateRefusal>)
    ensures refused == [] <==> forall e | e in entries :: EntryPasses(copies, runs, e)
  {
    if entries == [] then []
    else
      var init, last := entries[..|entries| - 1], entries[|entries| - 1];
      assert entries == init + [last];
      RefusedOnBase(copies, runs, init, stack) +
      if EntryPasses(copies, runs, last) then [] else [DoesNotPass(last, last.stackDigest != stack)]
  }

  /** Which refusals the base gives, and whether each says that the stack
      changed. */
  lemma {:induction false} RefusedExactly(
    copies: Copies, runs: Runs, entries: seq<Entry>, stack: string, r: GateRefusal)
    ensures r in RefusedOnBase(copies, runs, entries, stack) <==>
            exists e | e in entries ::
              (Resolve(copies, e) == None || FirstExit(runs, e.Key()) != Some(0)) &&
              r == DoesNotPass(e, e.stackDigest != stack)
  {
    if entries != [] {
      var init, last := entries[..|entries| - 1], entries[|entries| - 1];
      assert entries == init + [last];
      RefusedExactly(copies, runs, init, stack, r);
      assert forall e :: e in entries <==> e in init || e == last;
    }
  }

  method BaseVerdicts(copies: Copies, runs: Runs, record: ReplayRecord, entries: seq<Entry>, stack: string)
    returns (passed: seq<CarriedCheck>, refused: seq<GateRefusal>)
    ensures Unreplayed(record) ==> passed == [] && refused == [CouldNotReplay]
    ensures !Unreplayed(record) ==>
              passed == PassedOnBase(copies, runs, entries) && refused == RefusedOnBase(copies, runs, entries, stack)
  {
    if Unreplayed(record) { return [], [CouldNotReplay]; }
    passed, refused := [], [];
    for i := 0 to |entries|
      invariant passed == PassedOnBase(copies, runs, entries[..i])
      invariant refused == RefusedOnBase(copies, runs, entries[..i], stack)
    {
      assert entries[..i + 1][..i] == entries[..i];
      var found := Resolve(copies, entries[i]);
      if found.Some? && VerdictOf(FirstExit(runs, entries[i].Key())) == Pass {
        passed := passed + [found.value];
      } else {
        refused := refused + [DoesNotPass(entries[i], entries[i].stackDigest != stack)];
      }
    }
    assert entries[..|entries|] == entries;
  }

  function BaseRuns(copies: Copies, site: Site, entries: seq<Entry>): Runs {
    ProbeRuns(site, WantedAll(Runnable(copies, entries)), 1)
  }

  /** The ledger the gate leaves on disk. */
  function AfterGate(doc: Doc, env: GateEnv): Doc {
    if !env.readable || env.stack.None? then doc
    else
      var after := Retire(doc, env.approved, env.runId);
      if |after.checks| == |doc.checks| || !env.writes then doc else after
  }

  /** The gate's answer. */
  function GateOf(doc: Doc, env: GateEnv): Gate {
    if !env.readable then Gate([], [LedgerUnreadable])
    else if env.stack.None? then Gate([], [])
    else
      var survivors := Survivors(doc.checks, env.approved);
      if |survivors| != |doc.checks| && !env.writes then Gate([], [RetirementNotWritten])
      else if survivors == [] then Gate([], [])
      else if env.base.None? then Gate([], [BaseUnresolved])
      else
        var site := env.base.value;
        var runs := BaseRuns(env.copies, site, survivors);
        var said :=
          if Unreplayed(site.record) then Gate([], [CouldNotReplay])
          else Gate(PassedOnBase(env.copies, runs, survivors),
                    RefusedOnBase(env.copies, runs, survivors, env.stack.value));
        Gate(said.passed,
             said.refused +
             (if said.refused != [] && !env.consulted then [NoApprovalRead] else []) +
             (if env.evidenceWrites then [] else [BaseReadingNotWritten]))
  }

  /** Whether the gate asks a base at all: the ledger was read under a stack,
      what was retired was written, and somebody is left. */
  predicate AsksBase(doc: Doc, env: GateEnv) {
    var left := Survivors(doc.checks, env.approved);
    env.readable && env.stack.Some? && (left == doc.checks || env.writes) && left != []
  }

  /** What the base itself says of the entries. */
  function SaidOnBase(doc: Doc, env: GateEnv): seq<GateRefusal>
    requires env.stack.Some? && env.base.Some?
  {
    var left := Survivors(doc.checks, env.approved);
    RefusedOnBase(env.copies, BaseRuns(env.copies, env.base.value, left), left, env.stack.value)
  }

  lemma SaidOnlyOfEntries(doc: Doc, env: GateEnv, r: GateRefusal)
    requires env.stack.Some? && env.base.Some? && r in SaidOnBase(doc, env)
    ensures r.DoesNotPass?
  {
    var left := Survivors(doc.checks, env.approved);
    RefusedExactly(env.copies, BaseRuns(env.copies, env.base.value, left), left, env.stack.value, r);
  }

  /** Which refusals the gate gives, each with its condition. */
  lemma {:induction false} GateRefusalsExactly(doc: Doc, env: GateEnv, r: GateRefusal)
    ensures r in GateOf(doc, env).refused <==>
            match r
            case LedgerUnreadable => !env.readable
            case RetirementNotWritten =>
              env.readable && env.stack.Some? && Survivors(doc.checks, env.approved) != doc.checks && !env.writes
            case BaseUnresolved => AsksBase(doc, env) && env.base == None
            case CouldNotReplay =>
              AsksBase(doc, env) && env.base.Some? &&
              (env.base.value.record.error != "" || env.base.value.record.failed == Some(BoundaryRefused))
            case BaseReadingNotWritten => AsksBase(doc, env) && env.base.Some? && !env.evidenceWrites
            case NoApprovalRead =>
              AsksBase(doc, env) && env.base.Some? && !env.consulted &&
              (env.base.value.record.error != "" || env.base.value.record.failed == Some(BoundaryRefused) ||
               SaidOnBase(doc, env) != [])
            case DoesNotPass(_, _) =>
              AsksBase(doc, env) && env.base.Some? &&
              env.base.value.record.error == "" && env.base.value.record.failed != Some(BoundaryRefused) &&
              r in SaidOnBase(doc, env)
  {
    var left := Survivors(doc.checks, env.approved);
    assert |left| == |doc.checks| <==> left == doc.checks;
    if AsksBase(doc, env) && env.base.Some? {
      AskedGateSays(doc, env, r);
      if r in SaidOnBase(doc, env) { SaidOnlyOfEntries(doc, env, r); }
    } else {
      UnaskedGateSays(doc, env);
    }
  }

  lemma UnaskedGateSays(doc: Doc, env: GateEnv)
    requires !(AsksBase(doc, env) && env.base.Some?)
    ensures GateOf(doc, env).refused ==
            if !env.readable then [LedgerUnreadable]
            else if env.stack.None? then []
            else if Survivors(doc.checks, env.approved) != doc.checks && !env.writes then [RetirementNotWritten]
            else if Survivors(doc.checks, env.approved) == [] then []
            else [BaseUnresolved]
  {
  }

  lemma AskedGateSays(doc: Doc, env: GateEnv, r: GateRefusal)
    requires AsksBase(doc, env) && env.base.Some?
    ensures var record := env.base.value.record;
            var said := if record.error != "" || record.failed == Some(BoundaryRefused) then [CouldNotReplay]
                        else SaidOnBase(doc, env);
            r in GateOf(doc, env).refused <==>
              || r in said
              || (r == NoApprovalRead && said != [] && !env.consulted)
              || (r == BaseReadingNotWritten && !env.evidenceWrites)
  {
  }

  // --- Phase 3: the merged commit ---------------------------------------------------

  datatype PhaseLine =
    | NoCommit | Stopped(error: string, detail: Detail)
    | CheckLine(id: string, comp: string, verdict: Verdict, exits: seq<Exit>)
    | Printed(text: string)

  datatype Replayed = Replayed(accepted: bool, lines: seq<PhaseLine>, heldOut: seq<string>, broken: seq<Entry>)

  /** The checks of the merged components, and of no other. */
  function PlanWanted(plan: PinnedPlan, merged: seq<string>): (wanted: seq<Wanted>)
    ensures forall w :: w in wanted <==> Planned(plan, w) && w.comp in merged
  {
    if merged == [] then []
    else
      var init, last := merged[..|merged| - 1], merged[|merged| - 1];
      assert merged == init + [last];
      var more := if last in plan.components then WantedOf(plan.digest, last, plan.components[last].checks) else [];
      PartWantedMembers(plan, last, more);
      PlanWanted(plan, init) + more
  }

  lemma PartWantedMembers(plan: PinnedPlan, comp: string, wanted: seq<Wanted>)
    requires wanted == if comp in plan.components then WantedOf(plan.digest, comp, plan.components[comp].checks) else []
    ensures forall w :: w in wanted <==> Planned(plan, w) && w.comp == comp
  {
    forall w ensures w in wanted <==> Planned(plan, w) && w.comp == comp {
      if Planned(plan, w) && w.comp == comp {
        var i :| 0 <= i < |plan.components[comp].checks| && plan.components[comp].checks[i] == w.check;
        assert wanted[i] == w;
      }
    }
  }

  function MergedWanted(plan: Option<PinnedPlan>, merged: seq<string>, carried: seq<CarriedCheck>): seq<Wanted> {
    (if plan.None? then [] else PlanWanted(plan.value, merged)) + WantedAll(carried)
  }

  function VerdictIn(runs: Runs, w: Wanted): Verdict {
    HeadVerdict(Exits(StagesOf(runs, w.Key())))
  }

  function PrintedLines(tail: seq<string>): (lines: seq<PhaseLine>)
    ensures |lines| == |tail| && forall i | 0 <= i < |tail| :: lines[i] == Printed(tail[i])
  {
    seq(|tail|, i requires 0 <= i < |tail| => Printed(tail[i]))
  }

  /** What one check that did not pass adds. A held-out one is named by its id
      and exits alone: this evidence is printed. */
  function FailingLine(runs: Runs, w: Wanted): seq<PhaseLine> {
    var stages := StagesOf(runs, w.Key());
    if VerdictIn(runs, w) == Pass then []
    else
      [CheckLine(w.check.id, w.comp, VerdictIn(runs, w), Exits(stages))] +
      if w.check.heldOut || stages == [] then [] else PrintedLines(stages[|stages| - 1].tail)
  }

  function FailingLines(runs: Runs, wanted: seq<Wanted>): seq<PhaseLine> {
    if wanted == [] then []
    else FailingLines(runs, wanted[..|wanted| - 1]) + FailingLine(runs, wanted[|wanted| - 1])
  }

  /** Nothing is listed iff everything passed. */
  lemma {:induction false} NothingListedIff(runs: Runs, wanted: seq<Wanted>)
    ensures FailingLines(runs, wanted) == [] <==> forall w | w in wanted :: VerdictIn(runs, w) == Pass
  {
    if wanted != [] {
      var init, last := wanted[..|wanted| - 1], wanted[|wanted| - 1];
      assert wanted == init + [last];
      NothingListedIff(runs, init);
      assert FailingLine(runs, last) == [] <==> VerdictIn(runs, last) == Pass;
    }
  }

  function FailedHeldOut(runs: Runs, wanted: seq<Wanted>): seq<string> {
    if wanted == [] then []
    else
      var last := wanted[|wanted| - 1];
      FailedHeldOut(runs, wanted[..|wanted| - 1]) +
      if last.check.heldOut && VerdictIn(runs, last) == Fail then [last.check.id] else []
  }

  lemma FailingMore(runs: Runs, wanted: seq<Wanted>, i: nat)
    requires i < |wanted|
    ensures FailingLines(runs, wanted[..i + 1]) == FailingLines(runs, wanted[..i]) + FailingLine(runs, wanted[i])
    ensures FailedHeldOut(runs, wanted[..i + 1]) ==
            FailedHeldOut(runs, wanted[..i]) +
            if wanted[i].check.heldOut && VerdictIn(runs, wanted[i]) == Fail then [wanted[i].check.id] else []
  {
    assert wanted[..i + 1][..i] == wanted[..i];
  }

  /** What a check adds to the evidence: nothing iff it passed; otherwise its
      verdict and exits, and for a visible one what its last run printed. */
  lemma FailingLineSays(runs: Runs, w: Wanted)
    ensures var stages, lines := StagesOf(runs, w.Key()), FailingLine(runs, w);
            && (lines == [] <==> VerdictIn(runs, w) == Pass)
            && (lines != [] ==>
                  && lines[0] == CheckLine(w.check.id, w.comp, VerdictIn(runs, w), Exits(stages))
                  && |lines| == 1 + (if w.check.heldOut || stages == [] then 0 else |stages[|stages| - 1].tail|)
                  && forall i | 1 <= i < |lines| :: lines[i] == Printed(stages[|stages| - 1].tail[i - 1]))
  {
  }

  /** A check passed iff it ran and every run exited 0. */
  lemma PassIsAllZero(runs: Runs, w: Wanted)
    ensures VerdictIn(runs, w) == Pass <==>
            StagesOf(runs, w.Key()) != [] && forall st | st in StagesOf(runs, w.Key()) :: st.exit == Some(0)
  {
    var stages := StagesOf(runs, w.Key());
    var exits := Exits(stages);
    HeadVerdictMeaning(exits);
    forall i | 0 <= i < |stages| ensures exits[i] == stages[i].exit && exits[i] in exits && stages[i] in stages {
    }
  }

  /** Which held-out checks are named as failed. */
  lemma {:induction false} FailedHeldOutExactly(runs: Runs, wanted: seq<Wanted>, id: string)
    ensures id in FailedHeldOut(runs, wanted) <==>
            exists w | w in wanted :: w.check.id == id && w.check.heldOut &&
              exists st | st in StagesOf(runs, w.Key()) :: st.exit.Some? && st.exit.value !in {0, 126, 127}
  {
    if wanted != [] {
      var init, last := wanted[..|wanted| - 1], wanted[|wanted| - 1];
      assert wanted == init + [last];
      FailedHeldOutExactly(runs, init, id);
      FailIsAnExit(runs, last);
      assert forall w :: w in wanted <==> w in init || w == last;
    }
  }

  lemma FailIsAnExit(runs: Runs, w: Wanted)
    ensures VerdictIn(runs, w) == Fail <==>
            exists st | st in StagesOf(runs, w.Key()) :: st.exit.Some? && st.exit.value !in {0, 126, 127}
  {
    var stages := StagesOf(runs, w.Key());
    var exits := Exits(stages);
    HeadVerdictMeaning(exits);
    if st :| st in stages && st.exit.Some? && st.exit.value !in {0, 126, 127} {
      var i :| 0 <= i < |stages| && stages[i] == st;
      assert exits[i] == st.exit && exits[i] in exits;
    }
    if e :| e in exits && e.Some? && e.value !in {0, 126, 127} {
      var i :| 0 <= i < |exits| && exits[i] == e;
      assert stages[i] in stages;
    }
  }

  /** The answer of a round that is not accepted. */
  lemma RefusedRoundSays(
    site: Site, plan: Option<PinnedPlan>, merged: seq<string>, carried: seq<CarriedCheck>)
    requires !ReplayMergedOf(site, true, plan, merged, carried).accepted
    ensures var answer := ReplayMergedOf(site, true, plan, merged, carried);
            var wanted := MergedWanted(plan, merged, carried);
            var runs := ProbeRuns(site, wanted, HEAD_RUNS);
            if site.sha == "" then answer.lines == [NoCommit] && answer.heldOut == [] && answer.broken == []
            else
              && answer.lines ==
                   (if site.record.error != "" then [Stopped(site.record.error, NoDetail)]
                    else if site.record.failed != None then [Stopped("", site.record.detail)] else []) +
                   FailingLines(runs, wanted)
              && answer.heldOut == FailedHeldOut(runs, wanted) && answer.broken == Broken(runs, carried)
  {
  }

  method ListOne(runs: Runs, w: Wanted) returns (lines: seq<PhaseLine>, failed: bool)
    ensures lines == FailingLine(runs, w)
    ensures failed <==> w.check.heldOut && VerdictIn(runs, w) == Fail
  {
    var stages := StagesOf(runs, w.Key());
    var verdict := HeadVerdict(Exits(stages));
    if verdict == Pass { return [], false; }
    lines := [CheckLine(w.check.id, w.comp, verdict, Exits(stages))];
    if !w.check.heldOut && stages != [] { lines := lines + PrintedLines(stages[|stages| - 1].tail); }
    failed := w.check.heldOut && verdict == Fail;
  }

  method ListFailing(runs: Runs, wanted: seq<Wanted>) returns (lines: seq<PhaseLine>, heldOut: seq<string>)
    ensures lines == FailingLines(runs, wanted) && heldOut == FailedHeldOut(runs, wanted)
  {
    lines, heldOut := [], [];
    for i := 0 to |wanted|
      invariant lines == FailingLines(runs, wanted[..i]) && heldOut == FailedHeldOut(runs, wanted[..i])
    {
      FailingMore(runs, wanted, i);
      var more, failed := ListOne(runs, wanted[i]);
      lines := lines + more;
      if failed { heldOut := heldOut + [wanted[i].check.id]; }
    }
    assert wanted[..|wanted|] == wanted;
  }

  /** The entries of the carried checks that did not pass. */
  function Broken(runs: Runs, carried: seq<CarriedCheck>): seq<Entry> {
    if carried == [] then []
    else
      var last := carried[|carried| - 1];
      Broken(runs, carried[..|carried| - 1]) + if VerdictIn(runs, last.AsWanted()) == Pass then [] else [last.entry]
  }

  lemma {:induction false} BrokenExactly(runs: Runs, carried: seq<CarriedCheck>, entry: Entry)
    ensures entry in Broken(runs, carried) <==>
            exists c | c in carried :: c.entry == entry && VerdictIn(runs, c.AsWanted()) != Pass
  {
    if carried != [] {
      var init, last := carried[..|carried| - 1], carried[|carried| - 1];
      assert carried == init + [last];
      BrokenExactly(runs, init, entry);
      assert forall c :: c in carried <==> c in init || c == last;
    }
  }

  function StoppedLine(record: ReplayRecord): seq<PhaseLine> {
    if record.error != "" then [Stopped(record.error, NoDetail)]
    else if record.failed.Some? then [Stopped("", record.detail)]
    else []
  }

  function ReplayMergedOf(
    site: Site, stack: bool, plan: Option<PinnedPlan>, merged: seq<string>, carried: seq<CarriedCheck>): Replayed
  {
    var wanted := MergedWanted(plan, merged, carried);
    if !stack || wanted == [] then Replayed(true, [], [], [])
    else if site.sha == "" then Replayed(false, [NoCommit], [], [])
    else
      var runs := ProbeRuns(site, wanted, HEAD_RUNS);
      var failing := FailingLines(runs, wanted);
      if failing == [] then Replayed(true, [], [], [])
      else Replayed(false, StoppedLine(site.record) + failing, FailedHeldOut(runs, wanted), Broken(runs, carried))
  }

  method ReplayMerged(
    site: Site, stack: bool, plan: Option<PinnedPlan>, merged: seq<string>, carried: seq<CarriedCheck>)
    returns (replayed: Replayed)
    ensures replayed == ReplayMergedOf(site, stack, plan, merged, carried)
  {
    var wanted := MergedWanted(plan, merged, carried);
    if !stack || wanted == [] { return Replayed(true, [], [], []); }
    if site.sha == "" { return Replayed(false, [NoCommit], [], []); }
    var log := new RunLog();
    log.Probe(site, wanted, HEAD_RUNS);
    var failing, heldOut := ListFailing(log.runs, wanted);
    if failing == [] { return Replayed(true, [], [], []); }
    replayed := Replayed(false, StoppedLine(site.record) + failing, heldOut, Broken(log.runs, carried));
  }

  // --- Carrying what passed -----------------------------------------------------------

  /** What carrying reads of a run whose Phase 3 passed. */
  datatype CarryEnv = CarryEnv(
    plan: Option<PinnedPlan>, kept: Option<map<string, ComponentPlan>>, stack: Option<string>,
    hasMerged: string -> bool,
    merged: seq<string>, sha: string, runId: string, readable: bool, writes: bool)

  predicate Carries(env: CarryEnv) {
    env.plan.Some? && env.kept.Some? && env.stack.Some? && env.sha != "" && env.readable
  }

  /** Whether the kept checks of a component are carried. */
  predicate CarriesComponent(env: CarryEnv, comp: string)
    requires Carries(env)
  {
    env.hasMerged(comp) && comp in env.kept.value
  }

  predicate Seen(checks: seq<Entry>, id: Identity) {
    exists e | e in checks :: e.Identity() == id
  }

  function NewEntry(env: CarryEnv, comp: string, check: Check): Entry
    requires Carries(env)
  {
    Entry(env.plan.value.digest, comp, check.id, env.stack.value, env.runId, env.sha)
  }

  function AddedFrom(had: seq<Entry>, env: CarryEnv, comp: string, checks: seq<Check>): (added: seq<Entry>)
    requires Carries(env)
    ensures forall e :: e in added <==>
              exists c | c in checks :: e == NewEntry(env, comp, c) && !Seen(had, e.Identity())
  {
    if checks == [] then []
    else
      var init, last := checks[..|checks| - 1], checks[|checks| - 1];
      assert checks == init + [last];
      AddedFrom(had, env, comp, init) +
      if Seen(had, NewEntry(env, comp, last).Identity()) then [] else [NewEntry(env, comp, last)]
  }

  function Added(had: seq<Entry>, env: CarryEnv, merged: seq<string>): seq<Entry>
    requires Carries(env)
  {
    if merged == [] then []
    else
      var init, last := merged[..|merged| - 1], merged[|merged| - 1];
      Added(had, env, init) +
      if CarriesComponent(env, last) then AddedFrom(had, env, last, env.kept.value[last].checks) else []
  }

  function AfterCarry(doc: Doc, env: CarryEnv): Doc {
    if !Carries(env) || !env.writes then doc
    else doc.(checks := doc.checks + Added(doc.checks, env, env.merged))
  }

  // --- The ledger ----------------------------------------------------------------------

  /** carried.json under the control directory. */
  class Ledger {
    var checks: seq<Entry>
    var retired: seq<Retired>

    constructor ()
      ensures Document() == Doc([], [])
    {
      checks, retired := [], [];
    }

    ghost function Document(): Doc
      reads this
    {
      Doc(checks, retired)
    }

    /** Move every entry an approved item names to `retired`. The file is only
        rewritten when something moved; a failed write leaves it as it was. */
    method RetireApproved(approved: seq<Item>, runId: string, writes: bool) returns (error: bool)
      modifies this
      ensures error <==> |Survivors(old(checks), approved)| != |old(checks)| && !writes
      ensures Document() == if |Survivors(old(checks), approved)| == |old(checks)| || !writes then old(Document())
                            else Retire(old(Document()), approved, runId)
    {
      var kept: seq<Entry>, moved: seq<Retired> := [], [];
      for i := 0 to |checks|
        invariant checks == old(checks) && retired == old(retired)
        invariant kept == Survivors(checks[..i], approved)
        invariant moved == NewlyRetired(checks[..i], approved, runId)
      {
        var entry := checks[i];
        assert checks[..i + 1][..i] == checks[..i];
        var item := Naming(approved, entry.Identity());
        if item.None? {
          kept := kept + [entry];
        } else {
          moved := moved + [RetiredRow(entry, item.value, runId)];
        }
      }
      assert checks[..|checks|] == checks;
      if |kept| == |checks| { return false; }
      if !writes { return true; }
      checks, retired := kept, retired + moved;
      return false;
    }

    /** Replay every entry once on the base, before anything is spent. */
    method CarriedOnBase(env: GateEnv) returns (gate: Gate)
      modifies this
      ensures gate == GateOf(old(Document()), env)
      ensures Document() == AfterGate(old(Document()), env)
    {
      if !env.readable { return Gate([], [LedgerUnreadable]); }
      if env.stack.None? { return Gate([], []); }
      var error := RetireApproved(env.approved, env.runId, env.writes);
      if error { return Gate([], [RetirementNotWritten]); }
      assert checks == Survivors(old(checks), env.approved);
      if checks == [] { return Gate([], []); }
      if env.base.None? { return Gate([], [BaseUnresolved]); }
      var site := env.base.value;
      var log := new RunLog();
      log.Probe(site, WantedAll(Runnable(env.copies, checks)), 1);
      var passed, refused := BaseVerdicts(env.copies, log.runs, site.record, checks, env.stack.value);
      gate := Gate(passed,
                   refused +
                   (if refused != [] && !env.consulted then [NoApprovalRead] else []) +
                   (if env.evidenceWrites then [] else [BaseReadingNotWritten]));
    }

    /** Add the kept checks of the merged components, after Phase 3 passed. */
    method CarryPassed(env: CarryEnv) returns (error: bool)
      modifies this`checks
      ensures Document() == AfterCarry(old(Document()), env)
      ensures error <==>
              if Carries(env) then !env.writes && Added(old(checks), env, env.merged) != []
              else !env.readable && env.plan.Some? && env.kept.Some? && env.stack.Some? && env.sha != ""
    {
      if env.plan.None? || env.kept.None? || env.stack.None? || env.sha == "" { return false; }
      if !env.readable { return true; }
      var seen, added := checks, [];
      for i := 0 to |env.merged|
        invariant checks == old(checks) && seen == checks
        invariant added == Added(seen, env, env.merged[..i])
      {
        assert env.merged[..i + 1][..i] == env.merged[..i];
        var comp := env.merged[i];
        if env.hasMerged(comp) && comp in env.kept.value {
          var kept := env.kept.value[comp].checks;
          var more := [];
          for j := 0 to |kept|
            invariant more == AddedFrom(seen, env, comp, kept[..j])
          {
            assert kept[..j + 1][..j] == kept[..j];
            var entry := NewEntry(env, comp, kept[j]);
            if !Seen(seen, entry.Identity()) { more := more + [entry]; }
          }
          assert kept[..|kept|] == kept;
          added := added + more;
        }
      }
      assert env.merged[..|env.merged|] == env.merged;
      if added == [] {
        assert checks + added == checks;
        return false;
      }
      if !env.writes { return true; }
      checks := checks + added;
      return false;
    }
  }
}
