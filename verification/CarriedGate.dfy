/**
 The gate of the carried checks, exactly: when a run may start, and what it
 takes for the gate to mean what it says although entries of the ledger are
 told apart by twelve characters of a plan's digest.

 Source: kstrl/acceptance/acceptance_carried.py.
 */
module CarriedGate {
  import opened Checks
  import opened Collisions
  import opened BaseScreening
  import opened Carried
  import opened Lines

  /** No two entries share a key: 12 digest characters tell the plans apart. */
  predicate LabelsDistinct(entries: seq<Entry>) {
    forall i, j | 0 <= i < j < |entries| :: entries[i].Key() != entries[j].Key()
  }

  lemma SameKeySameEntry(entries: seq<Entry>, a: Entry, b: Entry)
    requires LabelsDistinct(entries) && a in entries && b in entries && a.Key() == b.Key()
    ensures a == b
  {
    var i :| 0 <= i < |entries| && entries[i] == a;
    var j :| 0 <= j < |entries| && entries[j] == b;
    assert i == j;
  }

  lemma WantedAllMembers(carried: seq<CarriedCheck>, w: Wanted)
    ensures w in WantedAll(carried) <==> exists c | c in carried :: c.AsWanted() == w
  {
    if c :| c in carried && c.AsWanted() == w {
      var i :| 0 <= i < |carried| && carried[i] == c;
      assert WantedAll(carried)[i] == w;
    }
  }

  /** Carried checks that stand for entries of one ledger do not collide. */
  lemma CarriedIsConsistent(copies: Copies, entries: seq<Entry>, carried: seq<CarriedCheck>)
    requires LabelsDistinct(entries)
    requires forall c | c in carried :: c.entry in entries && Resolve(copies, c.entry) == Some(c)
    ensures Consistent(WantedAll(carried))
  {
    var wanted := WantedAll(carried);
    forall i, j | 0 <= i < |wanted| && 0 <= j < |wanted| && wanted[i].Key() == wanted[j].Key()
      ensures wanted[i].digest == wanted[j].digest && wanted[i].check == wanted[j].check
    {
      assert carried[i] in carried && carried[j] in carried;
      assert wanted[i].Key() == carried[i].entry.Key() && wanted[j].Key() == carried[j].entry.Key();
      SameKeySameEntry(entries, carried[i].entry, carried[j].entry);
    }
  }

  /** An entry passes a site on its own: it resolves, the checks ran there and
      its own first run exited 0. */
  ghost predicate PassesAlone(copies: Copies, site: Site, entry: Entry) {
    && Resolve(copies, entry).Some?
    && site.probed
    && site.run(entry.planId, Resolve(copies, entry).value.check, 1).exit == Some(0)
  }

  lemma {:induction false} PassedIsResolved(copies: Copies, runs: Runs, entries: seq<Entry>, c: CarriedCheck)
    ensures c in PassedOnBase(copies, runs, entries) <==>
            c.entry in entries && EntryPasses(copies, runs, c.entry) && Resolve(copies, c.entry) == Some(c)
  {
    if entries != [] {
      PassedIsResolved(copies, runs, entries[..|entries| - 1], c);
      assert entries == entries[..|entries| - 1] + [entries[|entries| - 1]];
    }
  }

  // --- What the dictionary makes of the entries ------------------------------------------

  /** The checks the gate runs for these entries, in order. */
  function EntryWanted(copies: Copies, entries: seq<Entry>): seq<Wanted> {
    WantedAll(Runnable(copies, entries))
  }

  lemma EntryWantedMembers(copies: Copies, entries: seq<Entry>, w: Wanted)
    ensures w in EntryWanted(copies, entries) <==>
            exists e | e in entries :: Resolve(copies, e).Some? && Resolve(copies, e).value.AsWanted() == w
  {
    WantedAllMembers(Runnable(copies, entries), w);
    if e :| e in entries && Resolve(copies, e).Some? && Resolve(copies, e).value.AsWanted() == w {
      assert Resolve(copies, e).value in Runnable(copies, entries);
    }
  }

  lemma FirstExitJudges(site: Site, wanted: seq<Wanted>, w: Wanted)
    requires w in wanted
    ensures VerdictOf(FirstExit(ProbeRuns(site, wanted, 1), w.Key())) == Pass <==> JudgedPass(site, wanted, 1, w)
  {
    if site.probed {
      var i :| 0 <= i < |wanted| && wanted[i] == w;
      assert wanted[i].Key() == w.Key();
      FilledIsLastWriter(map[], site, wanted, 1, w.Key());
    }
  }

  lemma EntryIsJudged(copies: Copies, site: Site, entries: seq<Entry>, entry: Entry)
    requires entry in entries && Resolve(copies, entry).Some?
    ensures var wanted, w := EntryWanted(copies, entries), Resolve(copies, entry).value.AsWanted();
            && w in wanted && w.Key() == entry.Key()
            && (EntryPasses(copies, BaseRuns(copies, site, entries), entry) <==> JudgedPass(site, wanted, 1, w))
            && (PassesAlone(copies, site, entry) <==> site.probed && AllZero(site, w, 1))
  {
    var w := Resolve(copies, entry).value.AsWanted();
    EntryWantedMembers(copies, entries, w);
    FirstExitJudges(site, EntryWanted(copies, entries), w);
  }

  lemma AllEntriesAreJudged(copies: Copies, site: Site, entries: seq<Entry>)
    requires entries != [] && forall e | e in entries :: Resolve(copies, e).Some?
    ensures EntryWanted(copies, entries) != []
    ensures (forall e | e in entries :: EntryPasses(copies, BaseRuns(copies, site, entries), e)) <==>
            AllJudgedPass(site, EntryWanted(copies, entries), 1)
    ensures (forall e | e in entries :: PassesAlone(copies, site, e)) <==>
            AllPass(site, EntryWanted(copies, entries), 1)
  {
    var wanted := EntryWanted(copies, entries);
    forall e | e in entries
      ensures var w := Resolve(copies, e).value.AsWanted();
              && w in wanted
              && (EntryPasses(copies, BaseRuns(copies, site, entries), e) <==> JudgedPass(site, wanted, 1, w))
              && (PassesAlone(copies, site, e) <==> site.probed && AllZero(site, w, 1))
    {
      EntryIsJudged(copies, site, entries, e);
    }
    assert entries[0] in entries;
    forall w | w in wanted ensures exists e | e in entries :: Resolve(copies, e).value.AsWanted() == w {
      EntryWantedMembers(copies, entries, w);
    }
  }

  // --- The gate ---------------------------------------------------------------------------

  /** What the gate asks of a base and a ledger: every entry nobody retired
      resolves and passes on this base. */
  ghost predicate Opens(doc: Doc, env: GateEnv) {
    var left := Survivors(doc.checks, env.approved);
    && env.readable
    && (left == doc.checks || env.writes)
    && (left == [] ||
        (&& env.base.Some? && env.evidenceWrites && !Unreplayed(env.base.value.record)
         && forall e | e in left :: PassesAlone(env.copies, env.base.value, e)))
  }

  /** The ledger tells its entries apart as far as the gate needs it: if every
      entry resolves, every check it names is what some key is judged by. It
      can be read from the ledger and the plan copies before the run. */
  predicate LedgerTells(copies: Copies, entries: seq<Entry>) {
    (forall e | e in entries :: Resolve(copies, e).Some?) ==> NoneHidden(EntryWanted(copies, entries))
  }

  /** When the gate opens: every path of it, and the verdicts as the dictionary
      gives them. */
  lemma GateOpensAsJudged(doc: Doc, env: GateEnv)
    requires env.stack.Some?
    ensures var left := Survivors(doc.checks, env.approved);
            GateOf(doc, env).refused == [] <==>
              && env.readable
              && (left == doc.checks || env.writes)
              && (left == [] ||
                  (&& env.base.Some? && env.evidenceWrites && !Unreplayed(env.base.value.record)
                   && forall e | e in left ::
                        EntryPasses(env.copies, BaseRuns(env.copies, env.base.value, left), e)))
  {
    var left := Survivors(doc.checks, env.approved);
    assert |left| == |doc.checks| <==> left == doc.checks;
    if env.base.Some? {
      var runs := BaseRuns(env.copies, env.base.value, left);
      var refused := RefusedOnBase(env.copies, runs, left, env.stack.value);
      assert refused == [] <==> forall e | e in left :: EntryPasses(env.copies, runs, e);
    }
  }

  /** When the gate opens, exactly. */
  lemma GateOpensIff(doc: Doc, env: GateEnv)
    requires env.stack.Some? && LedgerTells(env.copies, Survivors(doc.checks, env.approved))
    ensures GateOf(doc, env).refused == [] <==> Opens(doc, env)
  {
    var left := Survivors(doc.checks, env.approved);
    GateOpensAsJudged(doc, env);
    if env.base.Some? && left != [] && forall e | e in left :: Resolve(env.copies, e).Some? {
      AllEntriesAreJudged(env.copies, env.base.value, left);
      JudgedRightly(env.base.value, EntryWanted(env.copies, left), 1);
    }
  }

  /** The exact condition: on every base the gate opens iff every entry nobody
      retired passes there, iff the ledger tells those entries apart. */
  lemma GateIsExactIff(doc: Doc, env: GateEnv)
    requires env.stack.Some? && env.readable && env.evidenceWrites
    requires Survivors(doc.checks, env.approved) == doc.checks || env.writes
    ensures (forall site: Site ::
               GateOf(doc, env.(base := Some(site))).refused == [] <==> Opens(doc, env.(base := Some(site)))) <==>
            LedgerTells(env.copies, Survivors(doc.checks, env.approved))
  {
    var left := Survivors(doc.checks, env.approved);
    if LedgerTells(env.copies, left) {
      forall site: Site
        ensures GateOf(doc, env.(base := Some(site))).refused == [] <==> Opens(doc, env.(base := Some(site)))
      {
        GateOpensIff(doc, env.(base := Some(site)));
      }
    } else {
      var site, entry := CollisionOpensTheGate(doc, env);
      assert entry in left && !PassesAlone(env.copies, site, entry);
      assert !Opens(doc, env.(base := Some(site)));
    }
  }

  /** Whenever the ledger does not tell its entries apart, some base opens the
      gate although the check of an entry fails there. */
  lemma CollisionOpensTheGate(doc: Doc, env: GateEnv) returns (site: Site, entry: Entry)
    requires env.stack.Some? && env.readable && env.evidenceWrites
    requires Survivors(doc.checks, env.approved) == doc.checks || env.writes
    requires !LedgerTells(env.copies, Survivors(doc.checks, env.approved))
    ensures Sound(site) && !Unreplayed(site.record)
    ensures GateOf(doc, env.(base := Some(site))).refused == []
    ensures entry in Survivors(doc.checks, env.approved) && !PassesAlone(env.copies, site, entry)
  {
    var left := Survivors(doc.checks, env.approved);
    var wanted := EntryWanted(env.copies, left);
    var hidden :| hidden in wanted && !Unhidden(wanted, hidden);
    EntryWantedMembers(env.copies, left, hidden);
    entry :| entry in left && Resolve(env.copies, entry).Some? && Resolve(env.copies, entry).value.AsWanted() == hidden;
    site := FailsOnly(hidden);
    HiddenFailurePasses(wanted, 1, hidden);
    AllEntriesAreJudged(env.copies, site, left);
    assert forall e | e in left :: EntryPasses(env.copies, BaseRuns(env.copies, site, left), e);
    EntryIsJudged(env.copies, site, left, entry);
    GateOpensAsJudged(doc, env.(base := Some(site)));
  }

  /** Distinct labels are enough, and needed for nothing more. */
  lemma DistinctLabelsTell(copies: Copies, entries: seq<Entry>)
    requires LabelsDistinct(entries)
    ensures LedgerTells(copies, entries)
  {
    CarriedIsConsistent(copies, entries, Runnable(copies, entries));
    ConsistentHidesNone(EntryWanted(copies, entries));
  }

  /** What the gate leaves in the ledger: an entry goes iff an approved item
      names it and the ledger was read under a stack and could be written. */
  lemma AfterGateSays(doc: Doc, env: GateEnv, entry: Entry)
    ensures entry in AfterGate(doc, env).checks <==>
            entry in doc.checks &&
            !(env.readable && env.stack.Some? && env.writes &&
              exists item | item in env.approved :: item.names == entry.Identity())
  {
    RetireExactly(doc.checks, env.approved, env.runId, entry);
  }

  // --- One entry ----------------------------------------------------------------------------

  lemma LabelTellsComponent(planId: string, one: string, two: string)
    requires LabelOf(planId, one) == LabelOf(planId, two)
    ensures one == two
  {
    var start := |"carried:" + Prefix(planId, 12) + "/"|;
    assert LabelOf(planId, one)[start..] == one && LabelOf(planId, two)[start..] == two;
  }

  /** The check that stands under an entry's key on the base. */
  function JudgeOf(copies: Copies, entries: seq<Entry>, entry: Entry): Option<Wanted> {
    var wanted := EntryWanted(copies, entries);
    match LastWriter(wanted, entry.Key())
    case None => None
    case Some(k) => Some(wanted[k])
  }

  /** An entry is judged by the last entry with its key, which need not be
      itself. */
  lemma JudgedByLastWriter(copies: Copies, site: Site, entries: seq<Entry>, entry: Entry)
    requires entry in entries && site.probed && Resolve(copies, entry).Some?
    ensures JudgeOf(copies, entries, entry).Some?
    ensures var judge := JudgeOf(copies, entries, entry).value;
            EntryPasses(copies, BaseRuns(copies, site, entries), entry) <==>
            site.run(judge.digest, judge.check, 1).exit == Some(0)
  {
    EntryIsJudged(copies, site, entries, entry);
    JudgedByJudge(site, EntryWanted(copies, entries), Resolve(copies, entry).value.AsWanted());
  }

  lemma JudgedByJudge(site: Site, wanted: seq<Wanted>, w: Wanted)
    requires site.probed && w in wanted
    ensures var last := LastWriter(wanted, w.Key());
            && last.Some?
            && (JudgedPass(site, wanted, 1, w) <==>
                site.run(wanted[last.value].digest, wanted[last.value].check, 1).exit == Some(0))
  {
    var k := JudgedByLast(site, wanted, 1, w);
    IsLastWriter(wanted, k, w.Key());
  }

  lemma IsLastWriter(wanted: seq<Wanted>, k: nat, key: Key)
    requires k < |wanted| && IsLast(wanted, k) && wanted[k].Key() == key
    ensures LastWriter(wanted, key) == Some(k)
  {
  }

  /** If that one is of the entry's own plan it is the entry's own check. */
  lemma OwnPlanOwnCheck(copies: Copies, entries: seq<Entry>, entry: Entry)
    requires entry in entries && Resolve(copies, entry).Some?
    requires JudgeOf(copies, entries, entry).Some? && JudgeOf(copies, entries, entry).value.digest == entry.planId
    ensures JudgeOf(copies, entries, entry).value.check == Resolve(copies, entry).value.check
  {
    var wanted, judge := EntryWanted(copies, entries), JudgeOf(copies, entries, entry).value;
    assert judge in wanted;
    EntryWantedMembers(copies, entries, judge);
    var e :| e in entries && Resolve(copies, e).Some? && Resolve(copies, e).value.AsWanted() == judge;
    LabelTellsComponent(entry.planId, e.component, entry.component);
  }

  /** One entry is judged rightly on every base iff the last entry with its key
      is of its own plan. */
  lemma EntryJudgedRightlyIff(copies: Copies, entries: seq<Entry>, entry: Entry)
    requires entry in entries && Resolve(copies, entry).Some?
    ensures (forall site: Site ::
               EntryPasses(copies, BaseRuns(copies, site, entries), entry) <==> PassesAlone(copies, site, entry)) <==>
            JudgeOf(copies, entries, entry).Some? && JudgeOf(copies, entries, entry).value.digest == entry.planId
  {
    var own := Resolve(copies, entry).value.AsWanted();
    JudgedByLastWriter(copies, FailsOnly(own), entries, entry);
    if JudgeOf(copies, entries, entry).value.digest == entry.planId {
      OwnPlanOwnCheck(copies, entries, entry);
      forall site: Site
        ensures EntryPasses(copies, BaseRuns(copies, site, entries), entry) <==> PassesAlone(copies, site, entry)
      {
        EntryIsJudged(copies, site, entries, entry);
        if site.probed { JudgedByLastWriter(copies, site, entries, entry); }
      }
    } else {
      var site := FailsOnly(own);
      assert EntryPasses(copies, BaseRuns(copies, site, entries), entry);
      assert site.run(own.digest, own.check, 1).exit == Some(1);
      assert !PassesAlone(copies, site, entry);
    }
  }

  // --- A collision ----------------------------------------------------------------------------

  const FIRST: Entry := Entry("0123456789ab0", "c", "k", "s", "r", "p")
  const SECOND: Entry := Entry("0123456789ab1", "c", "k", "s", "r", "p")
  const BOTH_HOLD: Check := Check("k", "", ["true"], FailsOnBase, false, "")

  /** Two plan copies with one check each, under digests that share twelve
      characters, and a ledger that names both checks. */
  function CollidingGate(): GateEnv {
    GateEnv(true, Some("s"), [], true, "run", true, None, id => Some(map["c" := ComponentPlan(false, [BOTH_HOLD])]),
        true)
  }

  lemma CollidingShape()
    ensures FIRST.Identity() != SECOND.Identity() && FIRST.Key() == SECOND.Key()
    ensures Survivors([FIRST, SECOND], []) == [FIRST, SECOND]
    ensures EntryWanted(CollidingGate().copies, [FIRST, SECOND]) ==
            [CarriedCheck(FIRST, BOTH_HOLD).AsWanted(), CarriedCheck(SECOND, BOTH_HOLD).AsWanted()]
  {
    var copies, entries := CollidingGate().copies, [FIRST, SECOND];
    assert FIRST.planId[12] != SECOND.planId[12] && FIRST.planId[..12] == SECOND.planId[..12];
    assert entries[..1] == [FIRST] && [FIRST][..0] == [];
    assert Survivors([FIRST], []) == [FIRST];
    assert Runnable(copies, [FIRST]) == [CarriedCheck(FIRST, BOTH_HOLD)];
    assert Runnable(copies, entries) == [CarriedCheck(FIRST, BOTH_HOLD), CarriedCheck(SECOND, BOTH_HOLD)];
  }

  /** The gate opens on a base on which the first entry's check fails. */
  lemma CollisionHappens() returns (site: Site, entry: Entry)
    ensures Sound(site) && !Unreplayed(site.record)
    ensures GateOf(Doc([FIRST, SECOND], []), CollidingGate().(base := Some(site))).refused == []
    ensures entry in [FIRST, SECOND] && !PassesAlone(CollidingGate().copies, site, entry)
  {
    CollidingShape();
    var wanted := EntryWanted(CollidingGate().copies, [FIRST, SECOND]);
    assert wanted[0] in wanted && wanted[1].Key() == wanted[0].Key();
    assert wanted[1].digest != wanted[0].digest;
    assert !Unhidden(wanted, wanted[0]);
    site, entry := CollisionOpensTheGate(Doc([FIRST, SECOND], []), CollidingGate());
  }
}
