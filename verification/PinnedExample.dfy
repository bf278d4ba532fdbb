/**
 The assumptions of PinnedRuns.MeasuredChangeIsPinned can all be met together:
 hashes without a collision, one pinned file map, and a base and a head whose
 runs are executions of it.
 */
module PinnedExample {
  import opened Checks
  import opened BaseScreening
  import opened HeadRecord
  import opened JudgeHead
  import opened PlanStore
  import opened PinnedRuns

  // --- Hashes that never collide ----------------------------------------------------------

  /** A text that tells where it ends. */
  function Quoted(s: string): string {
    if s == "" then ";" else ['x', s[0]] + Quoted(s[1..])
  }

  lemma {:induction false} QuotedTells(a: string, b: string, x: string, y: string)
    requires Quoted(a) + x == Quoted(b) + y
    ensures a == b && x == y
  {
    var one, two := Quoted(a) + x, Quoted(b) + y;
    assert one[0] == (if a == "" then ';' else 'x') && two[0] == (if b == "" then ';' else 'x');
    if a == "" {
      assert one[1..] == x && two[1..] == y;
    } else {
      assert one[1] == a[0] && two[1] == b[0];
      assert one[2..] == Quoted(a[1..]) + x && two[2..] == Quoted(b[1..]) + y;
      QuotedTells(a[1..], b[1..], x, y);
      assert a == [a[0]] + a[1..] && b == [b[0]] + b[1..];
    }
  }

  /** A sign and as many strokes. */
  function Strokes(n: int): string {
    [if n < 0 then '-' else '+'] + seq(if n < 0 then -n else n, i => '1')
  }

  lemma StrokesTell(m: int, n: int)
    requires Strokes(m) == Strokes(n)
    ensures m == n
  {
    assert Strokes(m)[0] == Strokes(n)[0] && |Strokes(m)| == |Strokes(n)|;
  }

  function OfBytes(s: seq<int>): string {
    if s == [] then "" else Quoted(Strokes(s[0])) + OfBytes(s[1..])
  }

  lemma {:induction false} OfBytesTells(a: seq<int>, b: seq<int>)
    requires OfBytes(a) == OfBytes(b)
    ensures a == b
  {
    if a != [] && b != [] {
      QuotedTells(Strokes(a[0]), Strokes(b[0]), OfBytes(a[1..]), OfBytes(b[1..]));
      StrokesTell(a[0], b[0]);
      OfBytesTells(a[1..], b[1..]);
      assert a == [a[0]] + a[1..] && b == [b[0]] + b[1..];
    } else {
      assert a != [] ==> |OfBytes(a)| > 0;
      assert b != [] ==> |OfBytes(b)| > 0;
    }
  }

  function OfRows(rows: seq<PlanStore.Row>): string {
    if rows == [] then ""
    else
      var executable := Quoted(if rows[0].executable then "1" else "0");
      Quoted(rows[0].name) + (Quoted(rows[0].sha) + (executable + OfRows(rows[1..])))
  }

  lemma {:induction false} OfRowsTells(a: seq<PlanStore.Row>, b: seq<PlanStore.Row>)
    requires OfRows(a) == OfRows(b)
    ensures a == b
  {
    if a != [] && b != [] {
      var x, y := Quoted(if a[0].executable then "1" else "0"), Quoted(if b[0].executable then "1" else "0");
      var p, q := x + OfRows(a[1..]), y + OfRows(b[1..]);
      QuotedTells(a[0].name, b[0].name, Quoted(a[0].sha) + p, Quoted(b[0].sha) + q);
      QuotedTells(a[0].sha, b[0].sha, p, q);
      QuotedTells(if a[0].executable then "1" else "0", if b[0].executable then "1" else "0",
                  OfRows(a[1..]), OfRows(b[1..]));
      assert "1"[0] != "0"[0];
      OfRowsTells(a[1..], b[1..]);
      assert a == [a[0]] + a[1..] && b == [b[0]] + b[1..];
    } else {
      assert a != [] ==> |OfRows(a)| > 0;
      assert b != [] ==> |OfRows(b)| > 0;
    }
  }

  function NoHashes(): Hashes { Hashes(s => OfBytes(s), rows => OfRows(rows)) }

  lemma NeverCollide()
    ensures CollisionFree(NoHashes())
  {
    var h := NoHashes();
    forall a, b | h.ofFile(a) == h.ofFile(b) ensures a == b { OfBytesTells(a, b); }
    forall a, b | h.ofRows(a) == h.ofRows(b) ensures a == b { OfRowsTells(a, b); }
  }

  // --- A measured change -------------------------------------------------------------------

  /** Only the first execution fails. */
  function FailsOnce(): Exec {
    (files, check, step) => Stage(AcceptanceCheck(""), "", Some(if step == 1 then 1 else 0), [], None)
  }

  /** One pin, then an execution on the base and three on the head. */
  function PinThenRun(files: Files, id: string): seq<Event> {
    [Pinned(files), Executed(id), Executed(id), Executed(id), Executed(id)]
  }

  lemma PinnedIsUsed(digest: Files -> string, files: Files, k: nat)
    requires 1 <= k <= 4
    ensures Used(digest, PinThenRun(files, digest(files)), k) == Some(files)
  {
    var trace := PinThenRun(files, digest(files));
    assert trace[..0] == [];
    UneditedCopyIsUsed(digest, trace, 0, k);
  }

  function PinnedJournal(digest: Files -> string, files: Files): Journal {
    Journal(digest, PinThenRun(files, digest(files)), FailsOnce())
  }

  function OnBase(): Schedule { (w, n) => 1 }
  function OnHead(): Schedule { (w, n) => n + 1 }

  lemma BaseRan(digest: Files -> string, files: Files, check: Check)
    ensures RanIn(PinnedJournal(digest, files), OnBase(), SteadySite("base", 1),
                  WantedOf(digest(files), "c", [check]), 1)
  {
    PinnedIsUsed(digest, files, 1);
  }

  lemma HeadRan(digest: Files -> string, files: Files, check: Check)
    ensures RanIn(PinnedJournal(digest, files), OnHead(), SteadySite("head", 0),
                  WantedOf(digest(files), "c", [check]), HEAD_RUNS)
  {
    PinnedIsUsed(digest, files, 2);
    PinnedIsUsed(digest, files, 3);
    PinnedIsUsed(digest, files, 4);
  }

  lemma OneIsPlanned(digest: string, check: Check)
    ensures forall w :: w in WantedOf(digest, "c", [check]) <==> Planned(OneCheckPlan(digest, check), w)
  {
    assert WantedOf(digest, "c", [check]) == [Wanted(digest, "c", check)];
  }

  lemma PinnedChangeHappens(check: Check)
    returns (h: Hashes, j: Journal, files: Files, plan: PinnedPlan, site: Site, base: BaseReading,
             wanted: seq<Wanted>, head: Head)
    requires check.onBase.FailsOnBase?
    ensures Trusted(h, j) && WasPinned(j, files) && plan.digest == j.digest(files)
    ensures ValidComponents(plan.components) && IsBaseReading(base, site, plan)
    ensures Accepts(plan, site.record, base.exits)
    ensures "c" in base.kept && !plan.components["c"].createsApp && Readable(plan, base, "c")
    ensures (forall w :: w in wanted <==> Planned(plan, w)) && RanIn(j, OnBase(), site, wanted, 1)
    ensures RanIn(j, OnHead(), head.site, WantedOf(plan.digest, "c", base.kept["c"].checks), HEAD_RUNS)
    ensures PassedOnItsOwn(plan, base, "c", head) && check in base.kept["c"].checks
  {
    h, files := NoHashes(), map[];
    NeverCollide();
    var digest := (f: Files) => DigestOf(h, f);
    j := PinnedJournal(digest, files);
    assert j.trace[0] == Pinned(files);
    plan, site, base, head := MeasuredChangeHappens(digest(files), check);
    wanted := WantedOf(digest(files), "c", [check]);
    OneIsPlanned(digest(files), check);
    BaseRan(digest, files, check);
    HeadRan(digest, files, check);
  }
}
