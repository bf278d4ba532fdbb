/**
 Content addressing: a plan is copied under the digest of its files, every run
 of a check reads that copy again, checks the digest and writes the bytes it
 checked. Whoever edits the directory in between, a check runs from the files
 that were pinned or does not run.

 Source: kstrl/acceptance/acceptance.py, pin_plan to _run_check, and resolve
 of kstrl/acceptance/acceptance_carried.py.
 */
module PlanStore {
  import opened Checks
  import opened Carried
  import opened Text

  /** A file's bytes and whether it is executable, by relative path. */
  type Files = map<string, (seq<int>, bool)>

  datatype Row = Row(name: string, sha: string, executable: bool)

  /** SHA-256 of a file's bytes and of the rows' JSON text. */
  datatype Hashes = Hashes(ofFile: seq<int> -> string, ofRows: seq<Row> -> string)

  ghost predicate CollisionFree(h: Hashes) {
    && (forall a, b :: h.ofFile(a) == h.ofFile(b) ==> a == b)
    && (forall a, b :: h.ofRows(a) == h.ofRows(b) ==> a == b)
  }

  // --- The digest ------------------------------------------------------------------

  predicate Below(a: string, b: string) {
    if b == [] then false
    else if a == [] then true
    else a[0] < b[0] || (a[0] == b[0] && Below(a[1..], b[1..]))
  }

  lemma {:induction false} BelowIsTotal(a: string, b: string)
    ensures a == b || Below(a, b) || Below(b, a)
    ensures !(Below(a, b) && Below(b, a)) && !Below(a, a)
  {
    if a != [] && b != [] {
      BelowIsTotal(a[1..], b[1..]);
      assert a == [a[0]] + a[1..] && b == [b[0]] + b[1..];
    }
    BelowItself(a);
  }

  lemma {:induction false} BelowItself(a: string)
    ensures !Below(a, a)
  {
    if a != [] { BelowItself(a[1..]); }
  }

  lemma {:induction false} BelowIsTransitive(a: string, b: string, c: string)
    requires Below(a, b) && Below(b, c)
    ensures Below(a, c)
  {
    if a != [] && a[0] == b[0] == c[0] { BelowIsTransitive(a[1..], b[1..], c[1..]); }
  }

  ghost predicate IsLeast(names: set<string>, least: string) {
    least in names && forall n | n in names && n != least :: Below(least, n)
  }

  lemma {:induction false} LeastExists(names: set<string>)
    requires names != {}
    ensures exists least :: IsLeast(names, least)
  {
    var some :| some in names;
    if names == {some} {
      assert IsLeast(names, some);
    } else {
      LeastExists(names - {some});
      var rest :| IsLeast(names - {some}, rest);
      BelowIsTotal(some, rest);
      var least := if Below(some, rest) then some else rest;
      forall n | n in names && n != least ensures Below(least, n) {
        if Below(some, rest) && n != rest { BelowIsTransitive(some, rest, n); }
      }
      assert IsLeast(names, least);
    }
  }

  /** The first name in sorted order. */
  ghost function Least(names: set<string>): (least: string)
    requires names != {}
    ensures IsLeast(names, least)
  {
    LeastExists(names);
    var least :| IsLeast(names, least);
    least
  }

  /** One row per file, sorted by name. */
  ghost function Rows(h: Hashes, files: Files): seq<Row>
    decreases |files|
  {
    if files == map[] then []
    else
      var name := Least(files.Keys);
      [Row(name, h.ofFile(files[name].0), files[name].1)] + Rows(h, files - {name})
  }

  lemma {:induction false} RowsExactly(h: Hashes, files: Files, row: Row)
    ensures row in Rows(h, files) <==>
            row.name in files && row.sha == h.ofFile(files[row.name].0) && row.executable == files[row.name].1
    decreases |files|
  {
    if files != map[] {
      var name := Least(files.Keys);
      RowsExactly(h, files - {name}, row);
    }
  }

  /** The rows are the file map, in the one order sorting leaves. */
  lemma {:induction false} RowsAreSorted(h: Hashes, files: Files, i: nat, j: nat)
    requires i < j < |Rows(h, files)|
    ensures Below(Rows(h, files)[i].name, Rows(h, files)[j].name)
    decreases |files|
  {
    var name := Least(files.Keys);
    if i == 0 {
      var row := Rows(h, files)[j];
      assert row == Rows(h, files - {name})[j - 1] && row in Rows(h, files - {name});
      RowsExactly(h, files - {name}, row);
    } else {
      RowsAreSorted(h, files - {name}, i - 1, j - 1);
    }
  }

  ghost function DigestOf(h: Hashes, files: Files): string {
    h.ofRows(Rows(h, files))
  }

  /** A digest names one file map, bytes, names and executable bits alike. */
  lemma DigestIsInjective(h: Hashes, a: Files, b: Files)
    requires CollisionFree(h) && DigestOf(h, a) == DigestOf(h, b)
    ensures a == b
  {
    assert Rows(h, a) == Rows(h, b);
    forall name ensures name in a <==> name in b
                ensures name in a ==> a[name] == b[name]
    {
      if name in a {
        var row := Row(name, h.ofFile(a[name].0), a[name].1);
        RowsExactly(h, a, row);
        RowsExactly(h, b, row);
      }
      if name in b {
        var row := Row(name, h.ofFile(b[name].0), b[name].1);
        RowsExactly(h, b, row);
        RowsExactly(h, a, row);
      }
    }
  }

  // --- The directory -------------------------------------------------------------------

  /** The copies on disk, by the digest they were written under. `digest` is
      the program's own computation of a digest. */
  class ControlDir {
    var copies: map<string, Files>
    const digest: Files -> string

    constructor (digest: Files -> string)
      ensures copies == map[] && this.digest == digest
    {
      copies, this.digest := map[], digest;
    }

    /** The files of a copy, if they still have the digest they are under. */
    method Verified(id: string) returns (files: Option<Files>)
      ensures files == VerifiedIn(digest, copies, id)
    {
      if id !in copies { return None; }
      var found := copies[id];
      if digest(found) != id { return None; }
      return Some(found);
    }

    /** Make the copy once; a copy that is there already must verify. */
    method Copy(files: Files) returns (ok: bool)
      modifies this`copies
      ensures copies == if digest(files) in old(copies) then old(copies) else old(copies)[digest(files) := files]
      ensures ok <==> digest(copies[digest(files)]) == digest(files)
    {
      var id := digest(files);
      if id in copies {
        var found := Verified(id);
        return found.Some?;
      }
      copies := copies[id := files];
      return true;
    }

    /** One run of a check: the bytes verified are the bytes written into its
        working directory, and a copy that does not verify gives no exit. */
    method RunCheck(id: string, check: Check, step: nat, exec: Exec) returns (stage: Stage)
      ensures stage == StageFrom(VerifiedIn(digest, copies, id), check, step, exec)
    {
      var used := Verified(id);
      if used.None? { return Stage(AcceptanceCheck(check.id), Spaced(check.argv), None, [], None); }
      var cwd := WriteFiles(used.value);
      stage := exec(cwd, check, step);
    }
  }

  /** What the machine answers to a check in a directory of these files, at
      this step: the tree it is run against is another matter at each. */
  type Exec = (Files, Check, nat) -> Stage

  /** A run gives what it gives in the files it used, and no exit without. */
  function StageFrom(used: Option<Files>, check: Check, step: nat, exec: Exec): Stage {
    match used
    case None => Stage(AcceptanceCheck(check.id), Spaced(check.argv), None, [], None)
    case Some(files) => exec(files, check, step)
  }

  /** Write every file into a new directory, one at a time. */
  method WriteFiles(files: Files) returns (cwd: Files)
    ensures cwd == files
  {
    cwd := map[];
    var todo := files.Keys;
    while todo != {}
      invariant todo <= files.Keys
      invariant cwd == files - todo
    {
      var name :| name in todo;
      cwd := cwd[name := files[name]];
      todo := todo - {name};
    }
  }

  function VerifiedIn(digest: Files -> string, copies: map<string, Files>, id: string): Option<Files> {
    if id in copies && digest(copies[id]) == id then Some(copies[id]) else None
  }

  // --- Whole traces, with an environment that edits ---------------------------------------

  datatype Event = Pinned(files: Files) | Edited(id: string, left: Option<Files>) | Executed(id: string)

  function Apply(digest: Files -> string, copies: map<string, Files>, event: Event): map<string, Files> {
    match event
    case Pinned(files) => if digest(files) in copies then copies else copies[digest(files) := files]
    case Edited(id, None) => copies - {id}
    case Edited(id, Some(files)) => copies[id := files]
    case Executed(_) => copies
  }

  function OnDisk(digest: Files -> string, trace: seq<Event>): map<string, Files> {
    if trace == [] then map[]
    else Apply(digest, OnDisk(digest, trace[..|trace| - 1]), trace[|trace| - 1])
  }

  /** What an execution at step `n` of a trace runs from. */
  function Used(digest: Files -> string, trace: seq<Event>, n: nat): Option<Files>
    requires n < |trace| && trace[n].Executed?
  {
    VerifiedIn(digest, OnDisk(digest, trace[..n]), trace[n].id)
  }

  ghost predicate IsDigest(h: Hashes, digest: Files -> string) {
    forall files :: digest(files) == DigestOf(h, files)
  }

  /** Over every trace of pins, edits and executions: an execution under the
      digest of a pinned plan uses exactly the files that were pinned, or
      nothing at all and then it is never a pass. */
  lemma ExecutesWhatWasPinned(h: Hashes, digest: Files -> string, trace: seq<Event>, i: nat, n: nat)
    requires CollisionFree(h) && IsDigest(h, digest)
    requires i < |trace| && trace[i].Pinned? && n < |trace| && trace[n] == Executed(digest(trace[i].files))
    ensures Used(digest, trace, n) in {None, Some(trace[i].files)}
  {
    var used := Used(digest, trace, n);
    if used.Some? {
      assert digest(used.value) == digest(trace[i].files);
      DigestIsInjective(h, used.value, trace[i].files);
    }
  }

  /** With no edit of its directory in between, it does run from them. */
  lemma {:induction false} UneditedCopyIsUsed(digest: Files -> string, trace: seq<Event>, i: nat, n: nat)
    requires i < n <= |trace| && trace[i].Pinned? && digest(trace[i].files) !in OnDisk(digest, trace[..i])
    requires forall k | i < k < n && trace[k].Edited? :: trace[k].id != digest(trace[i].files)
    ensures VerifiedIn(digest, OnDisk(digest, trace[..n]), digest(trace[i].files)) == Some(trace[i].files)
  {
    assert trace[..n][..n - 1] == trace[..n - 1];
    if i < n - 1 { UneditedCopyIsUsed(digest, trace, i, n - 1); }
  }

  // --- A carried entry names one check for good --------------------------------------------

  /** The parsed copies a directory holds, as the ledger resolves them. */
  function ParsedCopies(digest: Files -> string, parse: Files -> Option<map<string, ComponentPlan>>,
                        copies: map<string, Files>): Copies {
    id => match VerifiedIn(digest, copies, id) case None => None case Some(files) => parse(files)
  }

  /** Digest, component and check id are the check's identity: whatever happened
      to the directory between two runs, an entry that resolves in both
      resolves to the same check. */
  lemma EntryResolvesTheSame(
    h: Hashes, digest: Files -> string, parse: Files -> Option<map<string, ComponentPlan>>,
    one: map<string, Files>, two: map<string, Files>, entry: Entry)
    requires CollisionFree(h) && IsDigest(h, digest)
    requires Resolve(ParsedCopies(digest, parse, one), entry).Some?
    requires Resolve(ParsedCopies(digest, parse, two), entry).Some?
    ensures Resolve(ParsedCopies(digest, parse, one), entry) == Resolve(ParsedCopies(digest, parse, two), entry)
  {
    var a, b := VerifiedIn(digest, one, entry.planId).value, VerifiedIn(digest, two, entry.planId).value;
    DigestIsInjective(h, a, b);
  }
}
