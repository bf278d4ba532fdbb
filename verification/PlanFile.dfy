/**
 Reading plan.json: everything wrong with a parsed document, and the plan it
 stands for when nothing is.

 Source: kstrl/acceptance/acceptance.py, plan_errors and _parsed; the names a
 check may have are those of kstrl/plan/names.py.
 */
module PlanFile {
  import opened Checks
  import opened Text

  datatype Json =
    | Null | Bool(b: bool) | Num(n: int) | Str(s: string) | Arr(items: seq<Json>) | Obj(fields: map<string, Json>)

  const CHECK_KEYS: set<string> := {"id", "criterion", "argv", "onBase", "heldOut"}
  const COMPONENT_KEYS: set<string> := {"createsApp", "checks"}

  datatype PlanError =
    | NotAPlan | NoComponents
    | UnknownComponent(comp: string) | NotAComponent(comp: string) | CreatesAppNotBool(comp: string)
    | NoChecks(comp: string) | RepeatedId(comp: string, id: string)
    | CheckError(comp: string, index: nat, why: string)

  // --- Names -------------------------------------------------------------------------

  predicate IdStart(c: char) { 'a' <= c <= 'z' || '0' <= c <= '9' }
  predicate IdChar(c: char) { IdStart(c) || c == '.' || c == '_' || c == '-' }

  predicate EndsWith(s: string, suffix: string) {
    |suffix| <= |s| && s[|s| - |suffix|..] == suffix
  }

  predicate DoubleDot(s: string) {
    exists i | 0 <= i < |s| - 1 :: s[i] == '.' && s[i + 1] == '.'
  }

  /** Up to 64 letters, digits and `._-`, the first a letter or digit. */
  predicate PlainName(s: string) {
    0 < |s| <= 64 && IdStart(s[0]) && forall i | 0 <= i < |s| :: IdChar(s[i])
  }

  /** What the id pattern matches: its final `$` lets one newline follow. */
  predicate Matches(id: string) {
    PlainName(id) || (EndsWith(id, "\n") && PlainName(id[..|id| - 1]))
  }

  /** A component id, and so a check id, as the program tests it: the pattern,
      then the three suffix and sequence tests on the whole id. */
  predicate ValidId(id: string) {
    Matches(id) && !DoubleDot(id) && !EndsWith(id, ".") && !EndsWith(id, ".lock")
  }

  /** The rule as it is documented. */
  predicate ObeysIdRule(id: string) {
    PlainName(id) && !DoubleDot(id) && !EndsWith(id, ".") && !EndsWith(id, ".lock")
  }

  /** An accepted id obeys the documented rule iff it does not end in a
      newline, and no id that obeys it is refused. */
  lemma AcceptedIdObeysIff(id: string)
    ensures ObeysIdRule(id) <==> ValidId(id) && !EndsWith(id, "\n")
  {
    assert !IdChar('\n');
    if EndsWith(id, "\n") { assert id[|id| - 1..][0] == '\n'; }
  }

  /** The ids that are accepted and should not be, all of them: a name the
      pattern takes, without "..", and a newline. The two suffix tests never
      see the suffix. */
  lemma NewlineIdsAccepted(name: string)
    ensures ValidId(name + "\n") <==> PlainName(name) && !DoubleDot(name)
    ensures !ObeysIdRule(name + "\n")
  {
    var id := name + "\n";
    assert id[..|id| - 1] == name && id[|id| - 1] == '\n' && !IdChar('\n');
    assert EndsWith(id, "\n");
    if |id| >= 5 { assert id[|id| - 5..][4] == '\n'; }
    if DoubleDot(name) {
      var i :| 0 <= i < |name| - 1 && name[i] == '.' && name[i + 1] == '.';
      assert id[i] == '.' && id[i + 1] == '.';
    }
    if DoubleDot(id) {
      var i :| 0 <= i < |id| - 1 && id[i] == '.' && id[i + 1] == '.';
      assert name[i] == '.' && name[i + 1] == '.';
    }
  }

  lemma NewlineIdHappens()
    ensures ValidId("a\n") && ValidId("a.lock\n") && !ObeysIdRule("a\n") && !ObeysIdRule("a.lock\n")
  {
    assert "a" + "\n" == "a\n" && "a.lock" + "\n" == "a.lock\n";
    NewlineIdsAccepted("a");
    NewlineIdsAccepted("a.lock");
    assert "a.lock"[0] == 'a' && "a.lock"[1] == '.' && "a.lock"[2] == 'l';
  }

  /** No accepted id can be mistaken for a carried label, which holds a colon. */
  lemma ValidIdHasNoColon(id: string)
    requires ValidId(id)
    ensures ':' !in id
  {
    assert !IdChar(':');
    forall i | 0 <= i < |id| ensures id[i] != ':' {
      if !PlainName(id) {
        assert id[i] == if i < |id| - 1 then id[..|id| - 1][i] else id[|id| - 1..][0];
      }
    }
  }

  // --- What a valid document is --------------------------------------------------------

  predicate StringsIn(items: seq<Json>) {
    forall j | j in items :: j.Str? && j.s != ""
  }

  predicate ValidCheck(j: Json) {
    && j.Obj? && j.fields.Keys == CHECK_KEYS
    && j.fields["id"].Str? && ValidId(j.fields["id"].s)
    && j.fields["criterion"].Str? && (exists c | c in j.fields["criterion"].s :: !IsSpace(c))
    && j.fields["argv"].Arr? && j.fields["argv"].items != [] && StringsIn(j.fields["argv"].items)
    && j.fields["onBase"] in {Str("fails"), Str("passes")}
    && j.fields["heldOut"].Bool?
  }

  predicate ValidPart(j: Json) {
    && j.Obj? && j.fields.Keys <= COMPONENT_KEYS
    && ("createsApp" in j.fields ==> j.fields["createsApp"].Bool?)
    && "checks" in j.fields && j.fields["checks"].Arr? && j.fields["checks"].items != []
    && var items := j.fields["checks"].items;
       && (forall i | 0 <= i < |items| :: ValidCheck(items[i]))
       && (forall i, k | 0 <= i < k < |items| :: items[i].fields["id"] != items[k].fields["id"])
  }

  predicate ValidPlan(j: Json, ids: seq<string>) {
    && j.Obj? && j.fields.Keys == {"components"}
    && j.fields["components"].Obj? && j.fields["components"].fields != map[]
    && forall comp | comp in j.fields["components"].fields ::
         comp in ids && ValidPart(j.fields["components"].fields[comp])
  }

  // --- The validators --------------------------------------------------------------------

  method CheckErrors(comp: string, index: nat, j: Json) returns (errors: seq<PlanError>)
    ensures errors == [] <==> ValidCheck(j)
  {
    if !j.Obj? { return [CheckError(comp, index, "must be an object")]; }
    errors := [];
    if j.fields.Keys - CHECK_KEYS != {} { errors := errors + [CheckError(comp, index, "is not a check key")]; }
    if CHECK_KEYS - j.fields.Keys != {} { errors := errors + [CheckError(comp, index, "is required")]; }
    assert errors == [] <==> j.fields.Keys == CHECK_KEYS;
    if errors != [] { return; }
    var f := j.fields;
    if !(f["id"].Str? && ValidId(f["id"].s)) { errors := errors + [CheckError(comp, index, "id")]; }
    if !(f["criterion"].Str? && exists c | c in f["criterion"].s :: !IsSpace(c)) {
      errors := errors + [CheckError(comp, index, "criterion")];
    }
    if !(f["argv"].Arr? && f["argv"].items != [] && StringsIn(f["argv"].items)) {
      errors := errors + [CheckError(comp, index, "argv")];
    }
    if f["onBase"] !in {Str("fails"), Str("passes")} { errors := errors + [CheckError(comp, index, "onBase")]; }
    if !f["heldOut"].Bool? { errors := errors + [CheckError(comp, index, "heldOut")]; }
  }

  /** The id an item offers, if it is an object that has one. */
  function IdOf(j: Json): Option<Json> {
    if j.Obj? && "id" in j.fields then Some(j.fields["id"]) else None
  }

  /** Two items offer one id, a string. */
  predicate Repeats(items: seq<Json>, i: nat, k: nat)
    requires i < k < |items|
  {
    IdOf(items[i]).Some? && IdOf(items[i]) == IdOf(items[k]) && IdOf(items[i]).value.Str?
  }

  method PartErrors(comp: string, j: Json, ids: seq<string>) returns (errors: seq<PlanError>)
    ensures errors == [] <==> comp in ids && ValidPart(j)
  {
    if comp !in ids { return [UnknownComponent(comp)]; }
    if !j.Obj? || !(j.fields.Keys <= COMPONENT_KEYS) { return [NotAComponent(comp)]; }
    errors := [];
    if "createsApp" in j.fields && !j.fields["createsApp"].Bool? { errors := [CreatesAppNotBool(comp)]; }
    if "checks" !in j.fields || !j.fields["checks"].Arr? || j.fields["checks"].items == [] {
      return errors + [NoChecks(comp)];
    }
    var items := j.fields["checks"].items;
    var wrong := ItemErrors(comp, items);
    var repeated := RepeatErrors(comp, items);
    errors := errors + wrong + repeated;
    RepeatsOfValid(items);
  }

  method ItemErrors(comp: string, items: seq<Json>) returns (errors: seq<PlanError>)
    ensures errors == [] <==> forall i | 0 <= i < |items| :: ValidCheck(items[i])
  {
    errors := [];
    for i := 0 to |items|
      invariant errors == [] <==> forall k | 0 <= k < i :: ValidCheck(items[k])
    {
      var more := CheckErrors(comp, i, items[i]);
      errors := errors + more;
    }
  }

  method RepeatErrors(comp: string, items: seq<Json>) returns (errors: seq<PlanError>)
    ensures errors == [] <==> forall i, k | 0 <= i < k < |items| :: !Repeats(items, i, k)
  {
    errors := [];
    for k := 0 to |items|
      invariant errors == [] <==> forall i, n | 0 <= i < n < k :: !Repeats(items, i, n)
    {
      if exists i | 0 <= i < k :: Repeats(items, i, k) {
        errors := errors + [RepeatedId(comp, IdOf(items[k]).value.s)];
      }
    }
  }

  lemma RepeatsOfValid(items: seq<Json>)
    ensures (forall i | 0 <= i < |items| :: ValidCheck(items[i])) ==>
              ((forall i, k | 0 <= i < k < |items| :: !Repeats(items, i, k)) <==>
               (forall i, k | 0 <= i < k < |items| :: items[i].fields["id"] != items[k].fields["id"]))
  {
    if forall i | 0 <= i < |items| :: ValidCheck(items[i]) {
      forall i, k | 0 <= i < k < |items|
        ensures Repeats(items, i, k) <==> items[i].fields["id"] == items[k].fields["id"]
      {
        assert ValidCheck(items[i]) && ValidCheck(items[k]);
      }
    }
  }

  /** The validator accepts exactly the valid documents. */
  method PlanErrors(raw: Json, ids: seq<string>) returns (errors: seq<PlanError>)
    ensures errors == [] <==> ValidPlan(raw, ids)
  {
    if !raw.Obj? || raw.fields.Keys != {"components"} { return [NotAPlan]; }
    if !raw.fields["components"].Obj? || raw.fields["components"].fields == map[] { return [NoComponents]; }
    var parts := raw.fields["components"].fields;
    errors := [];
    var todo := parts.Keys;
    while todo != {}
      invariant todo <= parts.Keys
      invariant errors == [] <==> forall comp | comp in parts && comp !in todo :: comp in ids && ValidPart(parts[comp])
    {
      var comp :| comp in todo;
      var more := PartErrors(comp, parts[comp], ids);
      errors := errors + more;
      todo := todo - {comp};
    }
  }

  // --- The plan a valid document stands for ----------------------------------------------

  /** The digest of a check's entry as written. */
  type EntrySha = Json -> string

  function ParsedArgv(items: seq<Json>): (argv: seq<string>)
    requires StringsIn(items)
    ensures |argv| == |items| && forall i | 0 <= i < |items| :: argv[i] == items[i].s
  {
    seq(|items|, i requires 0 <= i < |items| => items[i].s)
  }

  function ParsedCheck(sha: EntrySha, j: Json): Check
    requires ValidCheck(j)
  {
    Check(j.fields["id"].s, j.fields["criterion"].s, ParsedArgv(j.fields["argv"].items),
          if j.fields["onBase"] == Str("fails") then FailsOnBase else PassesOnBase,
          j.fields["heldOut"].b, sha(j))
  }

  function ParsedPart(sha: EntrySha, j: Json): (part: ComponentPlan)
    requires ValidPart(j)
    ensures |part.checks| == |j.fields["checks"].items|
    ensures forall i | 0 <= i < |part.checks| :: part.checks[i] == ParsedCheck(sha, j.fields["checks"].items[i])
  {
    var items := j.fields["checks"].items;
    ComponentPlan("createsApp" in j.fields && j.fields["createsApp"].b,
                  seq(|items|, i requires 0 <= i < |items| => ParsedCheck(sha, items[i])))
  }

  /** What is read of a component: it creates the application iff it says so,
      and a component that does not say does not. */
  lemma ParsedPartSays(sha: EntrySha, j: Json)
    requires ValidPart(j)
    ensures ParsedPart(sha, j).createsApp <==> "createsApp" in j.fields && j.fields["createsApp"] == Bool(true)
    ensures forall i | 0 <= i < |j.fields["checks"].items| ::
              var check, item := ParsedPart(sha, j).checks[i], j.fields["checks"].items[i];
              && item.fields["id"] == Str(check.id) && item.fields["criterion"] == Str(check.criterion)
              && item.fields["onBase"] == Str(if check.onBase == FailsOnBase then "fails" else "passes")
              && item.fields["heldOut"] == Bool(check.heldOut) && check.sha256 == sha(item)
              && item.fields["argv"].Arr? && |item.fields["argv"].items| == |check.argv|
              && forall k | 0 <= k < |check.argv| :: item.fields["argv"].items[k] == Str(check.argv[k])
  {
    var items := j.fields["checks"].items;
    forall i | 0 <= i < |items| ensures ValidCheck(items[i]) {
    }
  }

  function Parsed(sha: EntrySha, raw: Json, ids: seq<string>): map<string, ComponentPlan>
    requires ValidPlan(raw, ids)
  {
    var parts := raw.fields["components"].fields;
    map comp | comp in parts :: ParsedPart(sha, parts[comp])
  }

  /** A check with an accepted id, something to say and something to run. */
  predicate IsSound(check: Check) {
    && ValidId(check.id) && Strip(check.criterion) != ""
    && check.argv != [] && forall i | 0 <= i < |check.argv| :: check.argv[i] != ""
  }

  /** A text strips to nothing iff it is all white space. */
  lemma BlankIff(s: string)
    ensures Strip(s) == "" <==> forall c | c in s :: IsSpace(c)
  {
    var before, after := StripIs(s);
    if Strip(s) != "" { assert Strip(s)[0] in s && !IsSpace(Strip(s)[0]); }
  }

  /** What a document that is accepted looks like, key by key. */
  lemma ValidSays(j: Json, ids: seq<string>)
    requires ValidPlan(j, ids)
    ensures j.Obj? && j.fields.Keys == {"components"} && j.fields["components"].Obj?
    ensures forall comp | comp in j.fields["components"].fields ::
              var part := j.fields["components"].fields[comp];
              && comp in ids && part.Obj? && part.fields.Keys <= {"createsApp", "checks"} && "checks" in part.fields
              && ("createsApp" in part.fields ==> part.fields["createsApp"].Bool?)
              && part.fields["checks"].Arr? && part.fields["checks"].items != []
              && forall i | 0 <= i < |part.fields["checks"].items| ::
                   var item := part.fields["checks"].items[i];
                   && item.Obj? && item.fields.Keys == {"id", "criterion", "argv", "onBase", "heldOut"}
                   && item.fields["onBase"] in {Str("fails"), Str("passes")} && item.fields["heldOut"].Bool?
  {
    forall comp | comp in j.fields["components"].fields ensures ValidPart(j.fields["components"].fields[comp]) {
    }
  }

  /** Validation is what the rest of the protocol leans on: the parsed plan has
      components, all of them known, each with checks, no id twice, and every
      check with an accepted id, a criterion and a command. */
  lemma ParsedIsValid(sha: EntrySha, raw: Json, ids: seq<string>)
    requires ValidPlan(raw, ids)
    ensures ValidComponents(Parsed(sha, raw, ids)) && Parsed(sha, raw, ids) != map[]
    ensures forall comp | comp in Parsed(sha, raw, ids) :: comp in ids
    ensures forall comp | comp in Parsed(sha, raw, ids) ::
              forall c | c in Parsed(sha, raw, ids)[comp].checks :: IsSound(c)
  {
    var parts := raw.fields["components"].fields;
    forall comp | comp in parts
      ensures Parsed(sha, raw, ids)[comp].checks != [] && DistinctIds(Parsed(sha, raw, ids)[comp].checks)
      ensures forall c | c in Parsed(sha, raw, ids)[comp].checks :: IsSound(c)
    {
      PartIsValid(sha, parts[comp]);
    }
    var comp :| comp in parts;
    assert comp in Parsed(sha, raw, ids);
  }

  lemma PartIsValid(sha: EntrySha, j: Json)
    requires ValidPart(j)
    ensures ParsedPart(sha, j).checks != [] && DistinctIds(ParsedPart(sha, j).checks)
    ensures forall c | c in ParsedPart(sha, j).checks :: IsSound(c)
  {
    var items := j.fields["checks"].items;
    forall i | 0 <= i < |items|
      ensures IsSound(ParsedPart(sha, j).checks[i])
    {
      assert ValidCheck(items[i]);
      BlankIff(items[i].fields["criterion"].s);
    }
    forall i, k | 0 <= i < k < |items|
      ensures ParsedPart(sha, j).checks[i].id != ParsedPart(sha, j).checks[k].id
    {
      assert ValidCheck(items[i]) && ValidCheck(items[k]) && items[i].fields["id"] != items[k].fields["id"];
    }
  }

  // --- Round trip ------------------------------------------------------------------------

  function Strings(argv: seq<string>): (items: seq<Json>)
    ensures |items| == |argv| && forall i | 0 <= i < |argv| :: items[i] == Str(argv[i])
  {
    seq(|argv|, i requires 0 <= i < |argv| => Str(argv[i]))
  }

  /** A check as plan.json writes it. */
  function Written(check: Check): Json {
    Obj(map["id" := Str(check.id), "criterion" := Str(check.criterion), "argv" := Arr(Strings(check.argv)),
            "onBase" := Str(if check.onBase.FailsOnBase? then "fails" else "passes"),
            "heldOut" := Bool(check.heldOut)])
  }

  function WrittenPart(part: ComponentPlan): Json {
    Obj(map["createsApp" := Bool(part.createsApp),
            "checks" := Arr(seq(|part.checks|, i requires 0 <= i < |part.checks| => Written(part.checks[i])))])
  }

  function WrittenPlan(components: map<string, ComponentPlan>): Json {
    Obj(map["components" := Obj(map comp | comp in components :: WrittenPart(components[comp]))])
  }

  /** A check a plan may hold. */
  predicate WritableCheck(sha: EntrySha, check: Check) {
    && ValidId(check.id) && (exists c | c in check.criterion :: !IsSpace(c))
    && check.argv != [] && (forall i | 0 <= i < |check.argv| :: check.argv[i] != "")
    && check.sha256 == sha(Written(check))
  }

  lemma CheckRoundTrips(sha: EntrySha, check: Check)
    requires WritableCheck(sha, check)
    ensures ValidCheck(Written(check)) && ParsedCheck(sha, Written(check)) == check
  {
    var j := Written(check);
    assert j.fields.Keys == CHECK_KEYS;
    assert ParsedArgv(j.fields["argv"].items) == check.argv;
  }

  lemma PartRoundTrips(sha: EntrySha, part: ComponentPlan)
    requires part.checks != [] && DistinctIds(part.checks)
    requires forall i | 0 <= i < |part.checks| :: WritableCheck(sha, part.checks[i])
    ensures ValidPart(WrittenPart(part)) && ParsedPart(sha, WrittenPart(part)) == part
  {
    var j := WrittenPart(part);
    assert j.fields.Keys == COMPONENT_KEYS;
    forall i | 0 <= i < |part.checks|
      ensures ValidCheck(j.fields["checks"].items[i])
      ensures ParsedCheck(sha, j.fields["checks"].items[i]) == part.checks[i]
    {
      CheckRoundTrips(sha, part.checks[i]);
    }
  }

  /** Every plan of valid components can be written, is accepted, and is read
      back as it was. */
  lemma {:induction false} PlanRoundTrips(sha: EntrySha, components: map<string, ComponentPlan>, ids: seq<string>)
    requires components != map[] && ValidComponents(components) && forall comp | comp in components :: comp in ids
    requires forall comp | comp in components ::
               forall i | 0 <= i < |components[comp].checks| :: WritableCheck(sha, components[comp].checks[i])
    ensures ValidPlan(WrittenPlan(components), ids)
    ensures Parsed(sha, WrittenPlan(components), ids) == components
  {
    var parts := WrittenPlan(components).fields["components"].fields;
    PlanHolds(components);
    forall comp | comp in components
      ensures ValidPart(parts[comp]) && ParsedPart(sha, parts[comp]) == components[comp]
    {
      PartRoundTrips(sha, components[comp]);
    }
    assert Parsed(sha, WrittenPlan(components), ids).Keys == components.Keys;
  }

  lemma PlanHolds(components: map<string, ComponentPlan>)
    ensures var raw := WrittenPlan(components);
            && raw.fields.Keys == {"components"} && raw.fields["components"].Obj?
            && raw.fields["components"].fields.Keys == components.Keys
            && forall comp | comp in components ::
                 raw.fields["components"].fields[comp] == WrittenPart(components[comp])
  {
  }
}
