/**
 The isolation rung is what its canaries could not do. Each canary is tried
 inside the rung and, as its control, outside it; the verdicts decide whether
 the zone holds.

 Source: kstrl/acceptance/isolation.py.
 */
module Isolation {
  import opened Checks
  import opened Text

  datatype Zone = SetupZone | TestZone

  /** Why a child gave no status. */
  datatype Why = Finished | TimedOut | Undecodable | CouldNotStart(error: string)

  /** One bounded child: its exit and the object it reported, if any. */
  datatype Ran = Ran(code: Exit, report: Option<map<string, string>>, why: Why)

  const HOST_CHECKED_WRITES: seq<string> := ["write_outside", "write_tmp", "write_state_parent"]
  const POSITIVE_CONTROLS: seq<string> := ["scratch_write", "loopback", "env_reaches", "exit_127", "sigterm"]
  const NON_GATING_CANARIES: seq<string> := ["dns"]

  /** The canaries and positive controls one canary process runs. */
  function Names(zone: Zone): seq<string> {
    ["write_outside", "write_tmp", "write_state_parent", "read_planted", "list_ssh"] +
    (if zone.TestZone? then ["egress", "dns"] else []) +
    ["scratch_write", "loopback", "env_reaches"]
  }

  predicate StartsWith(s: string, prefix: string) {
    |prefix| <= |s| && s[..|prefix|] == prefix
  }

  // --- The outcomes ------------------------------------------------------------------

  function CodeText(code: Exit): string {
    if code.None? then "None" else Decimal(code.value)
  }

  /** Why a process gave no status, "" when it gave one. */
  function WhyText(why: Why): string {
    match why
    case Finished => ""
    case TimedOut => "timeout"
    case Undecodable => "undecodable output"
    case CouldNotStart(error) => "could not start: " + error
  }

  function FailureText(ran: Ran): string {
    if ran.why.Finished? then "no report (exit " + CodeText(ran.code) + ")" else WhyText(ran.why)
  }

  /** What an extra probe that did not end as expected is reported as. */
  function ProbeText(ran: Ran): string {
    if ran.why.Finished? then "exit " + CodeText(ran.code) else WhyText(ran.why)
  }

  /** No process failure reads as a success. */
  lemma FailureIsNotOk(ran: Ran)
    ensures FailureText(ran) != "ok" && ProbeText(ran) != "ok"
  {
    assert "ok"[0] == 'o';
    if ran.why.Finished? {
      assert FailureText(ran)[0] == 'n' && ProbeText(ran)[0] == 'e';
    } else {
      assert WhyText(ran.why)[0] in {'t', 'u', 'c'};
    }
  }

  /** Each canary's raw outcome, or the process's failure for all of them. */
  function Outcome(ran: Ran, name: string): string {
    if ran.report.Some? && name in ran.report.value then ran.report.value[name] else FailureText(ran)
  }

  /** What the canary program can say of one attempt, and what stands for a
      canary that was not reported. */
  predicate InVocabulary(outcome: string) {
    || outcome == "ok" || outcome == "timeout" || StartsWith(outcome, "errno ") || StartsWith(outcome, "error ")
    || StartsWith(outcome, "no report (exit ") || outcome == "undecodable output"
    || StartsWith(outcome, "could not start: ")
  }

  /** A text does not start in two ways that differ somewhere. */
  lemma StartsOneWay(s: string, one: string, two: string, k: nat)
    requires StartsWith(s, one) && k < |one| && k < |two| && one[k] != two[k]
    ensures !StartsWith(s, two)
  {
    assert s[..|one|][k] == s[k];
    if |two| <= |s| { assert s[..|two|][k] == s[k]; }
  }

  lemma NoWordMeansContained(outcome: string)
    requires InVocabulary(outcome)
    ensures !StartsWith(outcome, "contained")
  {
    if StartsWith(outcome, "errno ") {
      StartsOneWay(outcome, "errno ", "contained", 0);
    } else if StartsWith(outcome, "error ") {
      StartsOneWay(outcome, "error ", "contained", 0);
    } else if StartsWith(outcome, "no report (exit ") {
      StartsOneWay(outcome, "no report (exit ", "contained", 0);
    } else if StartsWith(outcome, "could not start: ") {
      StartsOneWay(outcome, "could not start: ", "contained", 2);
    } else {
      StartsOneWay(outcome, outcome, "contained", 0);
    }
  }

  // --- The verdicts ------------------------------------------------------------------

  /** Failed with an errno; for the egress canary only EPERM. */
  predicate Contained(name: string, outcome: string) {
    if name == "egress" then outcome == "errno 1" else StartsWith(outcome, "errno ")
  }

  /** The operation works outside the rung; for egress, or is answered by the
      network in any way but a refusal. */
  predicate ControlInformative(name: string, control: string) {
    if name == "egress" then
      control == "ok" || control == "timeout" || (StartsWith(control, "errno ") && !Contained(name, control))
    else control == "ok"
  }

  function VerdictText(name: string, sandboxed: string, control: string): string {
    if !ControlInformative(name, control) then "uninformative: control " + control
    else if sandboxed == "timeout" then "timeout"
    else if Contained(name, sandboxed) then "contained: " + sandboxed
    else if sandboxed == "ok" then "escaped"
    else sandboxed
  }

  /** A write that reached the host escaped, whatever the canary said. */
  function CanaryVerdict(name: string, sandboxed: string, control: string, hostEscaped: bool): string {
    if name in POSITIVE_CONTROLS then sandboxed
    else
      var verdict := VerdictText(name, sandboxed, control);
      if hostEscaped && StartsWith(verdict, "contained") then "escaped" else verdict
  }

  method CanaryVerdicts(names: seq<string>, sandboxed: Ran, control: Ran, hostEscaped: map<string, bool>)
    returns (verdicts: map<string, string>)
    ensures verdicts.Keys == set name | name in names
    ensures forall name | name in names ::
              verdicts[name] == CanaryVerdict(name, Outcome(sandboxed, name), Outcome(control, name),
                                              name in hostEscaped && hostEscaped[name])
  {
    verdicts := map[];
    for i := 0 to |names|
      invariant verdicts.Keys == set name | name in names[..i]
      invariant forall name | name in names[..i] ::
                  verdicts[name] == CanaryVerdict(name, Outcome(sandboxed, name), Outcome(control, name),
                                                  name in hostEscaped && hostEscaped[name])
    {
      var name := names[i];
      assert names[..i + 1] == names[..i] + [name];
      if name in POSITIVE_CONTROLS {
        verdicts := verdicts[name := Outcome(sandboxed, name)];
      } else {
        var verdict := VerdictText(name, Outcome(sandboxed, name), Outcome(control, name));
        if name in hostEscaped && hostEscaped[name] && StartsWith(verdict, "contained") { verdict := "escaped"; }
        verdicts := verdicts[name := verdict];
      }
    }
    assert names[..|names|] == names;
  }

  /** Whether one verdict lets the zone stand. */
  predicate Stands(name: string, verdict: string) {
    || name in NON_GATING_CANARIES
    || (if name in POSITIVE_CONTROLS then verdict == "ok" else StartsWith(verdict, "contained"))
  }

  /** The names that refuse the zone; none is no refusal. */
  function Refusing(verdicts: map<string, string>): set<string> {
    set name | name in verdicts && !Stands(name, verdicts[name])
  }

  // --- One run of the canaries ----------------------------------------------------------

  /** The two canary processes, the files each leaves, and the two extra
      probes. */
  datatype Trial = Trial(
    sandboxed: Ran, control: Ran, sandboxWrites: set<string>, controlWrites: set<string>,
    missing: Ran, killed: Ran)

  /** The verdicts of a run of the canaries, with `before` on the host. */
  ghost predicate AreVerdicts(
    zone: Zone, targets: map<string, string>, before: set<string>, runs: Trial, verdicts: map<string, string>)
    requires forall name | name in HOST_CHECKED_WRITES :: name in targets
  {
    && verdicts.Keys == (set name | name in Names(zone)) + {"exit_127", "sigterm"}
    && (forall name | name in Names(zone) ::
          verdicts[name] == CanaryVerdict(name, Outcome(runs.sandboxed, name), Outcome(runs.control, name),
                                          name in HOST_CHECKED_WRITES &&
                                          targets[name] in before + runs.sandboxWrites))
    && verdicts["exit_127"] == (if runs.missing.code == Some(127) then "ok" else ProbeText(runs.missing))
    && verdicts["sigterm"] == (if runs.killed.code in {Some(143), Some(-15)} then "ok" else ProbeText(runs.killed))
  }

  class HostFiles {
    /** The paths that exist. */
    var files: set<string>

    /** Run the canaries. The write targets are looked for on the host after
        the sandboxed run and before the control run, and all of them are gone
        at the end. */
    method RunCanaries(zone: Zone, targets: map<string, string>, runs: Trial) returns (verdicts: map<string, string>)
      requires forall name | name in HOST_CHECKED_WRITES :: name in targets
      modifies this
      ensures files == (old(files) + runs.sandboxWrites + runs.controlWrites) - targets.Values
      ensures AreVerdicts(zone, targets, old(files), runs, verdicts)
    {
      files := files + runs.sandboxWrites;
      var seen := files;
      var escaped := map name | name in (set n | n in HOST_CHECKED_WRITES) :: targets[name] in seen;
      files := files - (set name | name in HOST_CHECKED_WRITES :: targets[name]);
      files := files + runs.controlWrites;
      files := files - targets.Values;
      verdicts := CanaryVerdicts(Names(zone), runs.sandboxed, runs.control, escaped);
      ghost var first := verdicts;
      NoExtraProbeNamed(zone);
      verdicts := verdicts["exit_127" := if runs.missing.code == Some(127) then "ok" else ProbeText(runs.missing)];
      verdicts := verdicts[
        "sigterm" := if runs.killed.code in {Some(143), Some(-15)} then "ok" else ProbeText(runs.killed)];
      assert forall name | name in Names(zone) :: verdicts[name] == first[name];
    }
  }

  lemma NoExtraProbeNamed(zone: Zone)
    ensures "exit_127" !in Names(zone) && "sigterm" !in Names(zone)
  {
    assert "exit_127"[0] == 'e' && "sigterm"[1] == 'i';
    forall i | 0 <= i < |Names(zone)| ensures Names(zone)[i] != "exit_127" && Names(zone)[i] != "sigterm" {
    }
  }

  // --- A zone that stands really held ------------------------------------------------------

  /** What holding means for one gating canary. */
  predicate Held(name: string, sandboxed: string, control: string, hostEscaped: bool) {
    ControlInformative(name, control) && Contained(name, sandboxed) && !hostEscaped
  }

  /** A gating canary lets the zone stand iff it held, for every outcome in the
      canary program's vocabulary. */
  lemma StandsIffHeld(name: string, sandboxed: string, control: string, hostEscaped: bool)
    requires name !in POSITIVE_CONTROLS && name !in NON_GATING_CANARIES && InVocabulary(sandboxed)
    ensures Stands(name, CanaryVerdict(name, sandboxed, control, hostEscaped)) <==>
            Held(name, sandboxed, control, hostEscaped)
  {
    NoWordMeansContained(sandboxed);
    StandsExactly(name, sandboxed, control, hostEscaped);
  }

  /** And exactly, for every text a process could report: a text that itself
      begins with the word "contained" is the one thing that is read as
      contained without being a failure. */
  lemma StandsExactly(name: string, sandboxed: string, control: string, hostEscaped: bool)
    requires name !in POSITIVE_CONTROLS && name !in NON_GATING_CANARIES
    ensures Stands(name, CanaryVerdict(name, sandboxed, control, hostEscaped)) <==>
            && ControlInformative(name, control) && !hostEscaped
            && (Contained(name, sandboxed) || StartsWith(sandboxed, "contained"))
  {
    var verdict := VerdictText(name, sandboxed, control);
    StartsOneWay("escaped", "escaped", "contained", 0);
    if !ControlInformative(name, control) {
      StartsOneWay(verdict, verdict, "contained", 0);
    } else if sandboxed == "timeout" {
      StartsOneWay("timeout", "timeout", "contained", 0);
      StartsOneWay("timeout", "timeout", "errno ", 0);
    } else if Contained(name, sandboxed) {
      assert ("contained: " + sandboxed)[..9] == "contained";
    } else if sandboxed == "ok" {
      assert !StartsWith("ok", "contained");
    }
  }

  /** A zone is not refused iff every gating canary held and every positive
      control reported ok, whatever the reports say. */
  lemma ZoneStandsIff(zone: Zone, runs: Trial, escaped: map<string, bool>, verdicts: map<string, string>)
    requires verdicts.Keys == (set name | name in Names(zone)) + {"exit_127", "sigterm"}
    requires forall name | name in Names(zone) ::
               verdicts[name] == CanaryVerdict(name, Outcome(runs.sandboxed, name), Outcome(runs.control, name),
                                               name in escaped && escaped[name])
    requires verdicts["exit_127"] == if runs.missing.code == Some(127) then "ok" else ProbeText(runs.missing)
    requires verdicts["sigterm"] == if runs.killed.code in {Some(143), Some(-15)} then "ok" else ProbeText(runs.killed)
    requires forall name | name in Names(zone) :: InVocabulary(Outcome(runs.sandboxed, name))
    ensures Refusing(verdicts) == {} <==>
            && (forall name | name in Names(zone) && name !in POSITIVE_CONTROLS && name !in NON_GATING_CANARIES ::
                  Held(name, Outcome(runs.sandboxed, name), Outcome(runs.control, name),
                       name in escaped && escaped[name]))
            && (forall name | name in Names(zone) && name in POSITIVE_CONTROLS :: Outcome(runs.sandboxed, name) == "ok")
            && runs.missing.code == Some(127) && runs.killed.code in {Some(143), Some(-15)}
  {
    forall name | name in Names(zone) && name !in POSITIVE_CONTROLS && name !in NON_GATING_CANARIES
      ensures Stands(name, verdicts[name]) <==>
              Held(name, Outcome(runs.sandboxed, name), Outcome(runs.control, name), name in escaped && escaped[name])
    {
      StandsIffHeld(name, Outcome(runs.sandboxed, name), Outcome(runs.control, name), name in escaped && escaped[name]);
    }
    FailureIsNotOk(runs.missing);
    FailureIsNotOk(runs.killed);
    ControlsAreNamed();
    StandsForAll(verdicts);
  }

  lemma ControlsAreNamed()
    ensures "exit_127" in POSITIVE_CONTROLS && "sigterm" in POSITIVE_CONTROLS && "scratch_write" in POSITIVE_CONTROLS
    ensures forall name | name in POSITIVE_CONTROLS :: name !in NON_GATING_CANARIES
  {
    assert POSITIVE_CONTROLS[3] == "exit_127" && POSITIVE_CONTROLS[4] == "sigterm" &&
        POSITIVE_CONTROLS[0] == "scratch_write";
  }

  lemma StandsForAll(verdicts: map<string, string>)
    ensures Refusing(verdicts) == {} <==> forall name | name in verdicts :: Stands(name, verdicts[name])
  {
    if Refusing(verdicts) == {} {
      forall name | name in verdicts ensures Stands(name, verdicts[name]) {
        assert name !in Refusing(verdicts);
      }
    }
  }

  /** A sandboxed process that timed out, was lost or reported nothing refuses
      every zone, and so does a control that reported nothing. */
  lemma SilenceRefuses(zone: Zone, runs: Trial, escaped: map<string, bool>, verdicts: map<string, string>)
    requires verdicts.Keys == (set name | name in Names(zone)) + {"exit_127", "sigterm"}
    requires forall name | name in Names(zone) ::
               verdicts[name] == CanaryVerdict(name, Outcome(runs.sandboxed, name), Outcome(runs.control, name),
                                               name in escaped && escaped[name])
    requires runs.sandboxed.report.None? || runs.control.report.None?
    ensures Refusing(verdicts) != {}
  {
    FailureIsNotOk(runs.sandboxed);
    FailureIsNotOk(runs.control);
    if runs.sandboxed.report.None? {
      ScratchIsNamed(zone);
      assert verdicts["scratch_write"] == FailureText(runs.sandboxed) != "ok";
      assert "scratch_write" in Refusing(verdicts);
    } else {
      WriteIsNamed(zone);
      StandsExactly("write_outside", Outcome(runs.sandboxed, "write_outside"), FailureText(runs.control),
                    "write_outside" in escaped && escaped["write_outside"]);
      assert "write_outside" in Refusing(verdicts);
    }
  }

  lemma ScratchIsNamed(zone: Zone)
    ensures "scratch_write" in Names(zone) && "scratch_write" in POSITIVE_CONTROLS
    ensures "scratch_write" !in NON_GATING_CANARIES
  {
    assert Names(zone)[|Names(zone)| - 3] == "scratch_write";
    ControlsAreNamed();
  }

  lemma WriteIsNamed(zone: Zone)
    ensures "write_outside" in Names(zone) && "write_outside" !in POSITIVE_CONTROLS
    ensures "write_outside" !in NON_GATING_CANARIES
  {
    assert Names(zone)[0] == "write_outside";
  }

  // --- The same by the reports themselves ------------------------------------------------

  /** The process reported this of the canary. */
  predicate Reports(ran: Ran, name: string, text: string) {
    ran.report.Some? && name in ran.report.value && ran.report.value[name] == text
  }

  /** The process reported that the canary failed with an error number. */
  predicate ReportsErrno(ran: Ran, name: string) {
    ran.report.Some? && name in ran.report.value && StartsWith(ran.report.value[name], "errno ")
  }

  /** What the canary program can print, and a process with no status prints
      nothing. */
  predicate IsCanaryReport(ran: Ran) {
    ran.report.Some? ==>
      ran.why.Finished? &&
      forall name | name in ran.report.value ::
        var text := ran.report.value[name];
        text == "ok" || text == "timeout" || StartsWith(text, "errno ") || StartsWith(text, "error ")
  }

  /** A read or a listing that failed inside the rung and works outside it. */
  predicate Denied(runs: Trial, name: string) {
    ReportsErrno(runs.sandboxed, name) && Reports(runs.control, name, "ok")
  }

  lemma OutcomeOfErrno(ran: Ran, name: string)
    requires IsCanaryReport(ran)
    ensures StartsWith(Outcome(ran, name), "errno ") <==> ReportsErrno(ran, name)
    ensures Outcome(ran, name) == "ok" <==> Reports(ran, name, "ok")
    ensures Outcome(ran, name) == "errno 1" <==> Reports(ran, name, "errno 1")
    ensures InVocabulary(Outcome(ran, name))
  {
    FailureIsNotOk(ran);
    if !(ran.report.Some? && name in ran.report.value) { FailureIsNoErrno(ran); }
  }

  lemma FailureIsNoErrno(ran: Ran)
    ensures !StartsWith(FailureText(ran), "errno ") && FailureText(ran) != "errno 1" && InVocabulary(FailureText(ran))
  {
    var text := FailureText(ran);
    assert text[0] in {'n', 't', 'u', 'c'};
    if ran.why.Finished? {
      assert text[..16] == "no report (exit ";
    } else if ran.why.CouldNotStart? {
      assert text[..17] == "could not start: ";
    }
  }

  /** A canary other than egress lets the zone stand iff it was denied and left
      nothing on the host. */
  lemma DeniedStands(runs: Trial, name: string, escaped: bool)
    requires IsCanaryReport(runs.sandboxed) && IsCanaryReport(runs.control)
    requires name in {"write_outside", "write_tmp", "write_state_parent", "read_planted", "list_ssh"}
    ensures Stands(name, CanaryVerdict(name, Outcome(runs.sandboxed, name), Outcome(runs.control, name), escaped)) <==>
            Denied(runs, name) && !escaped
  {
    PlainCanary(name);
    OutcomeOfErrno(runs.sandboxed, name);
    OutcomeOfErrno(runs.control, name);
    StandsIffHeld(name, Outcome(runs.sandboxed, name), Outcome(runs.control, name), escaped);
  }

  lemma PlainCanary(name: string)
    requires name in {"write_outside", "write_tmp", "write_state_parent", "read_planted", "list_ssh"}
    ensures name !in POSITIVE_CONTROLS && name !in NON_GATING_CANARIES && name != "egress"
  {
    assert name[0] in {'w', 'r', 'l'};
    assert name[0] == 'l' ==> name[1] == 'i';
    forall i | 0 <= i < |POSITIVE_CONTROLS| ensures POSITIVE_CONTROLS[i] != name {
    }
  }

  /** The egress canary lets the zone stand iff it was refused with EPERM and
      its control was answered by the network in any other way. */
  predicate EgressDenied(runs: Trial) {
    && Reports(runs.sandboxed, "egress", "errno 1")
    && (|| Reports(runs.control, "egress", "ok") || Reports(runs.control, "egress", "timeout")
        || (ReportsErrno(runs.control, "egress") && !Reports(runs.control, "egress", "errno 1")))
  }

  lemma EgressStands(runs: Trial)
    requires IsCanaryReport(runs.sandboxed) && IsCanaryReport(runs.control) && runs.control.report.Some?
    ensures Stands("egress",
                   CanaryVerdict("egress", Outcome(runs.sandboxed, "egress"), Outcome(runs.control, "egress"), false))
            <==> EgressDenied(runs)
  {
    assert "egress"[1] == 'g';
    assert "egress" !in POSITIVE_CONTROLS && "egress" !in NON_GATING_CANARIES by {
      forall i | 0 <= i < |POSITIVE_CONTROLS| ensures POSITIVE_CONTROLS[i] != "egress" { }
      assert NON_GATING_CANARIES[0][0] == 'd';
    }
    OutcomeOfErrno(runs.sandboxed, "egress");
    OutcomeOfErrno(runs.control, "egress");
    OutcomeOfTimeout(runs.control, "egress");
    StandsIffHeld("egress", Outcome(runs.sandboxed, "egress"), Outcome(runs.control, "egress"), false);
  }

  lemma OutcomeOfTimeout(ran: Ran, name: string)
    requires IsCanaryReport(ran) && ran.report.Some?
    ensures Outcome(ran, name) == "timeout" <==> Reports(ran, name, "timeout")
  {
    if name !in ran.report.value { assert FailureText(ran)[0] == 'n'; }
  }

  /** The names one run of the canaries judges, and no others. */
  lemma NamesSay(zone: Zone, name: string)
    ensures name in Names(zone) <==>
            || name in {"write_outside", "write_tmp", "write_state_parent", "read_planted", "list_ssh"}
            || name in {"scratch_write", "loopback", "env_reaches"}
            || (zone == TestZone && name in {"egress", "dns"})
  {
    if zone == TestZone { TestNames(name); } else { SetupNames(name); }
  }

  lemma SetupNames(name: string)
    ensures name in Names(SetupZone) <==>
            || name in {"write_outside", "write_tmp", "write_state_parent", "read_planted", "list_ssh"}
            || name in {"scratch_write", "loopback", "env_reaches"}
  {
    assert Names(SetupZone) == ["write_outside", "write_tmp", "write_state_parent", "read_planted", "list_ssh",
                                "scratch_write", "loopback", "env_reaches"];
  }

  lemma TestNames(name: string)
    ensures name in Names(TestZone) <==>
            || name in {"write_outside", "write_tmp", "write_state_parent", "read_planted", "list_ssh"}
            || name in {"scratch_write", "loopback", "env_reaches"} || name in {"egress", "dns"}
  {
    assert Names(TestZone) == ["write_outside", "write_tmp", "write_state_parent", "read_planted", "list_ssh", "egress",
                               "dns", "scratch_write", "loopback", "env_reaches"];
  }

  /** No verdict on name resolution refuses a zone. */
  lemma DnsNeverRefuses(verdict: string)
    ensures Stands("dns", verdict)
  {
    assert NON_GATING_CANARIES[0] == "dns";
  }

  lemma ControlStands(ran: Ran, name: string, control: string, escaped: bool)
    requires IsCanaryReport(ran) && name in {"scratch_write", "loopback", "env_reaches"}
    ensures Stands(name, CanaryVerdict(name, Outcome(ran, name), control, escaped)) <==> Reports(ran, name, "ok")
  {
    assert POSITIVE_CONTROLS[0] == "scratch_write" && POSITIVE_CONTROLS[1] == "loopback";
    assert POSITIVE_CONTROLS[2] == "env_reaches";
    ControlsAreNamed();
    OutcomeOfErrno(ran, name);
  }

  lemma WritesSay(name: string)
    ensures name in HOST_CHECKED_WRITES <==> name in {"write_outside", "write_tmp", "write_state_parent"}
  {
    assert HOST_CHECKED_WRITES[0] == "write_outside" && HOST_CHECKED_WRITES[1] == "write_tmp";
    assert HOST_CHECKED_WRITES[2] == "write_state_parent";
  }

  /** The target of a write was not on the host after the sandboxed run. */
  predicate NotLeft(targets: map<string, string>, before: set<string>, runs: Trial, name: string) {
    name in targets && targets[name] !in before && targets[name] !in runs.sandboxWrites
  }

  /** A zone is not refused iff, in the reports' own words: the three writes,
      the planted read and the listing each failed with an errno inside and
      worked outside, no write left its target on the host, the three controls
      worked inside, the two extra probes exited as they should, and in the test
      zone the network was refused with EPERM and answers outside. */
  ghost predicate Holds(zone: Zone, targets: map<string, string>, before: set<string>, runs: Trial)
    requires forall name | name in HOST_CHECKED_WRITES :: name in targets
  {
    && Denied(runs, "write_outside") && Denied(runs, "write_tmp") && Denied(runs, "write_state_parent")
    && Denied(runs, "read_planted") && Denied(runs, "list_ssh")
    && NotLeft(targets, before, runs, "write_outside") && NotLeft(targets, before, runs, "write_tmp")
    && NotLeft(targets, before, runs, "write_state_parent")
    && Reports(runs.sandboxed, "scratch_write", "ok") && Reports(runs.sandboxed, "loopback", "ok")
    && Reports(runs.sandboxed, "env_reaches", "ok")
    && runs.missing.code == Some(127) && (runs.killed.code == Some(143) || runs.killed.code == Some(-15))
    && (zone == TestZone ==> EgressDenied(runs))
  }

  lemma ZoneHoldsIff(
    zone: Zone, targets: map<string, string>, before: set<string>, runs: Trial, verdicts: map<string, string>)
    requires forall name | name in HOST_CHECKED_WRITES :: name in targets
    requires AreVerdicts(zone, targets, before, runs, verdicts)
    requires IsCanaryReport(runs.sandboxed) && IsCanaryReport(runs.control)
    ensures Refusing(verdicts) == {} <==> Holds(zone, targets, before, runs)
  {
    StandsForAll(verdicts);
    if Refusing(verdicts) == {} {
      StandingHolds(zone, targets, before, runs, verdicts);
    }
    if Holds(zone, targets, before, runs) {
      HoldingStands(zone, targets, before, runs, verdicts);
    }
  }

  lemma StandingHolds(
    zone: Zone, targets: map<string, string>, before: set<string>, runs: Trial, verdicts: map<string, string>)
    requires forall name | name in HOST_CHECKED_WRITES :: name in targets
    requires AreVerdicts(zone, targets, before, runs, verdicts)
    requires IsCanaryReport(runs.sandboxed) && IsCanaryReport(runs.control)
    requires forall name | name in verdicts :: Stands(name, verdicts[name])
    ensures Holds(zone, targets, before, runs)
  {
    StandingDenied(zone, targets, before, runs, verdicts, "write_outside");
    StandingDenied(zone, targets, before, runs, verdicts, "write_tmp");
    StandingDenied(zone, targets, before, runs, verdicts, "write_state_parent");
    StandingDenied(zone, targets, before, runs, verdicts, "read_planted");
    StandingDenied(zone, targets, before, runs, verdicts, "list_ssh");
    StandingControl(zone, targets, before, runs, verdicts, "scratch_write");
    StandingControl(zone, targets, before, runs, verdicts, "loopback");
    StandingControl(zone, targets, before, runs, verdicts, "env_reaches");
    StandingProbes(zone, targets, before, runs, verdicts);
  }

  lemma StandingDenied(zone: Zone, targets: map<string, string>, before: set<string>, runs: Trial,
                       verdicts: map<string, string>, name: string)
    requires forall name | name in HOST_CHECKED_WRITES :: name in targets
    requires AreVerdicts(zone, targets, before, runs, verdicts)
    requires IsCanaryReport(runs.sandboxed) && IsCanaryReport(runs.control)
    requires forall name | name in verdicts :: Stands(name, verdicts[name])
    requires name in {"write_outside", "write_tmp", "write_state_parent", "read_planted", "list_ssh"}
    ensures Denied(runs, name)
    ensures name in {"write_outside", "write_tmp", "write_state_parent"} ==> NotLeft(targets, before, runs, name)
  {
    NamesSay(zone, name);
    WritesSay(name);
    assert Stands(name, verdicts[name]);
    DeniedStands(runs, name, name in HOST_CHECKED_WRITES && targets[name] in before + runs.sandboxWrites);
  }

  lemma StandingControl(zone: Zone, targets: map<string, string>, before: set<string>, runs: Trial,
                        verdicts: map<string, string>, name: string)
    requires forall name | name in HOST_CHECKED_WRITES :: name in targets
    requires AreVerdicts(zone, targets, before, runs, verdicts) && IsCanaryReport(runs.sandboxed)
    requires forall name | name in verdicts :: Stands(name, verdicts[name])
    requires name in {"scratch_write", "loopback", "env_reaches"}
    ensures Reports(runs.sandboxed, name, "ok")
  {
    NamesSay(zone, name);
    assert Stands(name, verdicts[name]);
    ControlStands(runs.sandboxed, name, Outcome(runs.control, name),
                  name in HOST_CHECKED_WRITES && targets[name] in before + runs.sandboxWrites);
  }

  lemma StandingProbes(
    zone: Zone, targets: map<string, string>, before: set<string>, runs: Trial, verdicts: map<string, string>)
    requires forall name | name in HOST_CHECKED_WRITES :: name in targets
    requires AreVerdicts(zone, targets, before, runs, verdicts)
    requires IsCanaryReport(runs.sandboxed) && IsCanaryReport(runs.control)
    requires forall name | name in verdicts :: Stands(name, verdicts[name])
    ensures runs.missing.code == Some(127) && (runs.killed.code == Some(143) || runs.killed.code == Some(-15))
    ensures zone == TestZone ==> EgressDenied(runs)
  {
    ControlsAreNamed();
    FailureIsNotOk(runs.missing);
    FailureIsNotOk(runs.killed);
    assert Stands("exit_127", verdicts["exit_127"]) && Stands("sigterm", verdicts["sigterm"]);
    if zone == TestZone {
      StandingDenied(zone, targets, before, runs, verdicts, "list_ssh");
      NamesSay(zone, "egress");
      EgressIsNoWrite();
      assert Stands("egress", verdicts["egress"]);
      EgressStands(runs);
    }
  }

  lemma EgressIsNoWrite()
    ensures "egress" !in HOST_CHECKED_WRITES && "dns" !in HOST_CHECKED_WRITES
  {
    WritesSay("egress");
    WritesSay("dns");
    assert "egress"[0] == 'e' && "dns"[0] == 'd' && "write_outside"[0] == 'w' && "write_tmp"[0] == 'w';
    assert "write_state_parent"[0] == 'w';
  }

  lemma HoldingStands(
    zone: Zone, targets: map<string, string>, before: set<string>, runs: Trial, verdicts: map<string, string>)
    requires forall name | name in HOST_CHECKED_WRITES :: name in targets
    requires AreVerdicts(zone, targets, before, runs, verdicts)
    requires IsCanaryReport(runs.sandboxed) && IsCanaryReport(runs.control)
    requires Holds(zone, targets, before, runs)
    ensures forall name | name in verdicts :: Stands(name, verdicts[name])
  {
    forall name | name in verdicts ensures Stands(name, verdicts[name]) {
      NamesSay(zone, name);
      if name in {"write_outside", "write_tmp", "write_state_parent", "read_planted", "list_ssh"} {
        WritesSay(name);
        DeniedStands(runs, name, name in HOST_CHECKED_WRITES && targets[name] in before + runs.sandboxWrites);
      } else if name in {"scratch_write", "loopback", "env_reaches"} {
        ControlStands(runs.sandboxed, name, Outcome(runs.control, name),
                      name in HOST_CHECKED_WRITES && targets[name] in before + runs.sandboxWrites);
      } else if name == "egress" {
        EgressIsNoWrite();
        EgressStands(runs);
      } else if name == "dns" {
        DnsNeverRefuses(verdicts[name]);
      } else {
        ControlsAreNamed();
      }
    }
  }
}
