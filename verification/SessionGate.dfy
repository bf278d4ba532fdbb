/**
 The gate over an engineer session's event stream: nothing but hook events may
 come before the write guard has reported ready and the init event has shown
 that no MCP server is loaded.

 Source: kstrl/write_guard.py, SessionGate.
 */
module SessionGate {
  import opened Checks

  /** The `mcp_servers` of an init event: absent or not a list, or the list. */
  datatype Servers = NotAList | Servers(names: seq<string>)

  /** One line of the stream as the gate sees it. */
  datatype Line =
    | NotJson
    | NotAnObject
    | System(init: bool, sessionStart: bool, marker: bool, servers: Servers)
    | Other

  datatype Reason = Unreadable | HooksOff | NoInit | NoServerList | ServersLoaded(names: seq<string>)

  function McpRefusal(servers: Servers): Option<Reason> {
    match servers
    case NotAList => Some(NoServerList)
    case Servers(names) => if names == [] then None else Some(ServersLoaded(names))
  }

  /** A system event that is not the init event: what hooks send. */
  predicate IsHookEvent(line: Line) { line.System? && !line.init }

  /** The SessionStart hook reporting the ready marker. */
  predicate IsReady(line: Line) { IsHookEvent(line) && line.sessionStart && line.marker }

  datatype State = State(ready: bool, started: bool)

  class SessionGate {
    var ready: bool
    var started: bool

    constructor ()
      ensures Current() == State(false, false)
    {
      ready, started := false, false;
    }

    function Current(): State
      reads this
    {
      State(ready, started)
    }

    method Refusal(line: Line) returns (reason: Option<Reason>)
      modifies this
      ensures Current() == Next(old(Current()), line)
      ensures reason == Said(old(Current()), line)
    {
      if started { return None; }
      if line.NotJson? { return None; }
      if line.NotAnObject? { return Some(Unreadable); }
      if line.System? && !line.init {
        if line.sessionStart && line.marker { ready := true; }
        return None;
      }
      if !ready { return Some(HooksOff); }
      if !line.System? { return Some(NoInit); }
      started := true;
      return McpRefusal(line.servers);
    }
  }

  /** What a line does to the gate, and what the gate says of it. */
  function Next(state: State, line: Line): State {
    if state.started then state
    else if IsReady(line) then state.(ready := true)
    else if state.ready && line.System? && line.init then state.(started := true)
    else state
  }

  function Said(state: State, line: Line): Option<Reason> {
    if state.started || line.NotJson? || IsHookEvent(line) then None
    else if line.NotAnObject? then Some(Unreadable)
    else if !state.ready then Some(HooksOff)
    else if line.Other? then Some(NoInit)
    else McpRefusal(line.servers)
  }

  function After(trace: seq<Line>): State {
    if trace == [] then State(false, false) else Next(After(trace[..|trace| - 1]), trace[|trace| - 1])
  }

  /** No line of the trace is refused. */
  predicate NeverRefused(trace: seq<Line>) {
    forall n | 0 <= n < |trace| :: Said(After(trace[..n]), trace[n]).None?
  }

  // --- The declarative language -------------------------------------------------------

  /** The first event that is neither noise nor a hook event. */
  ghost predicate IsFirstEvent(trace: seq<Line>, n: nat) {
    && n < |trace| && !trace[n].NotJson? && !(trace[n].System? && !trace[n].init)
    && forall m | 0 <= m < n :: trace[m].NotJson? || (trace[m].System? && !trace[m].init)
  }

  /** An init event that loads no server, after a ready hook. */
  ghost predicate StartsGuarded(trace: seq<Line>, n: nat)
    requires n < |trace|
  {
    && trace[n].System? && trace[n].init && trace[n].servers == Servers([])
    && exists m | 0 <= m < n :: IsReady(trace[m])
  }

  /** Before its first event a session has not started, and it is ready iff a
      hook has said so. */
  lemma {:induction false} BeforeFirstEvent(trace: seq<Line>, n: nat)
    requires n <= |trace| && forall m | 0 <= m < n :: trace[m].NotJson? || IsHookEvent(trace[m])
    ensures !After(trace[..n]).started
    ensures After(trace[..n]).ready <==> exists m | 0 <= m < n :: IsReady(trace[m])
  {
    if n > 0 {
      BeforeFirstEvent(trace, n - 1);
      assert trace[..n][..n - 1] == trace[..n - 1];
      if IsReady(trace[n - 1]) { assert After(trace[..n]).ready; }
    }
  }

  /** Once started a session stays started. */
  lemma {:induction false} StaysStarted(trace: seq<Line>, n: nat, m: nat)
    requires n <= m <= |trace| && After(trace[..n]).started
    ensures After(trace[..m]).started
  {
    if n < m {
      StaysStarted(trace, n, m - 1);
      assert trace[..m][..m - 1] == trace[..m - 1];
    }
  }

  lemma {:induction false} FirstEventOrNone(trace: seq<Line>) returns (n: Option<nat>)
    ensures n.Some? ==> IsFirstEvent(trace, n.value)
    ensures n.None? ==> forall m | 0 <= m < |trace| :: trace[m].NotJson? || IsHookEvent(trace[m])
  {
    if trace == [] { return None; }
    var init := trace[..|trace| - 1];
    n := FirstEventOrNone(init);
    if n.None? {
      assert forall m | 0 <= m < |init| :: trace[m] == init[m];
      var last := trace[|trace| - 1];
      if !last.NotJson? && !IsHookEvent(last) { n := Some(|trace| - 1); }
    } else {
      assert forall m | 0 <= m <= n.value :: trace[m] == init[m];
    }
  }

  /** The gate equals the language: no line is refused iff the first event that
      is not noise or a hook event, when there is one, starts guarded. */
  lemma GateIsTheLanguage(trace: seq<Line>)
    ensures NeverRefused(trace) <==> forall n: nat | IsFirstEvent(trace, n) :: StartsGuarded(trace, n)
  {
    var first := FirstEventOrNone(trace);
    if first.None? {
      forall n | 0 <= n < |trace| ensures Said(After(trace[..n]), trace[n]).None? {
      }
      assert forall n: nat :: !IsFirstEvent(trace, n);
    } else {
      var n := first.value;
      BeforeFirstEvent(trace, n);
      assert Said(After(trace[..n]), trace[n]).None? <==> StartsGuarded(trace, n);
      forall k: nat | IsFirstEvent(trace, k) ensures k == n {
      }
      if StartsGuarded(trace, n) { NothingElseRefused(trace, n); }
    }
  }

  lemma NothingElseRefused(trace: seq<Line>, n: nat)
    requires IsFirstEvent(trace, n) && StartsGuarded(trace, n)
    ensures NeverRefused(trace)
  {
    BeforeFirstEvent(trace, n);
    assert trace[..n + 1][..n] == trace[..n];
    assert After(trace[..n + 1]).started;
    forall m | 0 <= m < |trace| ensures Said(After(trace[..m]), trace[m]).None? {
      if m > n { StaysStarted(trace, n + 1, m); }
    }
  }

  /** The first refusal, if any, is at the first event: a session is stopped
      there or not at all before it has started. */
  lemma RefusedAtFirstEvent(trace: seq<Line>, n: nat)
    requires IsFirstEvent(trace, n) && !StartsGuarded(trace, n)
    ensures Said(After(trace[..n]), trace[n]).Some?
    ensures forall m | 0 <= m < n :: Said(After(trace[..m]), trace[m]).None?
  {
    BeforeFirstEvent(trace, n);
  }

  /** Why it is stopped there. */
  lemma ReasonAtFirstEvent(trace: seq<Line>, n: nat)
    requires IsFirstEvent(trace, n)
    ensures Said(After(trace[..n]), trace[n]) ==
            if trace[n] == NotAnObject then Some(Unreadable)
            else if !exists m | 0 <= m < n :: IsReady(trace[m]) then Some(HooksOff)
            else if trace[n] == Other then Some(NoInit)
            else if trace[n].servers == NotAList then Some(NoServerList)
            else if trace[n].servers.names == [] then None
            else Some(ServersLoaded(trace[n].servers.names))
  {
    BeforeFirstEvent(trace, n);
  }

  /** What makes a hook report ready: a system event other than init, from the
      SessionStart hook, that prints the marker. */
  lemma ReadyIff(line: Line)
    ensures IsReady(line) <==> line.System? && !line.init && line.sessionStart && line.marker
  {
  }
}
