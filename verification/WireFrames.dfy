/**
 The wiring of frames: which screens a frame can reach, and the split of a CSS
 selector list at its top-level commas.

 Source: design/tools/wire_frames.py.
 */
module WireFrames {
  import opened Checks
  import opened Text

  // --- reach ---------------------------------------------------------------------------

  /** A control's target: nothing drawn, a screen, or the screens of a group. */
  datatype Target = Static | Screen(name: string) | Group(name: string)

  datatype Controls = Controls(zoom: seq<Target>, crumbs: seq<Target>, tabs: seq<Target>)

  datatype Wiring = Wiring(screens: map<string, Controls>, groups: map<string, seq<string>>)

  function AllTargets(c: Controls): seq<Target> {
    c.zoom + c.crumbs + c.tabs
  }

  /** One target, its group expanded; None when the group is not there. */
  function Expanded(st: Wiring, t: Target): Option<seq<string>> {
    match t
    case Static => Some([])
    case Screen(name) => Some([name])
    case Group(name) => if name in st.groups then Some(st.groups[name]) else None
  }

  function ExpandedAll(st: Wiring, ts: seq<Target>): Option<seq<string>> {
    if ts == [] then Some([])
    else
      var before, last := ExpandedAll(st, ts[..|ts| - 1]), Expanded(st, ts[|ts| - 1]);
      if before.None? || last.None? then None else Some(before.value + last.value)
  }

  /** Where a screen leads; None when the lookup of the screen or of a group
      fails. */
  function Targets(st: Wiring, name: string): Option<seq<string>> {
    if name !in st.screens then None else ExpandedAll(st, AllTargets(st.screens[name]))
  }

  method ExpandTargets(st: Wiring, ts: seq<Target>) returns (names: Option<seq<string>>)
    ensures names == ExpandedAll(st, ts)
  {
    var found: seq<string> := [];
    for i := 0 to |ts|
      invariant ExpandedAll(st, ts[..i]) == Some(found)
    {
      assert ts[..i + 1][..i] == ts[..i];
      var more := Expanded(st, ts[i]);
      if more.None? {
        LookupFails(st, ts, i + 1);
        return None;
      }
      found := found + more.value;
    }
    assert ts[..|ts|] == ts;
    names := Some(found);
  }

  lemma {:induction false} LookupFails(st: Wiring, ts: seq<Target>, n: nat)
    requires n <= |ts| && ExpandedAll(st, ts[..n]).None?
    ensures ExpandedAll(st, ts).None?
    decreases |ts| - n
  {
    if n < |ts| {
      assert ts[..n + 1][..n] == ts[..n];
      LookupFails(st, ts, n + 1);
    } else {
      assert ts[..n] == ts;
    }
  }

  /** One step from a screen. */
  ghost predicate Leads(st: Wiring, from: string, to: string) {
    Targets(st, from).Some? && to in Targets(st, from).value
  }

  /** The control leads to this screen. */
  predicate TargetLeadsTo(st: Wiring, t: Target, to: string) {
    t == Screen(to) || (t.Group? && t.name in st.groups && to in st.groups[t.name])
  }

  lemma {:induction false} ExpandedFailsIff(st: Wiring, ts: seq<Target>)
    ensures ExpandedAll(st, ts).None? <==> exists t | t in ts :: t.Group? && t.name !in st.groups
  {
    if ts != [] {
      var init, last := ts[..|ts| - 1], ts[|ts| - 1];
      assert ts == init + [last];
      ExpandedFailsIff(st, init);
      assert forall t :: t in ts <==> t in init || t == last;
    }
  }

  lemma {:induction false} ExpandedHolds(st: Wiring, ts: seq<Target>, to: string)
    requires ExpandedAll(st, ts).Some?
    ensures to in ExpandedAll(st, ts).value <==> exists t | t in ts :: TargetLeadsTo(st, t, to)
  {
    if ts != [] {
      var init, last := ts[..|ts| - 1], ts[|ts| - 1];
      assert ts == init + [last];
      ExpandedHolds(st, init, to);
      assert forall t :: t in ts <==> t in init || t == last;
      assert to in Expanded(st, last).value <==> TargetLeadsTo(st, last, to);
    }
  }

  /** One step, by the controls themselves: a screen leads where a zoom, a crumb
      or a tab of it does, and a lookup fails iff the screen or the group of a
      control is missing. */
  lemma LeadsIff(st: Wiring, from: string, to: string)
    ensures Targets(st, from).None? <==>
            from !in st.screens ||
            exists t :: (t in st.screens[from].zoom || t in st.screens[from].crumbs || t in st.screens[from].tabs) &&
              t.Group? && t.name !in st.groups
    ensures Leads(st, from, to) <==>
            && Targets(st, from).Some?
            && exists t :: (t in st.screens[from].zoom || t in st.screens[from].crumbs || t in st.screens[from].tabs) &&
                 TargetLeadsTo(st, t, to)
  {
    if from in st.screens {
      var c := st.screens[from];
      ExpandedFailsIff(st, AllTargets(c));
      if Targets(st, from).Some? { ExpandedHolds(st, AllTargets(c), to); }
      assert forall t :: t in AllTargets(c) <==> t in c.zoom || t in c.crumbs || t in c.tabs;
    }
  }

  /** A walk along the controls, from its first screen to its last. */
  ghost predicate IsWalk(st: Wiring, walk: seq<string>) {
    walk != [] && forall i | 0 <= i < |walk| - 1 :: Leads(st, walk[i], walk[i + 1])
  }

  ghost predicate Reachable(st: Wiring, start: string, name: string) {
    exists walk :: IsWalk(st, walk) && walk[0] == start && walk[|walk| - 1] == name
  }

  lemma ReachableStart(st: Wiring, start: string)
    ensures Reachable(st, start, start)
  {
    assert IsWalk(st, [start]);
  }

  lemma ReachableStep(st: Wiring, start: string, from: string, to: string)
    requires Reachable(st, start, from) && Leads(st, from, to)
    ensures Reachable(st, start, to)
  {
    var walk :| IsWalk(st, walk) && walk[0] == start && walk[|walk| - 1] == from;
    var longer := walk + [to];
    forall i | 0 <= i < |longer| - 1 ensures Leads(st, longer[i], longer[i + 1]) {
      if i == |walk| - 1 { assert longer[i] == from; }
    }
    assert IsWalk(st, longer);
  }

  /** A set that holds the start and is closed under the controls holds all
      that is reachable. */
  lemma {:induction false} ClosedHoldsWalk(st: Wiring, closed: set<string>, walk: seq<string>, n: nat)
    requires IsWalk(st, walk) && n < |walk| && walk[0] in closed
    requires forall from, to | from in closed && Leads(st, from, to) :: to in closed
    ensures walk[n] in closed
  {
    if n > 0 {
      ClosedHoldsWalk(st, closed, walk, n - 1);
      assert Leads(st, walk[n - 1], walk[n]);
    }
  }

  predicate NoRepeats(names: seq<string>) {
    forall i, j | 0 <= i < j < |names| :: names[i] != names[j]
  }

  /** Some reachable screen cannot be looked up. */
  ghost predicate Dangling(st: Wiring, start: string) {
    exists name :: Reachable(st, start, name) && Targets(st, name).None?
  }

  /** What a search has done so far: `done` are the screens it popped, `seen`
      all it met, `todo` the rest. */
  ghost predicate Searching(st: Wiring, start: string, seen: seq<string>, todo: seq<string>, done: set<string>) {
    && seen != [] && seen[0] == start && NoRepeats(seen) && NoRepeats(todo)
    && (set n | n in seen) == done + (set n | n in todo)
    && (forall n | n in todo :: n !in done)
    && (forall n | n in seen :: Reachable(st, start, n))
    && (forall n | n in done :: n in st.screens && Targets(st, n).Some?)
    && (forall from, to | from in done && Leads(st, from, to) :: to in seen)
  }

  /** Every screen reachable from the start, once, the start first; None where
      the source fails a lookup. It terminates because each round finishes one
      more drawn screen. */
  method Reach(st: Wiring, start: string) returns (seen: Option<seq<string>>)
    ensures seen.None? <==> Dangling(st, start)
    ensures seen.Some? ==> seen.value != [] && seen.value[0] == start && NoRepeats(seen.value)
    ensures seen.Some? ==> forall n :: n in seen.value <==> Reachable(st, start, n)
  {
    var met, todo := [start], [start];
    ghost var done: set<string> := {};
    ReachableStart(st, start);
    while todo != []
      invariant Searching(st, start, met, todo, done)
      decreases st.screens.Keys - done
    {
      var name := todo[|todo| - 1];
      assert name in todo && name in (set n | n in met);
      todo := todo[..|todo| - 1];
      if name !in st.screens {
        assert Targets(st, name).None?;
        return None;
      }
      var ts := ExpandTargets(st, AllTargets(st.screens[name]));
      if ts.None? {
        assert Targets(st, name).None?;
        return None;
      }
      met, todo := Meet(st, start, met, todo, done, name, ts.value);
      done := done + {name};
    }
    AllReached(st, start, met, done);
    seen := Some(met);
  }

  /** Add what is new to both lists. */
  method Meet(
    st: Wiring, start: string, met: seq<string>, todo: seq<string>, ghost done: set<string>, name: string,
    ts: seq<string>)
    returns (met': seq<string>, todo': seq<string>)
    requires Searching(st, start, met, todo + [name], done) && Targets(st, name) == Some(ts)
    ensures Searching(st, start, met', todo', done + {name})
  {
    met', todo' := met, todo;
    Popped(st, start, met, todo, done, name);
    for i := 0 to |ts|
      invariant Partly(st, start, met', todo', done, name, ts[..i])
    {
      assert ts[..i + 1] == ts[..i] + [ts[i]];
      assert Leads(st, name, ts[i]);
      if ts[i] !in met' {
        Met(st, start, met', todo', done, name, ts[..i], ts[i]);
        met', todo' := met' + [ts[i]], todo' + [ts[i]];
      }
    }
    assert ts[..|ts|] == ts;
  }

  /** Searching, in the middle of a screen's targets. */
  ghost predicate Partly(
    st: Wiring, start: string, seen: seq<string>, todo: seq<string>, done: set<string>, name: string, ts: seq<string>)
  {
    && seen != [] && seen[0] == start && NoRepeats(seen) && NoRepeats(todo)
    && (set n | n in seen) == done + {name} + (set n | n in todo)
    && (forall n | n in todo :: n !in done + {name})
    && (forall n | n in seen :: Reachable(st, start, n))
    && (forall n | n in done + {name} :: n in st.screens && Targets(st, n).Some?)
    && (forall from, to | from in done && Leads(st, from, to) :: to in seen)
    && (forall to | to in ts :: to in seen)
  }

  lemma Popped(st: Wiring, start: string, met: seq<string>, todo: seq<string>, done: set<string>, name: string)
    requires Searching(st, start, met, todo + [name], done) && Targets(st, name).Some?
    ensures Partly(st, start, met, todo, done, name, [])
  {
    var all := todo + [name];
    assert forall n | n in todo :: n in all;
    assert name in all;
    forall n | n in todo ensures n != name {
      var i :| 0 <= i < |todo| && todo[i] == n;
      assert all[i] != all[|todo|];
    }
    forall i, j | 0 <= i < j < |todo| ensures todo[i] != todo[j] {
      assert all[i] != all[j];
    }
    assert (set n | n in all) == (set n | n in todo) + {name};
  }

  lemma Met(
    st: Wiring, start: string, met: seq<string>, todo: seq<string>, done: set<string>, name: string, ts: seq<string>,
    new': string)
    requires Partly(st, start, met, todo, done, name, ts) && new' !in met && Leads(st, name, new')
    ensures Partly(st, start, met + [new'], todo + [new'], done, name, ts + [new'])
  {
    assert name in (set n | n in met);
    ReachableStep(st, start, name, new');
    assert new' !in (set n | n in met);
    assert (set n | n in met + [new']) == (set n | n in met) + {new'};
    assert (set n | n in todo + [new']) == (set n | n in todo) + {new'};
    assert forall n | n in todo :: n in met;
  }

  lemma AllReached(st: Wiring, start: string, met: seq<string>, done: set<string>)
    requires Searching(st, start, met, [], done)
    ensures !Dangling(st, start)
    ensures forall n :: n in met <==> Reachable(st, start, n)
  {
    assert (set n | n in met) == done;
    forall n | Reachable(st, start, n) ensures n in done {
      var walk :| IsWalk(st, walk) && walk[0] == start && walk[|walk| - 1] == n;
      assert start in met;
      assert forall from, to | from in done && Leads(st, from, to) :: to in done;
      ClosedHoldsWalk(st, done, walk, |walk| - 1);
    }
  }

  // --- top_split --------------------------------------------------------------------------

  function Opens(c: char): int { if c == '(' || c == '[' then 1 else if c == ')' || c == ']' then -1 else 0 }

  /** How deep in brackets the text ends. */
  function Depth(s: string): int {
    if s == [] then 0 else Depth(s[..|s| - 1]) + Opens(s[|s| - 1])
  }

  lemma {:induction false} DepthCounts(s: string)
    ensures Depth(s) + multiset(s)[')'] + multiset(s)[']'] == multiset(s)['('] + multiset(s)['[']
  {
    if s != [] {
      DepthCounts(s[..|s| - 1]);
      assert s == s[..|s| - 1] + [s[|s| - 1]];
    }
  }

  /** No comma outside brackets. */
  ghost predicate OneSelector(s: string) {
    forall i | 0 <= i < |s| :: s[i] == ',' ==> Depth(s[..i]) != 0
  }

  function Joined(parts: seq<string>): string {
    if parts == [] then ""
    else if |parts| == 1 then parts[0]
    else Joined(parts[..|parts| - 1]) + "," + parts[|parts| - 1]
  }

  /** The cut of a selector list at its top-level commas: the parts joined give
      the text back, no part has such a comma, and every part but the last is
      closed. */
  ghost predicate IsTopSplit(sel: string, parts: seq<string>) {
    && parts != [] && Joined(parts) == sel
    && (forall i | 0 <= i < |parts| :: OneSelector(parts[i]))
    && (forall i | 0 <= i < |parts| - 1 :: Depth(parts[i]) == 0)
  }

  function Stripped(parts: seq<string>): (out: seq<string>)
    ensures |out| == |parts| && forall i | 0 <= i < |parts| :: out[i] == Strip(parts[i])
  {
    seq(|parts|, i requires 0 <= i < |parts| => Strip(parts[i]))
  }

  /** The first `n` characters are cut into closed parts and a current one. */
  ghost predicate CutSoFar(sel: string, n: nat, parts: seq<string>, cur: string)
    requires n <= |sel|
  {
    && OneSelector(cur) && Joined(parts + [cur]) == sel[..n]
    && forall i | 0 <= i < |parts| :: OneSelector(parts[i]) && Depth(parts[i]) == 0
  }

  lemma CutHere(sel: string, n: nat, parts: seq<string>, cur: string)
    requires n < |sel| && CutSoFar(sel, n, parts, cur) && sel[n] == ',' && Depth(cur) == 0
    ensures CutSoFar(sel, n + 1, parts + [cur], "")
  {
    assert sel[..n + 1] == sel[..n] + ",";
    JoinedMore(parts, cur);
  }

  lemma GoOn(sel: string, n: nat, parts: seq<string>, cur: string)
    requires n < |sel| && CutSoFar(sel, n, parts, cur) && !(sel[n] == ',' && Depth(cur) == 0)
    ensures CutSoFar(sel, n + 1, parts, cur + [sel[n]])
    ensures Depth(cur + [sel[n]]) == Depth(cur) + Opens(sel[n])
  {
    assert sel[..n + 1] == sel[..n] + [sel[n]];
    JoinedLonger(parts, cur, sel[n]);
    Longer(cur, sel[n]);
  }

  method TopSplit(sel: string) returns (out: seq<string>)
    ensures exists parts :: IsTopSplit(sel, parts) && out == Stripped(parts)
  {
    out := [];
    ghost var parts: seq<string> := [];
    var depth, cur := 0, "";
    for n := 0 to |sel|
      invariant depth == Depth(cur) && CutSoFar(sel, n, parts, cur)
      invariant out == Stripped(parts)
    {
      var ch := sel[n];
      depth := depth + Opens(ch);
      if ch == ',' && depth == 0 {
        out := out + [Strip(cur)];
        CutHere(sel, n, parts, cur);
        StrippedMore(parts, cur);
        parts, cur := parts + [cur], "";
      } else {
        GoOn(sel, n, parts, cur);
        cur := cur + [ch];
      }
    }
    assert sel[..|sel|] == sel;
    out := out + [Strip(cur)];
    StrippedMore(parts, cur);
    assert IsTopSplit(sel, parts + [cur]);
  }

  lemma StrippedMore(parts: seq<string>, cur: string)
    ensures Stripped(parts + [cur]) == Stripped(parts) + [Strip(cur)]
  {
  }

  lemma JoinedMore(parts: seq<string>, cur: string)
    ensures Joined(parts + [cur] + [""]) == Joined(parts + [cur]) + ","
  {
    assert (parts + [cur] + [""])[..|parts| + 1] == parts + [cur];
  }

  lemma JoinedLonger(parts: seq<string>, cur: string, ch: char)
    ensures Joined(parts + [cur + [ch]]) == Joined(parts + [cur]) + [ch]
  {
    assert (parts + [cur])[..|parts|] == parts && (parts + [cur + [ch]])[..|parts|] == parts;
  }

  lemma Longer(cur: string, ch: char)
    requires OneSelector(cur) && !(ch == ',' && Depth(cur) + Opens(ch) == 0)
    ensures OneSelector(cur + [ch]) && Depth(cur + [ch]) == Depth(cur) + Opens(ch)
  {
    var longer := cur + [ch];
    assert longer[..|cur|] == cur;
    forall i | 0 <= i < |longer| && longer[i] == ',' ensures Depth(longer[..i]) != 0 {
      if i < |cur| { assert longer[..i] == cur[..i]; }
    }
  }

  /** That is the only such cut: two cuts of one text have the same last part,
      and so are the same. */
  lemma {:induction false} TopSplitIsUnique(sel: string, one: seq<string>, two: seq<string>)
    requires IsTopSplit(sel, one) && IsTopSplit(sel, two)
    ensures one == two
    decreases |one|
  {
    var a := FirstPart(one);
    var b := FirstPart(two);
    var first, other := one[0], two[0];
    FirstNotShorter(sel, one, two);
    FirstNotShorter(sel, two, one);
    assert first == sel[..|first|] && other == sel[..|other|];
    assert first == other;
    if |one| == 1 || |two| == 1 {
      assert |one| == 1 <==> |sel| == |first|;
      assert |two| == 1 <==> |sel| == |other|;
      assert one == [first] && two == [other];
    } else {
      assert IsTopSplit(sel[|first| + 1..], one[1..]);
      assert IsTopSplit(sel[|first| + 1..], two[1..]);
      TopSplitIsUnique(sel[|first| + 1..], one[1..], two[1..]);
      assert one == [first] + one[1..] && two == [other] + two[1..];
    }
  }

  /** The first part opens the text, followed by a comma unless it is all. */
  lemma {:induction false} FirstPart(parts: seq<string>) returns (n: nat)
    requires parts != []
    ensures n == |parts[0]| && n <= |Joined(parts)| && Joined(parts)[..n] == parts[0]
    ensures |parts| == 1 <==> n == |Joined(parts)|
    ensures |parts| > 1 ==> Joined(parts)[n] == ',' && Joined(parts)[n + 1..] == Joined(parts[1..])
  {
    n := |parts[0]|;
    if |parts| > 1 {
      var init := parts[..|parts| - 1];
      var m := FirstPart(init);
      assert Joined(parts) == Joined(init) + "," + parts[|parts| - 1];
      if |parts| == 2 {
        assert parts[1..] == [parts[1]];
        assert Joined(init) == parts[0];
      } else {
        assert parts[1..][..|parts| - 2] == init[1..];
        assert Joined(parts)[n + 1..] == Joined(init)[n + 1..] + "," + parts[|parts| - 1];
      }
    }
  }

  /** No cut leaves a first part shorter than another cut's. */
  lemma FirstNotShorter(sel: string, one: seq<string>, two: seq<string>)
    requires IsTopSplit(sel, one) && IsTopSplit(sel, two)
    ensures |one[0]| >= |two[0]|
  {
    var n := FirstPart(one);
    var m := FirstPart(two);
    forall i | 0 <= i < m && sel[i] == ',' ensures Depth(sel[..i]) != 0 {
      assert two[0][i] == sel[..m][i] && two[0][..i] == sel[..i];
    }
    if |one| > 1 { assert Depth(sel[..n]) == 0; }
  }
}
