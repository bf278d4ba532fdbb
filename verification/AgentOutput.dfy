/**
 Taking the JSON reply out of an agent's output: directly, out of a code fence,
 or as the first brace-balanced object; from the final message first and then
 from the stream; and draining the stream under a byte cap.

 Source: kstrl/agents/agent_output.py.
 */
module AgentOutput {
  import opened Checks
  import opened Text

  /** The JSON parser (None for a text it refuses) and the bodies of the code
      fences a text holds. */
  datatype Reader<T> = Reader(parse: string -> Option<T>, fences: string -> seq<string>)

  // --- The first object ---------------------------------------------------------------

  function Opens(c: char): int { if c == '{' then 1 else if c == '}' then -1 else 0 }

  /** How many braces are open after the text. */
  function Depth(s: string): int {
    if s == [] then 0 else Depth(s[..|s| - 1]) + Opens(s[|s| - 1])
  }

  lemma {:induction false} DepthCounts(s: string)
    ensures Depth(s) + multiset(s)['}'] == multiset(s)['{']
  {
    if s != [] {
      DepthCounts(s[..|s| - 1]);
      assert s == s[..|s| - 1] + [s[|s| - 1]];
    }
  }

  /** The text holds an object: it opens at the first brace and closes where
      the depth first returns to zero. */
  ghost predicate IsFirstObject(s: string, from: nat, to: nat) {
    && from < to <= |s| && s[from] == '{'
    && (forall i | 0 <= i < from :: s[i] != '{')
    && Depth(s[from..to]) == 0
    && (forall k | from < k < to :: Depth(s[from..k]) != 0)
  }

  /** There is only one such slice. */
  lemma FirstObjectIsUnique(s: string, from: nat, to: nat, from': nat, to': nat)
    requires IsFirstObject(s, from, to) && IsFirstObject(s, from', to')
    ensures from == from' && to == to'
  {
    assert from == from';
  }

  lemma DepthMore(s: string, from: nat, i: nat)
    requires from <= i < |s|
    ensures Depth(s[from..i + 1]) == Depth(s[from..i]) + Opens(s[i])
  {
    assert s[from..i + 1][..i - from] == s[from..i];
  }

  /** The scan for the object, character by character. */
  method ScanObject(s: string) returns (found: Option<string>)
    ensures found.Some? ==> exists from: nat, to: nat :: IsFirstObject(s, from, to) && found.value == s[from..to]
    ensures found.None? ==> forall from: nat, to: nat :: !IsFirstObject(s, from, to)
  {
    var from := 0;
    while from < |s| && s[from] != '{'
      invariant 0 <= from <= |s| && forall i | 0 <= i < from :: s[i] != '{'
    {
      from := from + 1;
    }
    if from == |s| { return None; }
    var depth := 0;
    assert s[from..from] == [];
    for i := from to |s|
      invariant depth == Depth(s[from..i])
      invariant i == from || depth > 0
      invariant forall k | from < k <= i :: Depth(s[from..k]) != 0
    {
      DepthMore(s, from, i);
      if s[i] == '{' {
        depth := depth + 1;
      } else if s[i] == '}' {
        depth := depth - 1;
        if depth == 0 {
          assert IsFirstObject(s, from, i + 1);
          return Some(s[from..i + 1]);
        }
      }
    }
    forall a: nat, b: nat ensures !IsFirstObject(s, a, b) {
    }
    return None;
  }

  ghost function FirstObject(s: string): (found: Option<string>) {
    if exists from: nat, to: nat :: IsFirstObject(s, from, to) then
      var from: nat, to: nat :| IsFirstObject(s, from, to);
      Some(s[from..to])
    else None
  }

  lemma FirstObjectIs(s: string, from: nat, to: nat)
    requires IsFirstObject(s, from, to)
    ensures FirstObject(s) == Some(s[from..to])
  {
    forall a: nat, b: nat | IsFirstObject(s, a, b) ensures a == from && b == to {
      FirstObjectIsUnique(s, from, to, a, b);
    }
  }

  // --- extract_json ---------------------------------------------------------------------

  /** The first text that parses. */
  function FirstParsed<T>(r: Reader<T>, texts: seq<string>): Option<T> {
    if texts == [] then None
    else if r.parse(Strip(texts[0])).Some? then r.parse(Strip(texts[0]))
    else FirstParsed(r, texts[1..])
  }

  /** What a text is read as: itself, else its first fence that parses, else
      its first slice. */
  ghost function Extracted<T>(r: Reader<T>, text: string): Option<T> {
    var s := Strip(text);
    if r.parse(s).Some? then r.parse(s)
    else if FirstParsed(r, r.fences(s)).Some? then FirstParsed(r, r.fences(s))
    else if FirstObject(s).Some? then r.parse(FirstObject(s).value)
    else None
  }

  /** A text that parses is its own value. */
  lemma WholeTextFirst<T>(r: Reader<T>, text: string)
    requires r.parse(Strip(text)).Some?
    ensures Extracted(r, text) == r.parse(Strip(text))
  {
  }

  /** Otherwise the first fence that parses gives the value. */
  lemma FenceNext<T>(r: Reader<T>, text: string, i: nat)
    requires r.parse(Strip(text)).None? && i < |r.fences(Strip(text))| && r.parse(Strip(r.fences(Strip(text))[i])).Some?
    requires forall j | 0 <= j < i :: r.parse(Strip(r.fences(Strip(text))[j])).None?
    ensures Extracted(r, text) == r.parse(Strip(r.fences(Strip(text))[i]))
  {
    FirstFence(r, r.fences(Strip(text)), i);
  }

  lemma {:induction false} FirstFence<T>(r: Reader<T>, texts: seq<string>, i: nat)
    requires i < |texts| && r.parse(Strip(texts[i])).Some?
    requires forall j | 0 <= j < i :: r.parse(Strip(texts[j])).None?
    ensures FirstParsed(r, texts) == r.parse(Strip(texts[i]))
    decreases i
  {
    if i > 0 { FirstFence(r, texts[1..], i - 1); }
  }

  lemma {:induction false} NoFence<T>(r: Reader<T>, texts: seq<string>)
    requires forall j | 0 <= j < |texts| :: r.parse(Strip(texts[j])).None?
    ensures FirstParsed(r, texts).None?
    decreases |texts|
  {
    if texts != [] { NoFence(r, texts[1..]); }
  }

  /** Otherwise the first object gives it, whether it parses or not. */
  lemma ObjectNext<T>(r: Reader<T>, text: string, from: nat, to: nat)
    requires r.parse(Strip(text)).None? && IsFirstObject(Strip(text), from, to)
    requires forall j | 0 <= j < |r.fences(Strip(text))| :: r.parse(Strip(r.fences(Strip(text))[j])).None?
    ensures Extracted(r, text) == r.parse(Strip(text)[from..to])
  {
    NoFence(r, r.fences(Strip(text)));
    FirstObjectIs(Strip(text), from, to);
  }

  /** Otherwise there is none. */
  lemma NothingElse<T>(r: Reader<T>, text: string)
    requires r.parse(Strip(text)).None? && !exists from: nat, to: nat :: IsFirstObject(Strip(text), from, to)
    requires forall j | 0 <= j < |r.fences(Strip(text))| :: r.parse(Strip(r.fences(Strip(text))[j])).None?
    ensures Extracted(r, text).None?
  {
    NoFence(r, r.fences(Strip(text)));
  }

  method ExtractJson<T>(r: Reader<T>, text: string) returns (value: Option<T>)
    ensures value == Extracted(r, text)
  {
    var s := Strip(text);
    value := r.parse(s);
    if value.Some? { return; }
    var fences := r.fences(s);
    for i := 0 to |fences|
      invariant FirstParsed(r, fences) == FirstParsed(r, fences[i..])
    {
      value := r.parse(Strip(fences[i]));
      if value.Some? { return; }
      assert fences[i..][1..] == fences[i + 1..];
    }
    assert fences[|fences|..] == [];
    var slice := ScanObject(s);
    if slice.None? { return None; }
    ghost var from: nat, to: nat :| IsFirstObject(s, from, to) && slice.value == s[from..to];
    FirstObjectIs(s, from, to);
    value := r.parse(slice.value);
  }

  // --- The two paths ----------------------------------------------------------------------

  /** The text handed on: the final message if it holds JSON, else the stream.
      "" stands for no final message. */
  method SelectAgentOutput<T>(r: Reader<T>, final: string, streamed: string) returns (text: string)
    ensures text == Selected(r, final, streamed)
    ensures text == if final == "" then streamed else if Extracted(r, final).Some? then final else streamed
  {
    if final == "" { return streamed; }
    var value := ExtractJson(r, final);
    text := if value.None? then streamed else final;
  }

  ghost function Selected<T>(r: Reader<T>, final: string, streamed: string): string {
    if final != "" && Extracted(r, final).Some? then final else streamed
  }

  /** The value of the first candidate that has one: the final message, then
      the stream when it is another text. */
  method ExtractAgentJson<T>(r: Reader<T>, final: string, streamed: string) returns (value: Option<T>)
    ensures value == FromCandidates(r, final, streamed)
    ensures final != "" && Extracted(r, final).Some? ==> value == Extracted(r, final)
    ensures (final == "" || Extracted(r, final).None?) && streamed != "" && streamed != final ==>
              value == Extracted(r, streamed)
    ensures (final == "" || Extracted(r, final).None?) && (streamed == "" || streamed == final) ==> value.None?
  {
    var candidates := [];
    if final != "" { candidates := candidates + [final]; }
    if streamed != "" && streamed != final { candidates := candidates + [streamed]; }
    assert final != "" ==> candidates[0] == final;
    assert streamed != "" && streamed != final ==> candidates[|candidates| - 1] == streamed;
    for i := 0 to |candidates|
      invariant forall k | 0 <= k < i :: Extracted(r, candidates[k]).None?
    {
      value := ExtractJson(r, candidates[i]);
      if value.Some? { return; }
    }
    return None;
  }

  ghost function FromCandidates<T>(r: Reader<T>, final: string, streamed: string): Option<T> {
    if final != "" && Extracted(r, final).Some? then Extracted(r, final)
    else if streamed != "" && streamed != final then Extracted(r, streamed)
    else None
  }

  /** The two reply paths agree on every final message and stream, in success
      and in value, iff an empty text holds no JSON. */
  lemma PathsAgreeIff<T(!new)>(r: Reader<T>)
    ensures (forall final, streamed :: Extracted(r, Selected(r, final, streamed)) == FromCandidates(r, final, streamed))
            <==> Extracted(r, "").None?
  {
    if Extracted(r, "").None? {
      forall final, streamed
        ensures Extracted(r, Selected(r, final, streamed)) == FromCandidates(r, final, streamed)
      {
      }
    } else {
      assert Extracted(r, Selected(r, "", "")) != FromCandidates(r, "", "");
    }
  }

  /** And it holds none when the parser refuses the empty text and no fence is
      found in it. */
  lemma EmptyHoldsNothing<T>(r: Reader<T>)
    requires r.parse("").None? && r.fences("") == []
    ensures Extracted(r, "").None?
  {
    assert Strip("") == "";
    forall from: nat, to: nat ensures !IsFirstObject("", from, to) {
    }
  }

  // --- collect_agent_output ------------------------------------------------------------------

  datatype Collected = Lines(lines: seq<string>) | TooLarge(chars: nat, count: nat) | TimedOut

  /** What the cap is compared with: the characters of the lines and one for
      each newline. */
  function Chars(lines: seq<string>): nat {
    if lines == [] then 0 else Chars(lines[..|lines| - 1]) + |lines[|lines| - 1]| + 1
  }

  lemma CharsMore(lines: seq<string>, i: nat)
    requires i < |lines|
    ensures Chars(lines[..i + 1]) == Chars(lines[..i]) + |lines[i]| + 1
  {
    assert lines[..i + 1][..i] == lines[..i];
  }

  lemma {:induction false} CharsGrow(lines: seq<string>, i: nat, j: nat)
    requires i <= j <= |lines|
    ensures Chars(lines[..i]) <= Chars(lines[..j])
  {
    if i < j {
      CharsGrow(lines, i, j - 1);
      assert lines[..j][..j - 1] == lines[..j - 1];
    }
  }

  /** How many of the first `n` lines an observer is given. */
  function Observed(lines: seq<string>, n: nat, fails: string -> bool): (seen: nat)
    requires n <= |lines|
    ensures seen <= n
  {
    if n == 0 then 0
    else
      var before := Observed(lines, n - 1, fails);
      if before < n - 1 || (n > 1 && fails(lines[n - 2])) then before else n
  }

  /** An observer is given every line, or every line up to the first that makes
      it fail. */
  lemma {:induction false} ObservedUpToFailure(lines: seq<string>, n: nat, fails: string -> bool)
    requires n <= |lines|
    ensures var seen := Observed(lines, n, fails);
            && seen <= n && (seen < n ==> seen > 0 && fails(lines[seen - 1]))
            && forall i | 0 <= i < seen - 1 :: !fails(lines[i])
  {
    if n > 0 { ObservedUpToFailure(lines, n - 1, fails); }
  }

  /** Drain the stream. A line over the cap stops it, a killed call returns no
      line, and an observer that fails is not called again. */
  method CollectAgentOutput(lines: seq<string>, cap: nat, timedOut: bool, fails: string -> bool)
    returns (got: Collected, seen: nat)
    ensures got.TooLarge? <==> StoppedByChars(lines, cap)
    ensures !got.TooLarge? ==>
            got == (if timedOut then TimedOut else Lines(lines)) && seen == Observed(lines, |lines|, fails)
    ensures got.TooLarge? ==> 0 < got.count <= |lines| && seen == Observed(lines, got.count, fails)
    ensures got.TooLarge? ==> got.chars == Chars(lines[..got.count]) > cap >= Chars(lines[..got.count - 1])
  {
    assert lines[..|lines|] == lines;
    var output: seq<string>, total, watching := [], 0, true;
    seen := 0;
    for i := 0 to |lines|
      invariant output == lines[..i] && total == Chars(lines[..i]) <= cap
      invariant seen == Observed(lines, i, fails)
      invariant watching <==> seen == i && (i == 0 || !fails(lines[i - 1]))
    {
      CharsMore(lines, i);
      CharsGrow(lines, i + 1, |lines|);
      assert lines[..i + 1] == lines[..i] + [lines[i]];
      output := output + [lines[i]];
      if watching {
        seen := seen + 1;
        watching := !fails(lines[i]);
      }
      total := total + |lines[i]| + 1;
      if total > cap { return TooLarge(total, i + 1), seen; }
    }
    got := if timedOut then TimedOut else Lines(output);
  }

  // --- The cap in bytes ----------------------------------------------------------------------

  /** The bytes UTF-8 takes for one character. */
  function Utf8Char(c: char): (n: nat)
    ensures 1 <= n <= 4 && (n == 1 <==> c as int < 0x80)
  {
    if c as int < 0x80 then 1 else if c as int < 0x800 then 2 else if c as int < 0x10000 then 3 else 4
  }

  /** It is the fewest bytes whose payload holds the character: 7, 11, 16 or
      21 bits. */
  lemma Utf8IsShortest(c: char)
    ensures var payload := map[0 := 0, 1 := 0x80, 2 := 0x800, 3 := 0x1_0000, 4 := 0x20_0000];
            payload[Utf8Char(c) - 1] <= c as int < payload[Utf8Char(c)]
  {
  }

  function Utf8Line(line: string): nat {
    if line == "" then 0 else Utf8Line(line[..|line| - 1]) + Utf8Char(line[|line| - 1])
  }

  /** The bytes of a stream, each line with its newline. */
  function Utf8(lines: seq<string>): nat {
    if lines == [] then 0 else Utf8(lines[..|lines| - 1]) + Utf8Line(lines[|lines| - 1]) + 1
  }

  /** The stream is stopped by a cap, counted in characters and in bytes. */
  predicate StoppedByChars(lines: seq<string>, cap: nat) { Chars(lines) > cap }
  predicate StoppedByBytes(lines: seq<string>, cap: nat) { Utf8(lines) > cap }

  predicate AsciiLine(line: string) {
    forall i | 0 <= i < |line| :: line[i] as int < 0x80
  }

  predicate Ascii(lines: seq<string>) {
    forall line | line in lines :: AsciiLine(line)
  }

  lemma {:induction false} LineBounds(line: string)
    ensures |line| <= Utf8Line(line) <= 4 * |line|
    ensures Utf8Line(line) == |line| <==> AsciiLine(line)
  {
    if line != "" {
      var init, last := line[..|line| - 1], line[|line| - 1];
      assert line == init + [last];
      LineBounds(init);
    }
  }

  /** A stream takes at least a byte and at most four for a character, and
      exactly one throughout iff it is ASCII. */
  lemma {:induction false} StreamBounds(lines: seq<string>)
    ensures Chars(lines) <= Utf8(lines) <= 4 * Chars(lines)
    ensures Utf8(lines) == Chars(lines) <==> Ascii(lines)
  {
    if lines != [] {
      var init, last := lines[..|lines| - 1], lines[|lines| - 1];
      assert lines == init + [last];
      StreamBounds(init);
      LineBounds(last);
    }
  }

  /** The cap is documented in bytes and compared with characters. The two
      caps stop the same streams, whatever the cap, iff the stream is ASCII. */
  lemma CapIsInBytesIff(lines: seq<string>)
    ensures (forall cap: nat :: StoppedByChars(lines, cap) <==> StoppedByBytes(lines, cap)) <==> Ascii(lines)
  {
    StreamBounds(lines);
    if !Ascii(lines) {
      assert !StoppedByChars(lines, Chars(lines)) && StoppedByBytes(lines, Chars(lines));
    }
  }

  /** At one cap the code lets a stream through that the documented cap stops
      iff its characters fit and its bytes do not, and never the other way. */
  lemma OverlongIff(lines: seq<string>, cap: nat)
    ensures (StoppedByChars(lines, cap) != StoppedByBytes(lines, cap)) <==> Chars(lines) <= cap < Utf8(lines)
    ensures StoppedByChars(lines, cap) ==> StoppedByBytes(lines, cap)
  {
    StreamBounds(lines);
  }

  lemma {:induction false} AccentedLine(n: nat)
    ensures Utf8Line(seq(n, i => '\U{e9}')) == 2 * n
  {
    var line := seq(n, i => '\U{e9}');
    if n > 0 {
      assert line[..n - 1] == seq(n - 1, i => '\U{e9}');
      AccentedLine(n - 1);
    }
  }

  /** For every cap of two or more, the five megabytes of the source among
      them, one line of accented letters fits the cap in characters and takes
      nearly twice as many bytes. */
  lemma OverlongStreamIsReturned(cap: nat) returns (lines: seq<string>)
    requires cap >= 2
    ensures Chars(lines) == cap && Utf8(lines) == 2 * cap - 1 > cap
  {
    var line := seq(cap - 1, i => '\U{e9}');
    lines := [line];
    assert lines[..0] == [];
    AccentedLine(cap - 1);
  }
}
