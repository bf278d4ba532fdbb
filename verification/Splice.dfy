/**
 Splicing generated sections into the README between their markers, and why
 rendering what was rendered changes nothing.

 Source: scripts/gen_docs.py, _marker, _splice and render_readme.
 */
module Splice {
  import opened Checks

  predicate OccursAt(text: string, word: string, i: nat) {
    i + |word| <= |text| && text[i..i + |word|] == word
  }

  predicate Occurs(text: string, word: string) {
    exists i | 0 <= i <= |text| :: OccursAt(text, word, i)
  }

  /** The first occurrence at or after `i`. */
  function FindFrom(text: string, word: string, i: nat): (found: Option<nat>)
    requires i <= |text|
    ensures found.Some? ==> i <= found.value && OccursAt(text, word, found.value)
    ensures forall k: nat | i <= k && (found.Some? ==> k < found.value) :: !OccursAt(text, word, k)
    decreases |text| - i
  {
    if OccursAt(text, word, i) then Some(i)
    else if i == |text| then None
    else FindFrom(text, word, i + 1)
  }

  function Find(text: string, word: string): (found: Option<nat>)
    ensures found.Some? <==> Occurs(text, word)
    ensures found.Some? ==>
            OccursAt(text, word, found.value) && forall k: nat | k < found.value :: !OccursAt(text, word, k)
  {
    FindFrom(text, word, 0)
  }

  lemma FindIs(text: string, word: string, i: nat)
    requires OccursAt(text, word, i) && forall k: nat | k < i :: !OccursAt(text, word, k)
    ensures Find(text, word) == Some(i)
  {
    assert Occurs(text, word);
  }

  // --- Splicing ------------------------------------------------------------------------

  function Marker(name: string, end: bool): string {
    "<!-- " + (if end then "END" else "BEGIN") + " GENERATED: " + name + " -->"
  }

  datatype Spliced = Text(text: string) | MissingMarkers | EndBeforeBegin

  function SpliceIn(text: string, name: string, generated: string): Spliced {
    var begin, end := Marker(name, false), Marker(name, true);
    if Find(text, begin).None? || Find(text, end).None? then MissingMarkers
    else
      var b := Find(text, begin).value;
      var head, rest := text[..b], text[b + |begin|..];
      match Find(rest, end)
      case None => EndBeforeBegin
      case Some(e) => Text(Section(head, name, "\n" + generated, rest[e + |end|..]))
  }

  /** Text with one section: what is before it, its body, what is after it. */
  function Section(head: string, name: string, body: string, tail: string): string {
    head + Marker(name, false) + (body + Marker(name, true) + tail)
  }

  function RenderReadme(text: string, cli: string, config: string): Spliced {
    match SpliceIn(text, "cli-reference", cli)
    case Text(once) => SpliceIn(once, "config-reference", config)
    case failed => failed
  }

  // --- Markers do not overlap ------------------------------------------------------------

  /** A word that opens with '<', closes with '>', and holds neither inside. */
  predicate SelfDelimiting(word: string) {
    && |word| >= 2
    && (forall i | 0 <= i < |word| :: word[i] == '<' <==> i == 0)
    && (forall i | 0 <= i < |word| :: word[i] == '>' <==> i == |word| - 1)
  }

  predicate PlainName(name: string) {
    '<' !in name && '>' !in name
  }

  lemma MarkerIsSelfDelimiting(name: string, end: bool)
    requires PlainName(name)
    ensures SelfDelimiting(Marker(name, end))
  {
    var opening := "<!-- " + (if end then "END" else "BEGIN") + " GENERATED: ";
    var m := Marker(name, end);
    assert m == opening + name + " -->";
    forall i | 0 <= i < |m|
      ensures m[i] == '<' <==> i == 0
      ensures m[i] == '>' <==> i == |m| - 1
    {
      if |opening| <= i < |opening| + |name| {
        assert m[i] == name[i - |opening|];
      } else if i >= |opening| + |name| {
        assert m[i] == " -->"[i - |opening| - |name|];
      } else {
        assert m[i] == opening[i];
      }
    }
  }

  /** A marker's text tells its name. */
  lemma MarkerTellsName(one: string, two: string, end: bool)
    requires Marker(one, end) == Marker(two, end)
    ensures one == two
  {
    var opening := "<!-- " + (if end then "END" else "BEGIN") + " GENERATED: ";
    assert Marker(one, end)[|opening|..] == one + " -->";
    assert Marker(two, end)[|opening|..] == two + " -->";
    assert one == (one + " -->")[..|one|];
    assert two == (two + " -->")[..|two|];
  }

  lemma KindsDiffer(one: string, two: string)
    ensures Marker(one, false) != Marker(two, true)
  {
    assert Marker(one, false)[5] == 'B' && Marker(two, true)[5] == 'E';
  }

  lemma NoOverlap(t: string, m: string, p: nat, n: string, q: nat)
    requires SelfDelimiting(m) && SelfDelimiting(n) && OccursAt(t, m, p) && OccursAt(t, n, q) && p < q
    ensures p + |m| <= q
  {
    assert t[q] == '<' by { assert t[q..q + |n|][0] == n[0]; }
    forall k | p < k < p + |m| ensures t[k] != '<' {
      assert t[p..p + |m|][k - p] == m[k - p];
    }
  }

  lemma SameStartSameWord(t: string, m: string, n: string, p: nat)
    requires SelfDelimiting(m) && SelfDelimiting(n) && OccursAt(t, m, p) && OccursAt(t, n, p)
    ensures m == n
  {
    var k := if |m| < |n| then |m| - 1 else |n| - 1;
    assert t[p..p + |m|][k] == t[p..p + |n|][k];
  }

  /** An occurrence of one self-delimiting word in a text around another lies
      before it, is it, or lies after it. */
  lemma OccurrenceSplits(a: string, m: string, b: string, n: string, p: nat)
    requires SelfDelimiting(m) && SelfDelimiting(n) && OccursAt(a + m + b, n, p)
    ensures || (p + |n| <= |a| && OccursAt(a, n, p))
            || (p == |a| && n == m)
            || (p >= |a| + |m| && OccursAt(b, n, p - |a| - |m|))
  {
    var t := a + m + b;
    assert t[|a|..|a| + |m|] == m;
    if p < |a| {
      NoOverlap(t, n, p, m, |a|);
      assert a[p..p + |n|] == t[p..p + |n|];
    } else if p == |a| {
      SameStartSameWord(t, m, n, p);
    } else {
      NoOverlap(t, m, |a|, n, p);
      assert b[p - |a| - |m|..p - |a| - |m| + |n|] == t[p..p + |n|];
    }
  }

  /** The first occurrence of a marker is the one nothing before it hides. */
  lemma FindHere(a: string, m: string, b: string)
    requires SelfDelimiting(m) && !Occurs(a, m)
    ensures Find(a + m + b, m) == Some(|a|)
  {
    var t := a + m + b;
    assert t[|a|..|a| + |m|] == m;
    forall k: nat | k < |a| ensures !OccursAt(t, m, k) {
      if OccursAt(t, m, k) { OccurrenceSplits(a, m, b, m, k); }
    }
    FindIs(t, m, |a|);
  }

  lemma NotAround(a: string, m: string, b: string, n: string)
    requires SelfDelimiting(m) && SelfDelimiting(n) && m != n && !Occurs(a, n) && !Occurs(b, n)
    ensures !Occurs(a + m + b, n)
  {
    if Occurs(a + m + b, n) {
      var p :| 0 <= p <= |a + m + b| && OccursAt(a + m + b, n, p);
      OccurrenceSplits(a, m, b, n, p);
      assert false;
    }
  }

  /** A newline before a text adds no marker to it. */
  lemma NewlineAddsNothing(text: string, n: string)
    requires SelfDelimiting(n)
    ensures Occurs("\n" + text, n) <==> Occurs(text, n)
  {
    var t := "\n" + text;
    if Occurs(t, n) {
      var p :| 0 <= p <= |t| && OccursAt(t, n, p);
      assert t[p] == n[0];
      assert text[p - 1..p - 1 + |n|] == t[p..p + |n|];
      assert OccursAt(text, n, p - 1);
    }
    if Occurs(text, n) {
      var p :| 0 <= p <= |text| && OccursAt(text, n, p);
      assert t[p + 1..p + 1 + |n|] == text[p..p + |n|];
      assert OccursAt(t, n, p + 1);
    }
  }

  // --- One section -------------------------------------------------------------------------

  /** Splicing replaces the body of the section and nothing else. */
  lemma SpliceReplacesBody(head: string, name: string, body: string, tail: string, generated: string)
    requires PlainName(name) && !Occurs(head, Marker(name, false)) && !Occurs(body, Marker(name, true))
    ensures SpliceIn(Section(head, name, body, tail), name, generated) ==
            Text(Section(head, name, "\n" + generated, tail))
  {
    var begin, end := Marker(name, false), Marker(name, true);
    MarkerIsSelfDelimiting(name, false);
    MarkerIsSelfDelimiting(name, true);
    Pieces(head, begin, body, end, tail);
    FindHere(head, begin, body + end + tail);
    FindHere(body, end, tail);
    OccursInside(head + begin + body, end, tail);
  }

  lemma Pieces(head: string, begin: string, body: string, end: string, tail: string)
    ensures var rest := body + end + tail;
            var text := head + begin + rest;
            && text == (head + begin + body) + end + tail
            && text[..|head|] == head && text[|head| + |begin|..] == rest
            && rest[|body| + |end|..] == tail
  {
  }

  lemma OccursInside(before: string, word: string, after: string)
    ensures Occurs(before + word + after, word)
  {
    var text := before + word + after;
    assert text[|before|..|before| + |word|] == word;
    assert OccursAt(text, word, |before|);
  }

  /** A text around the first occurrence of a word. */
  lemma SplitAtFirst(text: string, word: string) returns (before: string, after: string)
    requires Occurs(text, word) && word != []
    ensures text == before + word + after && !Occurs(before, word)
    ensures Find(text, word) == Some(|before|)
  {
    var i := Find(text, word).value;
    before, after := text[..i], text[i + |word|..];
    NotBeforeFirst(text, word, i);
  }

  /** Every text that can be spliced is such a section. */
  lemma SplicedHasSection(text: string, name: string, generated: string)
    returns (head: string, body: string, tail: string)
    requires SpliceIn(text, name, generated).Text?
    ensures text == Section(head, name, body, tail)
    ensures !Occurs(head, Marker(name, false)) && !Occurs(body, Marker(name, true))
  {
    var rest;
    head, rest := SplitAtFirst(text, Marker(name, false));
    assert text[|head| + |Marker(name, false)|..] == rest;
    body, tail := SplitAtFirst(rest, Marker(name, true));
  }

  lemma NotBeforeFirst(text: string, word: string, i: nat)
    requires i <= |text| && word != [] && forall k: nat | k < i :: !OccursAt(text, word, k)
    ensures !Occurs(text[..i], word)
  {
    forall k | 0 <= k <= |text[..i]| ensures !OccursAt(text[..i], word, k) {
      if OccursAt(text[..i], word, k) {
        assert text[k..k + |word|] == text[..i][k..k + |word|];
        assert OccursAt(text, word, k);
      }
    }
  }

  /** The last splice wins, and so splicing the same text again is a fix-point,
      exactly when the generated text does not hold its own end marker. */
  lemma SpliceIsIdempotentIff(text: string, name: string, generated: string)
    requires PlainName(name) && SpliceIn(text, name, generated).Text?
    ensures SpliceIn(SpliceIn(text, name, generated).text, name, generated) == SpliceIn(text, name, generated) <==>
            !Occurs(generated, Marker(name, true))
  {
    var head, body, tail := SplicedHasSection(text, name, generated);
    SpliceReplacesBody(head, name, body, tail, generated);
    var end := Marker(name, true);
    MarkerIsSelfDelimiting(name, true);
    NewlineAddsNothing(generated, end);
    if !Occurs(generated, end) {
      SpliceReplacesBody(head, name, "\n" + generated, tail, generated);
    } else {
      GrowsWhenItHoldsItsEnd(head, name, tail, generated);
    }
  }

  lemma GrowsWhenItHoldsItsEnd(head: string, name: string, tail: string, generated: string)
    requires PlainName(name) && !Occurs(head, Marker(name, false)) && Occurs("\n" + generated, Marker(name, true))
    ensures var once := Section(head, name, "\n" + generated, tail);
            SpliceIn(once, name, generated).Text? && |SpliceIn(once, name, generated).text| > |once|
  {
    var end := Marker(name, true);
    var g := "\n" + generated;
    var before, after := SplitAtFirst(g, end);
    Regroup(before, end, after, tail);
    SpliceReplacesBody(head, name, before, after + end + tail, generated);
    SectionLength(head, name, g, tail);
    SectionLength(head, name, g, after + end + tail);
  }

  lemma EmptyHoldsNoMarker(name: string, end: bool)
    ensures !Occurs("", Marker(name, end))
  {
    assert |Marker(name, end)| > 0;
  }

  /** A generated text that is its own end marker: splicing an empty section
      twice is not splicing it once. */
  lemma GrowingSpliceHappens(name: string)
    requires PlainName(name)
    ensures var text, end := Section("", name, "", ""), Marker(name, true);
            && SpliceIn(text, name, end).Text?
            && SpliceIn(SpliceIn(text, name, end).text, name, end) != SpliceIn(text, name, end)
  {
    var text, end := Section("", name, "", ""), Marker(name, true);
    EmptyHoldsNoMarker(name, false);
    EmptyHoldsNoMarker(name, true);
    SpliceReplacesBody("", name, "", "", end);
    assert OccursAt(end, end, 0);
    SpliceIsIdempotentIff(text, name, end);
  }

  lemma Regroup(before: string, end: string, after: string, tail: string)
    ensures (before + end + after) + end + tail == before + end + (after + end + tail)
  {
  }

  lemma SectionLength(head: string, name: string, body: string, tail: string)
    ensures |Section(head, name, body, tail)| ==
            |head| + |Marker(name, false)| + |body| + |Marker(name, true)| + |tail|
  {
  }

  // --- Two sections --------------------------------------------------------------------------

  /** A text with two sections in order, neither inside the other. */
  function TwoSections(head: string, one: string, body1: string, middle: string, two: string, body2: string,
                       tail: string)
    : string
  {
    Section(head, one, body1, Section(middle, two, body2, tail))
  }

  /** What makes the sections the ones splicing finds. */
  predicate Ordered(head: string, one: string, body1: string, middle: string, two: string, body2: string) {
    && PlainName(one) && PlainName(two) && one != two
    && !Occurs(head, Marker(one, false)) && !Occurs(body1, Marker(one, true))
    && !Occurs(head, Marker(two, false)) && !Occurs(body1, Marker(two, false)) && !Occurs(middle, Marker(two, false))
    && !Occurs(body2, Marker(two, true))
  }

  lemma SpliceFirst(head: string, one: string, body1: string, middle: string, two: string, body2: string, tail: string,
                    generated: string)
    requires Ordered(head, one, body1, middle, two, body2)
    ensures SpliceIn(TwoSections(head, one, body1, middle, two, body2, tail), one, generated) ==
            Text(TwoSections(head, one, "\n" + generated, middle, two, body2, tail))
  {
    SpliceReplacesBody(head, one, body1, Section(middle, two, body2, tail), generated);
  }

  /** The second section sees the first one as text before it. */
  lemma SecondSection(head: string, one: string, body1: string, middle: string, two: string, body2: string,
                      tail: string)
    requires Ordered(head, one, body1, middle, two, body2)
    ensures var before := Section(head, one, body1, middle);
            && TwoSections(head, one, body1, middle, two, body2, tail) == Section(before, two, body2, tail)
            && !Occurs(before, Marker(two, false))
  {
    var b1, e1, b2 := Marker(one, false), Marker(one, true), Marker(two, false);
    MarkerIsSelfDelimiting(one, false);
    MarkerIsSelfDelimiting(one, true);
    MarkerIsSelfDelimiting(two, false);
    if b1 == b2 { MarkerTellsName(one, two, false); }
    KindsDiffer(two, one);
    NotAround(body1, e1, middle, b2);
    NotAround(head, b1, body1 + e1 + middle, b2);
    var rest := b2 + (body2 + Marker(two, true) + tail);
    assert middle + b2 + (body2 + Marker(two, true) + tail) == middle + rest;
    assert head + b1 + (body1 + e1 + (middle + rest)) == (head + b1 + (body1 + e1 + middle)) + rest;
  }

  lemma SpliceSecond(head: string, one: string, body1: string, middle: string, two: string, body2: string, tail: string,
                     generated: string)
    requires Ordered(head, one, body1, middle, two, body2)
    ensures SpliceIn(TwoSections(head, one, body1, middle, two, body2, tail), two, generated) ==
            Text(TwoSections(head, one, body1, middle, two, "\n" + generated, tail))
  {
    SecondSection(head, one, body1, middle, two, body2, tail);
    SpliceReplacesBody(Section(head, one, body1, middle), two, body2, tail, generated);
    SameShape(head, one, body1, middle, two, "\n" + generated, tail);
  }

  lemma SameShape(head: string, one: string, body1: string, middle: string, two: string, body2: string, tail: string)
    ensures Section(Section(head, one, body1, middle), two, body2, tail) ==
            TwoSections(head, one, body1, middle, two, body2, tail)
  {
    var b1, e1, b2 := Marker(one, false), Marker(one, true), Marker(two, false);
    var rest := b2 + (body2 + Marker(two, true) + tail);
    assert middle + b2 + (body2 + Marker(two, true) + tail) == middle + rest;
    assert head + b1 + (body1 + e1 + (middle + rest)) == (head + b1 + (body1 + e1 + middle)) + rest;
  }

  /** The bodies generated for two sections hold none of the markers that
      would be looked for after them. */
  predicate Clean(one: string, g1: string, two: string, g2: string) {
    !Occurs(g1, Marker(one, true)) && !Occurs(g1, Marker(two, false)) && !Occurs(g2, Marker(two, true))
  }

  lemma StaysOrdered(head: string, one: string, body1: string, middle: string, two: string, body2: string,
                     g1: string, g2: string)
    requires Ordered(head, one, body1, middle, two, body2) && Clean(one, g1, two, g2)
    ensures Ordered(head, one, "\n" + g1, middle, two, body2)
    ensures Ordered(head, one, body1, middle, two, "\n" + g2)
    ensures Ordered(head, one, "\n" + g1, middle, two, "\n" + g2)
  {
    MarkerIsSelfDelimiting(one, true);
    MarkerIsSelfDelimiting(two, false);
    MarkerIsSelfDelimiting(two, true);
    NewlineAddsNothing(g1, Marker(one, true));
    NewlineAddsNothing(g1, Marker(two, false));
    NewlineAddsNothing(g2, Marker(two, true));
  }

  /** The two section splices commute, whichever section comes first, and
      leave everything outside the two bodies alone. */
  lemma SplicesCommute(head: string, one: string, body1: string, middle: string, two: string, body2: string,
                       tail: string, g1: string, g2: string)
    requires Ordered(head, one, body1, middle, two, body2) && Clean(one, g1, two, g2)
    ensures var text := TwoSections(head, one, body1, middle, two, body2, tail);
            var both := TwoSections(head, one, "\n" + g1, middle, two, "\n" + g2, tail);
            && SpliceIn(text, one, g1).Text? && SpliceIn(SpliceIn(text, one, g1).text, two, g2) == Text(both)
            && SpliceIn(text, two, g2).Text? && SpliceIn(SpliceIn(text, two, g2).text, one, g1) == Text(both)
  {
    StaysOrdered(head, one, body1, middle, two, body2, g1, g2);
    SpliceFirst(head, one, body1, middle, two, body2, tail, g1);
    SpliceSecond(head, one, "\n" + g1, middle, two, body2, tail, g2);
    SpliceSecond(head, one, body1, middle, two, body2, tail, g2);
    SpliceFirst(head, one, body1, middle, two, "\n" + g2, tail, g1);
  }

  /** A README with two sections in this order. */
  ghost predicate MarkedIn(text: string, one: string, two: string) {
    exists head, body1, middle, body2, tail ::
      Ordered(head, one, body1, middle, two, body2) &&
      text == TwoSections(head, one, body1, middle, two, body2, tail)
  }

  /** The README has its two sections in one order or the other. */
  ghost predicate WellMarked(text: string) {
    MarkedIn(text, "cli-reference", "config-reference") || MarkedIn(text, "config-reference", "cli-reference")
  }

  /** The generated texts hold no marker of the two sections. */
  predicate NoMarkers(generated: string) {
    && !Occurs(generated, Marker("cli-reference", false)) && !Occurs(generated, Marker("cli-reference", true))
    && !Occurs(generated, Marker("config-reference", false)) && !Occurs(generated, Marker("config-reference", true))
  }

  /** Splicing both sections of a marked text, in either order, gives a text
      that splicing both again leaves alone. */
  lemma BothSplicesAreAFixPoint(text: string, one: string, two: string, g1: string, g2: string) returns (both: string)
    requires MarkedIn(text, one, two) && Clean(one, g1, two, g2)
    ensures MarkedIn(both, one, two)
    ensures SpliceIn(text, one, g1).Text? && SpliceIn(SpliceIn(text, one, g1).text, two, g2) == Text(both)
    ensures SpliceIn(text, two, g2).Text? && SpliceIn(SpliceIn(text, two, g2).text, one, g1) == Text(both)
    ensures SpliceIn(both, one, g1) == Text(both) && SpliceIn(both, two, g2) == Text(both)
  {
    var head, body1, middle, body2, tail :|
      Ordered(head, one, body1, middle, two, body2) &&
      text == TwoSections(head, one, body1, middle, two, body2, tail);
    SplicesCommute(head, one, body1, middle, two, body2, tail, g1, g2);
    both := TwoSections(head, one, "\n" + g1, middle, two, "\n" + g2, tail);
    StaysMarked(head, one, body1, middle, two, body2, tail, g1, g2);
  }

  lemma StaysMarked(head: string, one: string, body1: string, middle: string, two: string, body2: string, tail: string,
                    g1: string, g2: string)
    requires Ordered(head, one, body1, middle, two, body2) && Clean(one, g1, two, g2)
    ensures var both := TwoSections(head, one, "\n" + g1, middle, two, "\n" + g2, tail);
            MarkedIn(both, one, two) && SpliceIn(both, one, g1) == Text(both) && SpliceIn(both, two, g2) == Text(both)
  {
    StaysOrdered(head, one, body1, middle, two, body2, g1, g2);
    var x, y := "\n" + g1, "\n" + g2;
    assert MarkedIn(TwoSections(head, one, x, middle, two, y, tail), one, two);
    SpliceFirst(head, one, x, middle, two, y, tail, g1);
    SpliceSecond(head, one, x, middle, two, y, tail, g2);
  }

  /** Regeneration is a fix-point: for every well-marked README, rendering
      what was rendered gives it back. */
  lemma RenderIsAFixPoint(text: string, cli: string, config: string)
    requires WellMarked(text) && NoMarkers(cli) && NoMarkers(config)
    ensures RenderReadme(text, cli, config).Text?
    ensures WellMarked(RenderReadme(text, cli, config).text)
    ensures RenderReadme(RenderReadme(text, cli, config).text, cli, config) == RenderReadme(text, cli, config)
  {
    if MarkedIn(text, "cli-reference", "config-reference") {
      var _ := BothSplicesAreAFixPoint(text, "cli-reference", "config-reference", cli, config);
    } else {
      var _ := BothSplicesAreAFixPoint(text, "config-reference", "cli-reference", config, cli);
    }
  }

  /** A splice fails iff a marker is missing, or the only end markers stand
      before the first begin marker. */
  lemma SpliceFailsIff(text: string, name: string, generated: string)
    ensures SpliceIn(text, name, generated) == MissingMarkers <==>
            !Occurs(text, Marker(name, false)) || !Occurs(text, Marker(name, true))
    ensures SpliceIn(text, name, generated) == EndBeforeBegin <==>
            && Occurs(text, Marker(name, false)) && Occurs(text, Marker(name, true))
            && var b := Find(text, Marker(name, false)).value;
               !Occurs(text[b + |Marker(name, false)|..], Marker(name, true))
  {
  }

  /** Rendering puts each generated text into its own section, whichever of the
      two comes first, and leaves everything else alone. */
  lemma RenderReplacesBoth(
    head: string, body1: string, middle: string, body2: string, tail: string, cli: string, config: string)
    requires NoMarkers(cli) && NoMarkers(config)
    ensures Ordered(head, "cli-reference", body1, middle, "config-reference", body2) ==>
              RenderReadme(TwoSections(head, "cli-reference", body1, middle, "config-reference", body2, tail),
                           cli, config) ==
              Text(TwoSections(head, "cli-reference", "\n" + cli, middle, "config-reference", "\n" + config, tail))
    ensures Ordered(head, "config-reference", body1, middle, "cli-reference", body2) ==>
              RenderReadme(TwoSections(head, "config-reference", body1, middle, "cli-reference", body2, tail),
                           cli, config) ==
              Text(TwoSections(head, "config-reference", "\n" + config, middle, "cli-reference", "\n" + cli, tail))
  {
    if Ordered(head, "cli-reference", body1, middle, "config-reference", body2) {
      SplicesCommute(head, "cli-reference", body1, middle, "config-reference", body2, tail, cli, config);
    }
    if Ordered(head, "config-reference", body1, middle, "cli-reference", body2) {
      SplicesCommute(head, "config-reference", body1, middle, "cli-reference", body2, tail, config, cli);
    }
  }

  /** The opening of a marker, letter by letter, and where its name stands. */
  lemma MarkerSays(name: string)
    ensures "<!-- BEGIN GENERATED: " <= Marker(name, false)
    ensures "<!-- END GENERATED: " <= Marker(name, true)
    ensures Marker(name, false)[22..] == name + " -->"
    ensures Marker(name, true)[20..] == name + " -->"
  {
    assert "<!-- " + "BEGIN" + " GENERATED: " == "<!-- BEGIN GENERATED: ";
    assert "<!-- " + "END" + " GENERATED: " == "<!-- END GENERATED: ";
  }
}
