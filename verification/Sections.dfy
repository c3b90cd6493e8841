/** Splitting a cleaned document into sections at its h2 and h3 headings. */
module Sections {
  import opened Text

  datatype Heading = Heading(depth: nat, title: string)

  datatype Section = Section(heading: Option<string>, level: nat, body: string)

  function Hashes(s: string): (n: nat)
    ensures n <= |s| && (forall i | 0 <= i < n :: s[i] == '#') && (n < |s| ==> s[n] != '#')
  {
    if s != "" && s[0] == '#' then 1 + Hashes(s[1..]) else 0
  }

  function HashMarks(n: nat): string {
    if n == 0 then "" else "#" + HashMarks(n - 1)
  }

  /** `^(#{1,6})\s+(.*)$` on the stripped line: at most six hashes, then white space. */
  function ParseHeading(line: string): Option<Heading> {
    var t := Strip(line);
    var n := Hashes(t);
    if 1 <= n <= 6 && n < |t| && IsSpace(t[n]) then Some(Heading(n, Strip(t[n..]))) else None
  }

  /** A heading of depth 1 to 3 ends the section before it; deeper ones are text. */
  predicate IsBreak(line: string) {
    ParseHeading(line).Some? && ParseHeading(line).value.depth <= 3
  }

  /** The section opened by a heading line: h1 only repeats the document title. */
  function Opens(line: string): (h: (Option<string>, nat))
    requires IsBreak(line)
  {
    var h := ParseHeading(line).value;
    if h.depth == 1 then (None, 0) else (Some(h.title), h.depth)
  }

  predicate Truthy(s: Section) {
    s.body != "" || (s.heading.Some? && s.heading.value != "")
  }

  function Flush(heading: Option<string>, level: nat, buffer: seq<string>): seq<Section> {
    var section := Section(heading, level, Strip(Join("\n", buffer)));
    if Truthy(section) then [section] else []
  }

  function OnlyTruthy(sections: seq<Section>): seq<Section> {
    if sections == [] then []
    else (if Truthy(sections[0]) then [sections[0]] else []) + OnlyTruthy(sections[1..])
  }

  lemma {:induction false} OnlyTruthyConcat(a: seq<Section>, b: seq<Section>)
    ensures OnlyTruthy(a + b) == OnlyTruthy(a) + OnlyTruthy(b)
  {
    if a == [] {
      assert a + b == b;
    } else {
      var h := if Truthy(a[0]) then [a[0]] else [];
      assert (a + b)[1..] == a[1..] + b;
      OnlyTruthyConcat(a[1..], b);
      assert h + (OnlyTruthy(a[1..]) + OnlyTruthy(b)) == h + OnlyTruthy(a[1..]) + OnlyTruthy(b);
    }
  }

  // ---- the text as segments ----------------------------------------------

  /** A run of lines and the heading line above it, if any. */
  datatype Segment = Segment(mark: Option<string>, run: seq<string>)

  /** Cutting the lines above every heading of depth 1 to 3. */
  function Segments(lines: seq<string>): (r: seq<Segment>)
    ensures r != [] && r[0].mark.None?
  {
    if lines == [] then [Segment(None, [])]
    else
      var rest := Segments(lines[1..]);
      if IsBreak(lines[0]) then [Segment(None, []), rest[0].(mark := Some(lines[0]))] + rest[1..]
      else [rest[0].(run := [lines[0]] + rest[0].run)] + rest[1..]
  }

  function LinesOf(segments: seq<Segment>): seq<string> {
    if segments == [] then []
    else
      (if segments[0].mark.Some? then [segments[0].mark.value] else []) + segments[0].run + LinesOf(segments[1..])
  }

  ghost predicate Cut(segments: seq<Segment>) {
    forall i | 0 <= i < |segments| :: CutAt(segments[i], i)
  }

  ghost predicate CutAt(s: Segment, i: nat) {
    && (s.mark.Some? <==> i > 0) && (s.mark.Some? ==> IsBreak(s.mark.value))
    && (forall k | 0 <= k < |s.run| :: !IsBreak(s.run[k]))
  }

  function LinesOfOne(s: Segment): seq<string> {
    (if s.mark.Some? then [s.mark.value] else []) + s.run
  }

  lemma {:induction false} LinesCons(s: Segment, rest: seq<Segment>)
    ensures LinesOf([s] + rest) == LinesOfOne(s) + LinesOf(rest)
  {
    assert ([s] + rest)[1..] == rest;
  }

  /** Every line lies in exactly one segment, in order. */
  lemma {:induction false} SegmentsConserve(lines: seq<string>)
    ensures LinesOf(Segments(lines)) == lines
    decreases |lines|
  {
    if lines != [] {
      SegmentsConserve(lines[1..]);
      var rest := Segments(lines[1..]);
      var first, more := rest[0], rest[1..];
      LinesCons(first, more);
      assert rest == [first] + more && [lines[0]] + lines[1..] == lines;
      if IsBreak(lines[0]) { OpenLines(lines[0], first, more); } else { AddLine(lines[0], first, more); }
    }
  }

  lemma {:induction false} OpenLines(line: string, first: Segment, more: seq<Segment>)
    requires first.mark.None?
    ensures LinesOf([Segment(None, []), first.(mark := Some(line))] + more) == [line] + LinesOf([first] + more)
  {
    var top, next := Segment(None, []), first.(mark := Some(line));
    LinesCons(top, [next] + more);
    LinesCons(next, more);
    LinesCons(first, more);
    assert [top, next] + more == [top] + ([next] + more);
    Append(line, first.run, LinesOf(more));
  }

  lemma {:induction false} AddLine(line: string, first: Segment, more: seq<Segment>)
    requires first.mark.None?
    ensures LinesOf([first.(run := [line] + first.run)] + more) == [line] + LinesOf([first] + more)
  {
    var longer := first.(run := [line] + first.run);
    assert LinesOfOne(longer) == [line] + LinesOfOne(first);
    LinesCons(longer, more);
    LinesCons(first, more);
    Append(line, LinesOfOne(first), LinesOf(more));
  }

  lemma {:induction false} Append(line: string, run: seq<string>, rest: seq<string>)
    ensures [line] + run + rest == [line] + (run + rest)
  {
  }

  /** Only marks are headings of depth 1 to 3, and every segment but the first has one. */
  lemma {:induction false} SegmentsCut(lines: seq<string>)
    ensures Cut(Segments(lines))
    decreases |lines|
  {
    if lines != [] {
      SegmentsCut(lines[1..]);
      var rest, r := Segments(lines[1..]), Segments(lines);
      assert CutAt(rest[0], 0);
      forall i | 0 <= i < |r| ensures CutAt(r[i], i) {
        if IsBreak(lines[0]) {
          if i > 1 { assert CutAt(rest[i - 1], i - 1); }
        } else {
          assert CutAt(rest[i], i);
        }
      }
    }
  }

  /** The section of one segment; a blank run under no title gives none. */
  function SectionOf(s: Segment): seq<Section> {
    if s.mark.Some? && IsBreak(s.mark.value) then
      var (heading, level) := Opens(s.mark.value); Flush(heading, level, s.run)
    else Flush(None, 0, s.run)
  }

  function SectionsOf(segments: seq<Segment>): seq<Section> {
    if segments == [] then [] else SectionOf(segments[0]) + SectionsOf(segments[1..])
  }

  /** The sections of a text. */
  function SectionList(text: string): seq<Section> {
    SectionsOf(Segments(Split(text)))
  }

  // ---- the loop ----------------------------------------------------------

  /** The sections still to come when `buffer` has been collected under a heading. */
  function Ahead(heading: Option<string>, level: nat, buffer: seq<string>, lines: seq<string>): seq<Section> {
    var segments := Segments(lines);
    Flush(heading, level, buffer + segments[0].run) + SectionsOf(segments[1..])
  }

  lemma {:induction false} AheadStep(heading: Option<string>, level: nat, buffer: seq<string>, lines: seq<string>)
    requires lines != []
    ensures Ahead(heading, level, buffer, lines)
         == if IsBreak(lines[0]) then
              Flush(heading, level, buffer) + Ahead(Opens(lines[0]).0, Opens(lines[0]).1, [], lines[1..])
            else Ahead(heading, level, buffer + [lines[0]], lines[1..])
  {
    var rest, r := Segments(lines[1..]), Segments(lines);
    if IsBreak(lines[0]) {
      assert r[1..][1..] == rest[1..] && buffer + [] == buffer && [] + rest[0].run == rest[0].run;
      assert SectionsOf(r[1..]) == SectionOf(r[1]) + SectionsOf(rest[1..]);
    } else {
      assert r[1..] == rest[1..] && buffer + [lines[0]] + rest[0].run == buffer + ([lines[0]] + rest[0].run);
    }
  }

  lemma {:induction false} AheadStart(lines: seq<string>)
    ensures Ahead(None, 0, [], lines) == SectionsOf(Segments(lines))
  {
    assert [] + Segments(lines)[0].run == Segments(lines)[0].run;
  }

  lemma {:induction false} AheadEnd(heading: Option<string>, level: nat, buffer: seq<string>)
    ensures Ahead(heading, level, buffer, []) == Flush(heading, level, buffer)
  {
    assert buffer + [] == buffer && Segments([])[1..] == [];
    assert Flush(heading, level, buffer) + [] == Flush(heading, level, buffer);
  }

  /** The sections still to come before line `i`. */
  function Pending(heading: Option<string>, level: nat, buffer: seq<string>, lines: seq<string>, i: nat): seq<Section>
    requires i <= |lines|
  {
    Ahead(heading, level, buffer, lines[i..])
  }

  lemma {:induction false} PendingStep(heading: Option<string>, level: nat, buffer: seq<string>,
          lines: seq<string>, i: nat)
    requires i < |lines|
    ensures Pending(heading, level, buffer, lines, i)
         == if IsBreak(lines[i]) then
              Flush(heading, level, buffer) + Pending(Opens(lines[i]).0, Opens(lines[i]).1, [], lines, i + 1)
            else Pending(heading, level, buffer + [lines[i]], lines, i + 1)
  {
    AheadStep(heading, level, buffer, lines[i..]);
    assert lines[i..][1..] == lines[i + 1..];
  }

  /** The last filter keeps everything: only truthy sections are flushed. */
  lemma {:induction false} NothingFiltered(segments: seq<Segment>)
    ensures OnlyTruthy(SectionsOf(segments)) == SectionsOf(segments)
  {
    if segments != [] {
      NothingFiltered(segments[1..]);
      var b := SectionOf(segments[0]);
      OnlyTruthyConcat(b, SectionsOf(segments[1..]));
      assert |b| == 1 ==> b[1..] == [] && [b[0]] == b;
    }
  }

  lemma {:induction false} Moved(all: seq<Section>, done: seq<Section>, ahead: seq<Section>, flushed: seq<Section>,
          later: seq<Section>)
    requires all == done + ahead && ahead == flushed + later
    ensures all == done + flushed + later
  {
  }

  lemma {:induction false} BreakStep(all: seq<Section>, done: seq<Section>, heading: Option<string>, level: nat,
          buffer: seq<string>, lines: seq<string>, i: nat)
    requires i < |lines| && IsBreak(lines[i]) && all == done + Pending(heading, level, buffer, lines, i)
    ensures all == done + Flush(heading, level, buffer)
        + Pending(Opens(lines[i]).0, Opens(lines[i]).1, [], lines, i + 1)
  {
    PendingStep(heading, level, buffer, lines, i);
    Moved(all, done, Pending(heading, level, buffer, lines, i), Flush(heading, level, buffer),
          Pending(Opens(lines[i]).0, Opens(lines[i]).1, [], lines, i + 1));
  }

  /** `split_sections`. */
  method SplitSections(text: string) returns (r: seq<Section>)
    ensures r == SectionList(text)
  {
    var sections: seq<Section>, heading: Option<string>, level: nat, buffer: seq<string> := [], None, 0, [];
    var lines := Split(text);
    ghost var all := SectionList(text);
    assert all == Pending(None, 0, [], lines, 0) by { AheadStart(lines); assert lines[0..] == lines; }
    for i := 0 to |lines|
      invariant all == sections + Pending(heading, level, buffer, lines, i)
    {
      var line := lines[i];
      if IsBreak(line) {
        BreakStep(all, sections, heading, level, buffer, lines, i);
        sections := sections + Flush(heading, level, buffer);
        buffer := [];
        var next := Opens(line);
        heading, level := next.0, next.1;
      } else {
        PendingStep(heading, level, buffer, lines, i);
        buffer := buffer + [line];
      }
    }
    AheadEnd(heading, level, buffer);
    sections := sections + Flush(heading, level, buffer);
    NothingFiltered(Segments(lines));
    r := OnlyTruthy(sections);
  }
}
