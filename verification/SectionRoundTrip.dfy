/** Sections rendered back to markdown split into the same sections. */
module SectionRoundTrip {
  import opened Text
  import opened Sections

  /** No line of the text is a heading of depth 1 to 3. */
  ghost predicate Quiet(text: string) {
    forall i | 0 <= i < |Split(text)| :: !IsBreak(Split(text)[i])
  }

  ghost predicate Proper(s: Section) {
    && Trimmed(s.body) && Quiet(s.body)
    && match s.heading
       case None => s.level == 0 && s.body != ""
       case Some(h) => (s.level == 2 || s.level == 3) && h != "" && Trimmed(h) && OneLine(h)
  }

  // ---- every section of a text is proper ---------------------------------

  /** Whether a line is a heading does not depend on the blanks around it. */
  lemma {:induction false} BreakOfPadded(a: string, line: string, b: string)
    requires Blank(a) && Blank(b)
    ensures IsBreak(a + line + b) <==> IsBreak(line)
  {
    var x, y := StripParts(line);
    assert a + line + b == (a + x) + Strip(line) + (y + b);
    StripUnique(a + x, Strip(line), y + b);
  }

  lemma {:induction false} BlankLineIsNoBreak()
    ensures !IsBreak("")
  {
    StripBlank("");
  }

  lemma {:induction false} QuietLStrip(s: string)
    requires Quiet(s)
    ensures Quiet(LStrip(s))
  {
    if s != "" && IsSpace(s[0]) {
      var r, rest := Split(s), Split(s[1..]);
      forall i | 0 <= i < |rest| ensures !IsBreak(rest[i]) {
        if s[0] == '\n' {
          assert r[i + 1] == rest[i];
        } else if i == 0 {
          BreakOfPadded([s[0]], rest[0], "");
          assert [s[0]] + rest[0] + "" == r[0];
        } else {
          assert r[i] == rest[i];
        }
      }
      QuietLStrip(s[1..]);
    }
  }

  lemma {:induction false} QuietRStrip(s: string)
    requires Quiet(s)
    ensures Quiet(RStrip(s))
  {
    if s != "" && IsSpace(s[|s| - 1]) {
      var c, t := s[|s| - 1], s[..|s| - 1];
      assert s == t + [c];
      SplitSnoc(t, c);
      QuietUnsnoc(Split(t), c);
      QuietRStrip(t);
    }
  }

  lemma {:induction false} QuietUnsnoc(lines: seq<string>, c: char)
    requires lines != [] && IsSpace(c) && forall i | 0 <= i < |Snoc(lines, c)| :: !IsBreak(Snoc(lines, c)[i])
    ensures forall i | 0 <= i < |lines| :: !IsBreak(lines[i])
  {
    var r := Snoc(lines, c);
    forall i | 0 <= i < |lines| ensures !IsBreak(lines[i]) {
      if c != '\n' && i == |lines| - 1 {
        BreakOfPadded("", lines[i], [c]);
        assert "" + lines[i] + [c] == r[i];
      } else {
        assert r[i] == lines[i];
      }
    }
  }

  /** The body of a run without headings holds none. */
  lemma {:induction false} BodyIsQuiet(run: seq<string>)
    requires OneLiners(run) && forall k | 0 <= k < |run| :: !IsBreak(run[k])
    ensures Quiet(Strip(Join("\n", run)))
  {
    if run == [] {
      BlankLineIsNoBreak();
      StripBlank("");
      assert Split("") == [""];
    } else {
      SplitJoin(run);
      QuietLStrip(Join("\n", run));
      QuietRStrip(LStrip(Join("\n", run)));
    }
  }

  lemma {:induction false} TitleIsProper(line: string)
    requires OneLine(line) && ParseHeading(line).Some?
    ensures var h := ParseHeading(line).value.title; h != "" && Trimmed(h) && OneLine(h)
  {
    var t := Strip(line);
    var n := Hashes(t);
    StripOneLine(line);
    StripOneLine(t[n..]);
    var a, b := StripParts(line);
    StripEmptyIsBlank(t[n..]);
    assert t[n..][|t| - n - 1] == t[|t| - 1];
  }

  lemma {:induction false} StripOneLine(s: string)
    requires OneLine(s)
    ensures OneLine(Strip(s)) && Trimmed(Strip(s))
  {
    var a, b := StripParts(s);
    assert forall i | 0 <= i < |Strip(s)| :: Strip(s)[i] == s[|a| + i];
  }

  lemma {:induction false} SectionIsProper(s: Segment, i: nat)
    requires CutAt(s, i) && OneLiners(LinesOfOne(s))
    ensures forall k | 0 <= k < |SectionOf(s)| :: Proper(SectionOf(s)[k])
  {
    var lines := LinesOfOne(s);
    assert forall k | 0 <= k < |s.run| :: s.run[k] == lines[|lines| - |s.run| + k];
    BodyIsQuiet(s.run);
    var a, b := StripParts(Join("\n", s.run));
    if s.mark.Some? {
      assert lines[0] == s.mark.value;
      TitleIsProper(s.mark.value);
    }
  }

  lemma {:induction false} SectionsAreProper(segments: seq<Segment>, base: nat)
    requires OneLiners(LinesOf(segments))
    requires forall i | 0 <= i < |segments| :: CutAt(segments[i], base + i)
    ensures forall k | 0 <= k < |SectionsOf(segments)| :: Proper(SectionsOf(segments)[k])
  {
    if segments != [] {
      var first, more := segments[0], segments[1..];
      assert segments == [first] + more;
      LinesCons(first, more);
      var a, b := LinesOfOne(first), LinesOf(more);
      assert forall k | 0 <= k < |a| :: a[k] == LinesOf(segments)[k];
      assert forall k | 0 <= k < |b| :: b[k] == LinesOf(segments)[|a| + k];
      assert CutAt(segments[0], base + 0);
      SectionIsProper(first, base);
      forall i | 0 <= i < |more| ensures CutAt(more[i], base + 1 + i) { assert CutAt(segments[i + 1], base + (i + 1)); }
      SectionsAreProper(more, base + 1);
    }
  }

  /** Titles are trimmed single lines, bodies are trimmed and hold no heading of depth 1 to 3. */
  lemma {:induction false} AllProper(text: string)
    ensures forall k | 0 <= k < |SectionList(text)| :: Proper(SectionList(text)[k])
  {
    var lines := Split(text);
    JoinSplit(text);
    SegmentsConserve(lines);
    SegmentsCut(lines);
    SectionsAreProper(Segments(lines), 0);
  }

  // ---- rendering ---------------------------------------------------------

  /** The heading line of a section; an h1 line opens one without a title. */
  function MarkLine(s: Section): string {
    match s.heading
    case None => "# -"
    case Some(h) => HashMarks(s.level) + " " + h
  }

  function RenderLines(sections: seq<Section>): seq<string> {
    if sections == [] then []
    else [MarkLine(sections[0])] + Split(sections[0].body) + RenderLines(sections[1..])
  }

  function RenderSections(sections: seq<Section>): string {
    Join("\n", RenderLines(sections))
  }

  lemma {:induction false} HashesOfMarks(n: nat, s: string)
    requires s == "" || s[0] != '#'
    ensures Hashes(HashMarks(n) + s) == n && |HashMarks(n)| == n && OneLine(HashMarks(n))
        && (n > 0 ==> HashMarks(n)[0] == '#')
  {
    if n == 0 {
      assert "" + s == s;
    } else {
      HashesOfMarks(n - 1, s);
      DropFirst(HashMarks(n), s);
      assert HashMarks(n)[1..] == HashMarks(n - 1);
    }
  }

  lemma {:induction false} MarkLineOpens(s: Section)
    requires Proper(s)
    ensures OneLine(MarkLine(s)) && IsBreak(MarkLine(s)) && Opens(MarkLine(s)) == (s.heading, s.level)
  {
    match s.heading
    case None => MarkParses(1, "-");
      assert HashMarks(1) == "#" + HashMarks(0) && "# -" == HashMarks(1) + " " + "-";
    case Some(h) => MarkParses(s.level, h);
  }

  lemma {:induction false} MarkParses(n: nat, h: string)
    requires 1 <= n <= 6 && h != "" && Trimmed(h) && OneLine(h)
    ensures var line := HashMarks(n) + " " + h; OneLine(line) && ParseHeading(line) == Some(Heading(n, h))
  {
    HashesOfMarks(n, " " + h);
    MarkShape(HashMarks(n), n, h);
  }

  lemma {:induction false} MarkShape(marks: string, n: nat, h: string)
    requires 1 <= n <= 6 && h != "" && Trimmed(h) && OneLine(h)
    requires OneLine(marks) && |marks| == n && marks[0] == '#' && Hashes(marks + (" " + h)) == n
    ensures var line := marks + " " + h; OneLine(line) && ParseHeading(line) == Some(Heading(n, h))
  {
    var line := marks + " " + h;
    assert line == marks + (" " + h);
    assert line[0] == '#' && line[|line| - 1] == h[|h| - 1];
    StripTrimmed(line);
    StripAfterBlank(h);
    assert line[n] == ' ' && line[n..] == " " + h;
  }

  lemma {:induction false} StripTrimmed(s: string)
    requires Trimmed(s)
    ensures Strip(s) == s
  {
    StripUnique("", s, "");
    assert "" + s + "" == s;
  }

  lemma {:induction false} StripAfterBlank(h: string)
    requires Trimmed(h)
    ensures Strip(" " + h) == h
  {
    StripUnique(" ", h, "");
    assert " " + h + "" == " " + h;
  }

  // ---- splitting again ---------------------------------------------------

  lemma {:induction false} SegmentsOfQuiet(run: seq<string>, lines: seq<string>)
    requires forall k | 0 <= k < |run| :: !IsBreak(run[k])
    ensures var rest := Segments(lines);
      Segments(run + lines) == [rest[0].(run := run + rest[0].run)] + rest[1..]
    decreases |run|
  {
    var rest := Segments(lines);
    if run == [] {
      Unit(lines);
      Unit(rest[0].run);
      assert [rest[0]] + rest[1..] == rest;
    } else {
      var tail := run[1..];
      DropFirst(run, lines);
      SegmentsOfQuiet(tail, lines);
      QuietLine(run[0], rest[0].(run := tail + rest[0].run), rest[1..], tail + lines);
      Assoc([run[0]], tail, rest[0].run);
      assert [run[0]] + tail == run && [run[0]] + (tail + lines) == run + lines;
    }
  }

  lemma {:induction false} QuietLine(line: string, first: Segment, more: seq<Segment>, lines: seq<string>)
    requires !IsBreak(line) && Segments(lines) == [first] + more
    ensures Segments([line] + lines) == [first.(run := [line] + first.run)] + more
  {
    assert ([line] + lines)[1..] == lines && ([first] + more)[1..] == more;
  }

  lemma {:induction false} RenderedSection(s: Section)
    requires Proper(s)
    ensures SectionOf(Segment(Some(MarkLine(s)), Split(s.body))) == [s]
  {
    MarkLineOpens(s);
    JoinSplit(s.body);
    StripTrimmed(s.body);
  }

  /** What rendered sections are cut into, below a first empty segment. */
  lemma {:induction false} SegmentsOfRendered(sections: seq<Section>)
    requires forall k | 0 <= k < |sections| :: Proper(sections[k])
    ensures var r := Segments(RenderLines(sections));
      r[0].run == [] && SectionsOf(r[1..]) == sections
    ensures OneLiners(RenderLines(sections))
  {
    if sections != [] {
      SegmentsOfRendered(sections[1..]);
      RenderedFirst(sections[0], RenderLines(sections[1..]));
      assert [sections[0]] + sections[1..] == sections;
    } else {
      assert Segments([])[1..] == [];
    }
  }

  lemma {:induction false} RenderedFirst(s: Section, tail: seq<string>)
    requires Proper(s) && Segments(tail)[0].run == [] && OneLiners(tail)
    ensures var lines := [MarkLine(s)] + Split(s.body) + tail;
      var r := Segments(lines);
      r[0].run == [] && SectionsOf(r[1..]) == [s] + SectionsOf(Segments(tail)[1..]) && OneLiners(lines)
  {
    var run, rest := Split(s.body), Segments(tail);
    RenderedSection(s);
    MarkLineOpens(s);
    JoinSplit(s.body);
    SegmentsOfQuiet(run, tail);
    Unit(run);
    OneRendered(s, run, rest[1..], run + tail, rest[0]);
    Assoc([MarkLine(s)], run, tail);
  }

  lemma {:induction false} OneRendered(s: Section, run: seq<string>, more: seq<Segment>, lines: seq<string>,
          first: Segment)
    requires IsBreak(MarkLine(s)) && SectionOf(Segment(Some(MarkLine(s)), run)) == [s]
    requires Segments(lines) == [first.(run := run)] + more
    ensures var r := Segments([MarkLine(s)] + lines);
      r[0].run == [] && SectionsOf(r[1..]) == [s] + SectionsOf(more)
  {
    var next := first.(run := run).(mark := Some(MarkLine(s)));
    SegmentsAtBreak(MarkLine(s), first.(run := run), more, lines);
    assert [Segment(None, []), next] + more == [Segment(None, [])] + ([next] + more);
    assert next == Segment(Some(MarkLine(s)), run);
    SectionsCons(next, more);
  }

  lemma {:induction false} SegmentsAtBreak(line: string, first: Segment, more: seq<Segment>, lines: seq<string>)
    requires IsBreak(line) && Segments(lines) == [first] + more
    ensures Segments([line] + lines) == [Segment(None, []), first.(mark := Some(line))] + more
  {
    assert ([line] + lines)[1..] == lines && ([first] + more)[1..] == more;
  }

  lemma {:induction false} SectionsCons(s: Segment, more: seq<Segment>)
    ensures SectionsOf([s] + more) == SectionOf(s) + SectionsOf(more)
  {
    assert ([s] + more)[1..] == more;
  }

  /** Proper sections, rendered and split again, are the same sections. */
  lemma {:induction false} RenderedSplits(sections: seq<Section>)
    requires forall k | 0 <= k < |sections| :: Proper(sections[k])
    ensures SectionList(RenderSections(sections)) == sections
  {
    SegmentsOfRendered(sections);
    StripBlank("");
    if sections != [] {
      SplitJoin(RenderLines(sections));
    } else {
      assert Split("") == [""];
      BlankLineIsNoBreak();
      assert [""][1..] == [];
    }
  }

  /** Rendering the sections of a text and splitting again gives the same sections. */
  lemma {:induction false} SectionsRoundTrip(text: string)
    ensures SectionList(RenderSections(SectionList(text))) == SectionList(text)
  {
    AllProper(text);
    RenderedSplits(SectionList(text));
  }
}
