/** From a document to the paragraphs of its sections: nothing but the headings is left out. */
module Conservation {
  import opened Text
  import opened Paragraphs
  import opened Sections
  import Headings

  /** The lines that are not headings of depth 1 to 3. */
  ghost function TextLines(lines: seq<string>): seq<string> {
    if lines == [] then []
    else (if Headings.HeadingLine(lines[0]) then [] else [lines[0]]) + TextLines(lines[1..])
  }

  /** The paragraphs of all sections, in order. */
  function ParagraphsOf(sections: seq<Section>): seq<string> {
    if sections == [] then [] else SplitParagraphs(sections[0].body) + ParagraphsOf(sections[1..])
  }

  function RunsOf(segments: seq<Segment>): seq<string> {
    if segments == [] then [] else segments[0].run + RunsOf(segments[1..])
  }

  lemma {:induction false} RunsCons(s: Segment, rest: seq<Segment>)
    ensures RunsOf([s] + rest) == s.run + RunsOf(rest)
  {
    assert ([s] + rest)[1..] == rest;
  }

  /** The runs of the segments are the lines without the headings. */
  lemma {:induction false} RunsAreTextLines(lines: seq<string>)
    ensures RunsOf(Segments(lines)) == TextLines(lines)
    decreases |lines|
  {
    if lines == [] {
      RunsCons(Segment(None, []), []);
    } else {
      RunsAreTextLines(lines[1..]);
      Headings.BreakIff(lines[0]);
      var rest := Segments(lines[1..]);
      assert rest == [rest[0]] + rest[1..];
      RunsCons(rest[0], rest[1..]);
      RunsStep(lines[0], rest[0], rest[1..]);
      Unit(TextLines(lines[1..]));
    }
  }

  lemma {:induction false} RunsStep(line: string, first: Segment, more: seq<Segment>)
    ensures RunsOf([Segment(None, []), first.(mark := Some(line))] + more) == first.run + RunsOf(more)
    ensures RunsOf([first.(run := [line] + first.run)] + more) == [line] + (first.run + RunsOf(more))
  {
    var top, next := Segment(None, []), first.(mark := Some(line));
    assert [top, next] + more == [top] + ([next] + more);
    RunsCons(top, [next] + more);
    RunsCons(next, more);
    Unit(RunsOf([next] + more));
    RunsCons(first.(run := [line] + first.run), more);
    Assoc([line], first.run, RunsOf(more));
  }

  lemma {:induction false} InkOfConcat(a: seq<string>, b: seq<string>)
    ensures InkOf(a + b) == InkOf(a) + InkOf(b)
  {
    if a == [] {
      Unit(b);
      Unit(InkOf(b));
    } else {
      DropFirst(a, b);
      InkOfConcat(a[1..], b);
      Assoc(Ink(a[0]), InkOf(a[1..]), InkOf(b));
    }
  }

  /** Joining lines adds no ink. */
  lemma {:induction false} InkOfJoin(lines: seq<string>)
    ensures Ink(Join("\n", lines)) == InkOf(lines)
  {
    if |lines| == 1 {
      assert lines[1..] == [];
      Unit(Ink(lines[0]));
    } else if |lines| > 1 {
      var rest := Join("\n", lines[1..]);
      InkOfJoin(lines[1..]);
      InkConcat(lines[0] + "\n", rest);
      InkConcat(lines[0], "\n");
      InkOfBlank("\n");
      Unit(Ink(lines[0]));
    }
  }

  /** The section of a segment holds the ink of its run. */
  lemma {:induction false} FlushKeepsInk(heading: Option<string>, level: nat, run: seq<string>)
    ensures InkOf(ParagraphsOf(Flush(heading, level, run))) == InkOf(run)
  {
    var body := Strip(Join("\n", run));
    InkOfJoin(run);
    InkOfStrip(Join("\n", run));
    ParagraphsKeepInk(body);
    var section := Section(heading, level, body);
    assert [section][1..] == [];
    Unit(SplitParagraphs(body));
  }

  lemma {:induction false} ParagraphsConcat(a: seq<Section>, b: seq<Section>)
    ensures ParagraphsOf(a + b) == ParagraphsOf(a) + ParagraphsOf(b)
  {
    if a == [] {
      Unit(b);
      Unit(ParagraphsOf(b));
    } else {
      DropFirst(a, b);
      ParagraphsConcat(a[1..], b);
      Assoc(SplitParagraphs(a[0].body), ParagraphsOf(a[1..]), ParagraphsOf(b));
    }
  }

  lemma {:induction false} SectionsKeepInk(segments: seq<Segment>)
    ensures InkOf(ParagraphsOf(SectionsOf(segments))) == InkOf(RunsOf(segments))
  {
    if segments != [] {
      var s, rest := segments[0], segments[1..];
      SectionsKeepInk(rest);
      ParagraphsConcat(SectionOf(s), SectionsOf(rest));
      InkOfConcat(ParagraphsOf(SectionOf(s)), ParagraphsOf(SectionsOf(rest)));
      InkOfConcat(s.run, RunsOf(rest));
      SectionKeepsInk(s);
    }
  }

  lemma {:induction false} SectionKeepsInk(s: Segment)
    ensures InkOf(ParagraphsOf(SectionOf(s))) == InkOf(s.run)
  {
    FlushKeepsInk(None, 0, s.run);
    if s.mark.Some? && IsBreak(s.mark.value) { FlushKeepsInk(Opens(s.mark.value).0, Opens(s.mark.value).1, s.run); }
  }

  /** The paragraphs of the sections of a text hold, in order, exactly the characters, white
      space aside, of the lines that are not headings of depth 1 to 3. */
  lemma {:induction false} ParagraphsHoldText(text: string)
    ensures InkOf(ParagraphsOf(SectionList(text))) == InkOf(TextLines(Split(text)))
  {
    SectionsKeepInk(Segments(Split(text)));
    RunsAreTextLines(Split(text));
  }
}
