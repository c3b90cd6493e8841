/** Which lines are headings, read off the line itself, and where a text is cut. */
module Headings {
  import opened Text
  import opened Sections
  import SectionRoundTrip

  /** The line is `d` hashes, white space and a title, with blanks around them. */
  ghost predicate Form(line: string, a: string, d: nat, c: char, h: string, b: string) {
    && line == a + HashMarks(d) + [c] + h + b && Blank(a) && Blank(b)
    && 1 <= d <= 6 && IsSpace(c) && !Blank(h) && !IsSpace(h[|h| - 1])
  }

  /** A heading of depth 1 to 3. */
  ghost predicate HeadingLine(line: string) {
    exists a: string, d: nat, c: char, h: string, b: string :: Form(line, a, d, c, h, b) && d <= 3
  }

  /** A line of that form parses to its depth and its title, ... */
  lemma {:induction false} FormParses(line: string, a: string, d: nat, c: char, h: string, b: string)
    requires Form(line, a, d, c, h, b)
    ensures ParseHeading(line) == Some(Heading(d, Strip(h)))
  {
    var t := HashMarks(d) + ([c] + h);
    Regroup(a, HashMarks(d), c, h, b);
    SectionRoundTrip.HashesOfMarks(d, [c] + h);
    assert t[0] == HashMarks(d)[0] && t[|t| - 1] == h[|h| - 1];
    StripUnique(a, t, b);
    assert t[d] == c && t[d..] == [c] + h;
    StripBehind(c, h);
  }

  lemma {:induction false} Regroup(a: string, m: string, c: char, h: string, b: string)
    ensures a + m + [c] + h + b == a + (m + ([c] + h)) + b
  {
  }

  lemma {:induction false} StripBehind(c: char, h: string)
    requires IsSpace(c)
    ensures Strip([c] + h) == Strip(h)
  {
    var x, y := StripParts(h);
    StripUnique([c] + x, Strip(h), y);
    Regroup([c], x, c, "", "");
    assert [c] + (x + Strip(h) + y) == [c] + x + Strip(h) + y;
  }

  /** ... and every line that parses has it. */
  lemma {:induction false} ParsedHasForm(line: string) returns (a: string, d: nat, c: char, h: string, b: string)
    requires ParseHeading(line).Some?
    ensures Form(line, a, d, c, h, b)
  {
    a, b := StripParts(line);
    var t := Strip(line);
    d := Hashes(t);
    c, h := t[d], t[d + 1..];
    MarksOfHashes(t);
    assert t == HashMarks(d) + ([c] + h);
    Regroup(a, HashMarks(d), c, h, b);
    assert h != "" && h[|h| - 1] == t[|t| - 1];
  }

  lemma {:induction false} MarksOfHashes(t: string)
    ensures t[..Hashes(t)] == HashMarks(Hashes(t))
  {
    if t != "" && t[0] == '#' {
      MarksOfHashes(t[1..]);
      assert t[..Hashes(t)] == [t[0]] + t[1..][..Hashes(t[1..])];
    }
  }

  /** A section ends at exactly the lines of one to three hashes, white space and a title. */
  lemma {:induction false} BreakIff(line: string)
    ensures IsBreak(line) <==> HeadingLine(line)
  {
    if IsBreak(line) {
      var a, d, c, h, b := ParsedHasForm(line);
      FormParses(line, a, d, c, h, b);
      assert Form(line, a, d, c, h, b) && d <= 3;
    } else if HeadingLine(line) {
      var a: string, d: nat, c: char, h: string, b: string :| Form(line, a, d, c, h, b) && d <= 3;
      FormParses(line, a, d, c, h, b);
    }
  }

  /** One hash opens a section without a title; two and three give it theirs. */
  lemma {:induction false} HeadingOpens(line: string, a: string, d: nat, c: char, h: string, b: string)
    requires Form(line, a, d, c, h, b) && d <= 3
    ensures IsBreak(line) && Opens(line) == if d == 1 then (None, 0) else (Some(Strip(h)), d)
  {
    FormParses(line, a, d, c, h, b);
  }

  /** The section below a heading has its title and the stripped lines up to the next one;
      only a blank run below an h1 gives none. */
  lemma {:induction false} SectionBelow(s: Segment, a: string, d: nat, c: char, h: string, b: string)
    requires s.mark.Some? && Form(s.mark.value, a, d, c, h, b) && d <= 3
    ensures var body := Strip(Join("\n", s.run));
      SectionOf(s) == if d > 1 then [Section(Some(Strip(h)), d, body)]
                      else if body != "" then [Section(None, 0, body)] else []
  {
    HeadingOpens(s.mark.value, a, d, c, h, b);
    StripEmptyIsBlank(h);
  }

  /** The segments are all the lines in order, cut above each heading and nowhere else. */
  lemma {:induction false} CutAtHeadings(lines: seq<string>)
    ensures var r := Segments(lines);
      && LinesOf(r) == lines && r != [] && r[0].mark == None
      && (forall i | 0 < i < |r| :: r[i].mark.Some? && HeadingLine(r[i].mark.value))
      && (forall i, k | 0 <= i < |r| && 0 <= k < |r[i].run| :: !HeadingLine(r[i].run[k]))
  {
    SegmentsConserve(lines);
    SegmentsCut(lines);
    var r := Segments(lines);
    forall i | 0 < i < |r| ensures r[i].mark.Some? && HeadingLine(r[i].mark.value) {
      assert CutAt(r[i], i);
      BreakIff(r[i].mark.value);
    }
    forall i, k | 0 <= i < |r| && 0 <= k < |r[i].run| ensures !HeadingLine(r[i].run[k]) {
      assert CutAt(r[i], i);
      BreakIff(r[i].run[k]);
    }
  }

  /** Hashes that no white space follows are text. */
  lemma {:induction false} HashtagIsText(tag: string)
    requires tag != "" && tag[0] != '#' && !IsSpace(tag[0])
    ensures !HeadingLine("#" + tag)
  {
    var line := "#" + tag;
    BreakIff(line);
    var a, b := StripParts(line);
    StripKeepsHead(line);
    assert line[1] == tag[0];
    assert Hashes(line) == 1 by { assert line[1..] == tag; }
    if IsBreak(line) { HashesOfPart(Strip(line), b, line); }
  }

  lemma {:induction false} StripKeepsHead(s: string)
    requires s != "" && !IsSpace(s[0])
    ensures exists b :: s == Strip(s) + b && Blank(b)
  {
    assert LStrip(s) == s;
    var b := RStripParts(s);
  }

  lemma {:induction false} HashesOfPart(t: string, b: string, s: string)
    requires s == t + b && Hashes(t) < |t|
    ensures Hashes(s) == Hashes(t)
  {
    if t != "" && t[0] == '#' {
      DropFirst(t, b);
      HashesOfPart(t[1..], b, s[1..]);
    }
  }
}
