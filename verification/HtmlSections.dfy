/** From HTML to sections: a document of headings and paragraphs is cleaned to the markdown
    that the chunker cuts at those headings. */
module HtmlSections {
  import opened Text
  import opened Rewriting
  import opened Extraction
  import opened Tidying
  import opened LineBreaks
  import Cleaning
  import Headings
  import Indentation
  import Sections
  import SectionRoundTrip
  import Words

  datatype Block = Head(level: nat, title: string) | Para(text: string)

  /** One trimmed line of words with single spaces in between. */
  ghost predicate PlainText(s: string) {
    s != "" && Trimmed(s) && OneLine(s) && Indentation.SingleSpaced(s)
  }

  ghost predicate Plain(b: Block) {
    match b
    case Head(n, title) => 1 <= n <= 6 && PlainText(title)
    case Para(text) => PlainText(text)
  }

  /** The tag of a heading. */
  function HeadTag(n: nat): string {
    if n == 1 then "h1" else if n == 2 then "h2" else if n == 3 then "h3"
    else if n == 4 then "h4" else if n == 5 then "h5" else "h6"
  }

  function EventsOf(b: Block): seq<Event> {
    match b
    case Head(n, title) => [Start(HeadTag(n)), Data(title), End(HeadTag(n))]
    case Para(text) => [Start("p"), Data(text), End("p")]
  }

  ghost predicate AllPlain(blocks: seq<Block>) {
    forall i | 0 <= i < |blocks| :: Plain(blocks[i])
  }

  function AllEvents(blocks: seq<Block>): seq<Event> {
    if blocks == [] then [] else EventsOf(blocks[0]) + AllEvents(blocks[1..])
  }

  /** A heading of depth n is n hashes, a space and the title. */
  function LineOf(b: Block): string {
    match b
    case Head(n, title) => Sections.HashMarks(n) + " " + title
    case Para(text) => text
  }

  function LinesOf(blocks: seq<Block>): (r: seq<string>)
    ensures |r| == |blocks| && forall i | 0 <= i < |r| :: r[i] == LineOf(blocks[i])
  {
    if blocks == [] then [] else [LineOf(blocks[0])] + LinesOf(blocks[1..])
  }

  // ---- the parts ---------------------------------------------------------

  /** What a block adds to the text. */
  function Raw(lines: seq<string>): string {
    if lines == [] then "" else "\n\n" + lines[0] + "\n\n" + Raw(lines[1..])
  }

  lemma {:induction false} HeadMarks(n: nat)
    requires 1 <= n <= 6
    ensures HeadingMark(HeadTag(n)) == Sections.HashMarks(n) && !Skips(HeadTag(n)) && !IsList(HeadTag(n))
    ensures HeadTag(n) != "li"
  {
    ShortTag(HeadTag(n));
    SixMarks();
  }

  /** The tags of skipped regions and of lists are not two characters with an h in front. */
  lemma {:induction false} ShortTag(tag: string)
    requires |tag| == 2 && tag[0] == 'h'
    ensures !Skips(tag) && !IsList(tag) && tag != "li"
  {
  }

  lemma {:induction false} SixMarks()
    ensures Sections.HashMarks(1) == "#" && Sections.HashMarks(2) == "##" && Sections.HashMarks(3) == "###"
    ensures Sections.HashMarks(4) == "####" && Sections.HashMarks(5) == "#####" && Sections.HashMarks(6) == "######"
  {
    assert Sections.HashMarks(1) == "#" && Sections.HashMarks(2) == "##" && Sections.HashMarks(3) == "###";
    assert Sections.HashMarks(4) == "#" + Sections.HashMarks(3) && Sections.HashMarks(5) == "#" + Sections.HashMarks(4);
    assert Sections.HashMarks(6) == "#" + Sections.HashMarks(5);
  }

  lemma {:induction false} HeadOpens(st: State, n: nat)
    requires Valid(st) && st.skipDepth == 0 && 1 <= n <= 6
    ensures Step(st, Start(HeadTag(n))) == st.(parts := st.parts + ["\n\n", Sections.HashMarks(n) + " "])
    ensures Step(st, End(HeadTag(n))) == st.(parts := st.parts + ["\n\n"])
  {
    HeadMarks(n);
  }

  lemma {:induction false} ParaOpens(st: State)
    requires Valid(st) && st.skipDepth == 0
    ensures Step(st, Start("p")) == st.(parts := st.parts + ["\n\n"])
    ensures Step(st, End("p")) == st.(parts := st.parts + ["\n\n"])
  {
    assert HeadingMark("p") == "" && !Skips("p") && !IsList("p");
  }

  lemma {:induction false} PlainHasInk(s: string)
    requires PlainText(s)
    ensures Strip(s) != ""
  {
    StripUnique("", s, "");
    Unit(s);
  }

  /** The three events of a block bring its line between breaks. */
  lemma {:induction false} BlockParts(st: State, b: Block)
    requires Valid(st) && st.skipDepth == 0 && Plain(b)
    ensures Valid(Feed(st, EventsOf(b))) && Feed(st, EventsOf(b)).skipDepth == 0
    ensures Flatten(Feed(st, EventsOf(b)).parts) == Flatten(st.parts) + ("\n\n" + LineOf(b) + "\n\n")
  {
    var es := EventsOf(b);
    var s := Step(st, es[0]);
    if b.Head? { HeadOpens(st, b.level); } else { ParaOpens(st); }
    PlainHasInk(es[1].data);
    Indentation.TextStep(s, es[1].data);
    var t := Step(s, es[1]);
    if b.Head? { HeadOpens(t, b.level); } else { ParaOpens(t); }
    Indentation.FeedThree(st, es[0], es[1], es[2]);
    if b.Head? {
      HeadFlat(st.parts, Sections.HashMarks(b.level), b.title);
    } else {
      ParaFlat(st.parts, b.text);
    }
  }

  lemma {:induction false} ParaFlat(parts: seq<string>, text: string)
    ensures Flatten(parts + ["\n\n"] + [text] + ["\n\n"]) == Flatten(parts) + ("\n\n" + text + "\n\n")
  {
    Words.FlattenSnoc(parts + ["\n\n"] + [text], "\n\n");
    Words.FlattenSnoc(parts + ["\n\n"], text);
    Words.FlattenSnoc(parts, "\n\n");
    Assoc(Flatten(parts), "\n\n", text);
    Assoc(Flatten(parts), "\n\n" + text, "\n\n");
  }

  lemma {:induction false} HeadFlat(parts: seq<string>, marks: string, title: string)
    ensures Flatten(parts + ["\n\n", marks + " "] + [title] + ["\n\n"])
         == Flatten(parts) + ("\n\n" + (marks + " " + title) + "\n\n")
  {
    var f := Flatten(parts);
    assert parts + ["\n\n", marks + " "] == parts + ["\n\n"] + [marks + " "];
    Words.FlattenSnoc(parts + ["\n\n"] + [marks + " "] + [title], "\n\n");
    Words.FlattenSnoc(parts + ["\n\n"] + [marks + " "], title);
    Words.FlattenSnoc(parts + ["\n\n"], marks + " ");
    Words.FlattenSnoc(parts, "\n\n");
    Assoc(f + "\n\n", marks + " ", title);
    Assoc(f, "\n\n", marks + " " + title);
    Assoc(f, "\n\n" + (marks + " " + title), "\n\n");
  }

  lemma {:induction false} BlocksParts(st: State, blocks: seq<Block>)
    requires Valid(st) && st.skipDepth == 0 && AllPlain(blocks)
    ensures Flatten(Feed(st, AllEvents(blocks)).parts) == Flatten(st.parts) + Raw(LinesOf(blocks))
    decreases |blocks|
  {
    if blocks == [] {
      Unit(Flatten(st.parts));
    } else {
      assert Plain(blocks[0]);
      var es, line := EventsOf(blocks[0]), "\n\n" + LineOf(blocks[0]) + "\n\n";
      FeedConcat(st, es, AllEvents(blocks[1..]));
      BlockParts(st, blocks[0]);
      BlocksParts(Feed(st, es), blocks[1..]);
      Assoc(Flatten(st.parts), line, Raw(LinesOf(blocks[1..])));
      assert LinesOf(blocks)[1..] == LinesOf(blocks[1..]);
    }
  }

  // ---- tidying the lines -------------------------------------------------

  /** A line that tidying leaves alone. */
  ghost predicate Settled(line: string) {
    line != "" && Trimmed(line) && OneLine(line)
  }

  ghost predicate AllSettled(lines: seq<string>) {
    forall i | 0 <= i < |lines| :: Settled(lines[i])
  }

  /** The lines of the parts: breaks of two newlines around each. */
  function Padded(lines: seq<string>): (r: seq<string>)
    ensures r != []
  {
    if lines == [] then [""] else ["", "", lines[0], ""] + Padded(lines[1..])
  }

  lemma {:induction false} RawText(line: string, rest: string)
    ensures "\n\n" + line + "\n\n" + rest == "\n" + ("\n" + (line + "\n" + ("\n" + rest)))
  {
  }

  lemma {:induction false} SplitRaw(lines: seq<string>)
    requires AllSettled(lines)
    ensures Split(Raw(lines)) == Padded(lines)
    decreases |lines|
  {
    if lines != [] {
      var line, rest := lines[0], Raw(lines[1..]);
      assert Settled(line);
      SplitRaw(lines[1..]);
      RawText(line, rest);
      SplitBreak(rest);
      SplitCons(line, "\n" + rest);
      SplitBreak(line + "\n" + ("\n" + rest));
      SplitBreak("\n" + (line + "\n" + ("\n" + rest)));
    }
  }

  /** After the passes: the lines with one blank line in between, behind `c` newlines. */
  function Between(lines: seq<string>): (r: seq<string>)
    ensures r != []
  {
    if lines == [] then ["", ""] else ["", lines[0]] + Between(lines[1..])
  }

  lemma {:induction false} TrimSettled(line: string)
    requires Settled(line)
    ensures TrimEnd(line) == line
  {
    var m := TrimEnd(line);
    TrimEndExactly(line);
    assert forall i | |m| <= i < |line| :: IsSpace(line[i]);
  }

  lemma {:induction false} TrimCons(line: string, rest: seq<string>)
    requires rest != [] && TrimEnd(line) == line
    ensures TrimEach([line] + rest) == [line] + TrimEach(rest)
  {
    assert ([line] + rest)[1..] == rest;
  }

  lemma {:induction false} TrimPadded(lines: seq<string>)
    requires AllSettled(lines)
    ensures TrimEach(Padded(lines)) == Padded(lines)
    decreases |lines|
  {
    if lines != [] {
      var line, rest := lines[0], Padded(lines[1..]);
      assert Settled(line);
      TrimSettled(line);
      TrimPadded(lines[1..]);
      FourCons("", "", line, "", rest);
      TrimCons("", rest);
      TrimCons(line, [""] + rest);
      TrimCons("", [line] + ([""] + rest));
      TrimCons("", [""] + ([line] + ([""] + rest)));
    }
  }

  lemma {:induction false} FourCons(a: string, b: string, c: string, d: string, rest: seq<string>)
    ensures [a, b, c, d] + rest == [a] + ([b] + ([c] + ([d] + rest)))
  {
  }

  lemma {:induction false} SquashCons(c: nat, line: string, rest: seq<string>)
    requires rest != []
    ensures Squash(c, [line] + rest) == if line != "" then [line] + Squash(1, rest)
                                        else (if c >= 2 then [] else [""]) + Squash(c + 1, rest)
  {
    assert ([line] + rest)[1..] == rest;
  }

  /** Behind a line: its break, and what follows. */
  lemma {:induction false} SquashBehind(lines: seq<string>)
    requires AllSettled(lines)
    ensures Squash(1, [""] + Padded(lines)) == Between(lines)
    decreases |lines|
  {
    SquashCons(1, "", Padded(lines));
    if lines == [] {
      assert Squash(2, [""]) == [""] && [""] + [""] == ["", ""];
    } else {
      var line, rest := lines[0], Padded(lines[1..]);
      assert Settled(line);
      SquashBehind(lines[1..]);
      FourCons("", "", line, "", rest);
      SquashNoBlank(line, [""] + rest);
      BetweenCons(lines);
    }
  }

  /** Behind two newlines they are not. */
  lemma {:induction false} SquashNoBlank(line: string, rest: seq<string>)
    requires rest != [] && line != ""
    ensures Squash(2, [""] + ([""] + ([line] + rest))) == [line] + Squash(1, rest)
  {
    SquashCons(2, "", [""] + ([line] + rest));
    SquashCons(3, "", [line] + rest);
    SquashCons(4, line, rest);
    Unit([line] + Squash(1, rest));
  }

  lemma {:induction false} SquashPadded(lines: seq<string>)
    requires AllSettled(lines) && lines != []
    ensures Squash(0, Padded(lines)) == [""] + Between(lines)
  {
    var line, rest := lines[0], Padded(lines[1..]);
    assert Settled(line);
    SquashBehind(lines[1..]);
    FourCons("", "", line, "", rest);
    SquashTwoBlank(line, [""] + rest);
    BetweenCons(lines);
  }

  /** Two blank lines at the top are kept. */
  lemma {:induction false} SquashTwoBlank(line: string, rest: seq<string>)
    requires rest != [] && line != ""
    ensures Squash(0, [""] + ([""] + ([line] + rest))) == [""] + ([""] + ([line] + Squash(1, rest)))
  {
    SquashCons(0, "", [""] + ([line] + rest));
    SquashCons(1, "", [line] + rest);
    SquashCons(2, line, rest);
  }

  lemma {:induction false} TidySettled(digit: char -> bool, line: string)
    requires line == "" || Settled(line)
    ensures TidyLine(digit, line) == line
  {
    StripUnique("", line, "");
    Unit(line);
  }

  lemma {:induction false} TidyAll(digit: char -> bool, lines: seq<string>)
    requires forall i | 0 <= i < |lines| :: lines[i] == "" || Settled(lines[i])
    ensures TidyEach(digit, lines) == lines
  {
    forall i | 0 <= i < |lines| ensures TidyLine(digit, lines[i]) == lines[i] { TidySettled(digit, lines[i]); }
  }

  lemma {:induction false} BetweenSettled(lines: seq<string>)
    requires AllSettled(lines)
    ensures forall i | 0 <= i < |Between(lines)| :: Between(lines)[i] == "" || Settled(Between(lines)[i])
    decreases |lines|
  {
    if lines != [] {
      assert Settled(lines[0]);
      BetweenSettled(lines[1..]);
      var rest, r := Between(lines[1..]), Between(lines);
      forall i | 0 <= i < |r| ensures r[i] == "" || Settled(r[i]) { if i >= 2 { assert r[i] == rest[i - 2]; } }
    }
  }

  /** What is joined in the end, breaks around it. */
  lemma {:induction false} JoinBetween(lines: seq<string>)
    requires lines != []
    ensures Join("\n", Between(lines)) == "\n" + Join("\n\n", lines) + "\n\n"
    decreases |lines|
  {
    var line, rest := lines[0], Between(lines[1..]);
    JoinPair(line, rest);
    BetweenCons(lines);
    if |lines| == 1 {
      JoinTwoEmpty();
      LastText(line);
    } else {
      JoinBetween(lines[1..]);
      PairText(line, Join("\n\n", lines[1..]), "\n\n");
    }
  }

  lemma {:induction false} BetweenCons(lines: seq<string>)
    requires lines != []
    ensures Between(lines) == [""] + ([lines[0]] + Between(lines[1..]))
  {
  }

  lemma {:induction false} JoinTwoEmpty()
    ensures Join("\n", ["", ""]) == "\n"
  {
    assert ["", ""][1..] == [""];
  }

  lemma {:induction false} LastText(line: string)
    ensures "\n" + (line + "\n" + "\n") == "\n" + line + "\n\n"
  {
  }

  lemma {:induction false} JoinPair(p: string, rest: seq<string>)
    ensures Join("\n", [""] + ([p] + rest)) == "\n" + if rest == [] then p else p + "\n" + Join("\n", rest)
  {
    JoinAfterBreak([p] + rest);
    assert ([p] + rest)[1..] == rest;
  }

  lemma {:induction false} PairText(p: string, m: string, e: string)
    ensures "\n" + (p + "\n" + ("\n" + m + e)) == "\n" + (p + "\n\n" + m) + e
  {
  }

  lemma {:induction false} JoinTrimmed(lines: seq<string>)
    requires AllSettled(lines) && lines != []
    ensures var m := Join("\n\n", lines); m != "" && Trimmed(m) && m[0] == lines[0][0]
    decreases |lines|
  {
    assert Settled(lines[0]);
    if |lines| > 1 {
      JoinTrimmed(lines[1..]);
      var m, rest := Join("\n\n", lines), Join("\n\n", lines[1..]);
      assert m[|m| - 1] == rest[|rest| - 1];
    }
  }

  lemma {:induction false} PassesRaw(lines: seq<string>)
    requires AllSettled(lines) && lines != []
    ensures Split(Apply(BLANK_LINES, Apply(TrailingBlanks, Raw(lines)))) == [""] + Between(lines)
  {
    var t := Apply(TrailingBlanks, Raw(lines));
    SplitRaw(lines);
    TrailingLines("", Raw(lines));
    TrimPadded(lines);
    CollapseThins("", 0, t);
    ThinLines(0, t);
    SquashPadded(lines);
  }

  lemma {:induction false} StripBetween(lines: seq<string>)
    requires AllSettled(lines) && lines != []
    ensures Strip(Join("\n", [""] + Between(lines))) == Join("\n\n", lines)
  {
    var m := Join("\n\n", lines);
    JoinAfterBreak(Between(lines));
    JoinBetween(lines);
    JoinTrimmed(lines);
    assert "\n" + ("\n" + m + "\n\n") == "\n\n" + m + "\n\n";
    StripUnique("\n\n", m, "\n\n");
  }

  lemma {:induction false} TidyRaw(digit: char -> bool, lines: seq<string>)
    requires AllSettled(lines) && lines != []
    ensures Tidy(digit, Raw(lines)) == Join("\n\n", lines)
  {
    PassesRaw(lines);
    BetweenSettled(lines);
    TidyAll(digit, [""] + Between(lines));
    StripBetween(lines);
  }

  // ---- the result --------------------------------------------------------

  lemma {:induction false} LineSettled(b: Block)
    requires Plain(b)
    ensures Settled(LineOf(b))
    ensures b.Head? ==> Sections.ParseHeading(LineOf(b)) == Some(Sections.Heading(b.level, b.title))
  {
    if b.Head? {
      SectionRoundTrip.MarkParses(b.level, b.title);
      SectionRoundTrip.HashesOfMarks(b.level, " " + b.title);
      var line := LineOf(b);
      assert line[0] == '#' && line[|line| - 1] == b.title[|b.title| - 1];
    }
  }

  /** A document of headings h1 to h6 and paragraphs is cleaned to their lines with a blank
      line in between, the headings as markdown headings of the same depth and title. */
  lemma {:induction false} HeadingsSurvive(digit: char -> bool, blocks: seq<Block>)
    requires AllPlain(blocks)
    ensures Cleaning.HtmlToText(digit, AllEvents(blocks)) == Join("\n\n", LinesOf(blocks))
    ensures forall i | 0 <= i < |blocks| && blocks[i].Head? ::
      Sections.ParseHeading(LinesOf(blocks)[i]) == Some(Sections.Heading(blocks[i].level, blocks[i].title))
  {
    var lines := LinesOf(blocks);
    forall i | 0 <= i < |blocks|
      ensures Settled(lines[i])
      ensures blocks[i].Head? ==>
        Sections.ParseHeading(lines[i]) == Some(Sections.Heading(blocks[i].level, blocks[i].title))
    {
      assert Plain(blocks[i]);
      LineSettled(blocks[i]);
    }
    BlocksParts(INITIAL, blocks);
    Unit(Raw(lines));
    if blocks == [] { TidyNothing(digit); } else { TidyRaw(digit, lines); }
  }

  lemma {:induction false} TidyNothing(digit: char -> bool)
    ensures Tidy(digit, "") == ""
  {
    assert TidyLine(digit, "") == "" && [""][1..] == [];
  }

  // ---- the sections ------------------------------------------------------

  datatype Chapter = Chapter(level: nat, title: string, paras: seq<string>)

  /** A chapter under an h2 or h3; no paragraph of it reads like a heading. */
  ghost predicate PlainChapter(c: Chapter) {
    && (c.level == 2 || c.level == 3) && PlainText(c.title)
    && forall i | 0 <= i < |c.paras| :: PlainText(c.paras[i]) && !Headings.HeadingLine(c.paras[i])
  }

  ghost predicate AllChapters(cs: seq<Chapter>) {
    forall i | 0 <= i < |cs| :: PlainChapter(cs[i])
  }

  function Paras(ps: seq<string>): seq<Block> {
    if ps == [] then [] else [Para(ps[0])] + Paras(ps[1..])
  }

  function BlocksOf(cs: seq<Chapter>): seq<Block> {
    if cs == [] then [] else [Head(cs[0].level, cs[0].title)] + Paras(cs[0].paras) + BlocksOf(cs[1..])
  }

  function SectionsFor(cs: seq<Chapter>): seq<Sections.Section> {
    if cs == [] then []
    else [Sections.Section(Some(cs[0].title), cs[0].level, Join("\n\n", cs[0].paras))] + SectionsFor(cs[1..])
  }

  lemma {:induction false} ParasPlain(ps: seq<string>)
    requires forall i | 0 <= i < |ps| :: PlainText(ps[i])
    ensures AllPlain(Paras(ps)) && LinesOf(Paras(ps)) == ps
  {
    if ps != [] {
      ParasPlain(ps[1..]);
      PlainCons(Para(ps[0]), Paras(ps[1..]));
      assert [ps[0]] + ps[1..] == ps;
    }
  }

  lemma {:induction false} PlainCons(b: Block, bs: seq<Block>)
    requires Plain(b) && AllPlain(bs)
    ensures AllPlain([b] + bs) && LinesOf([b] + bs) == [LineOf(b)] + LinesOf(bs)
  {
    assert ([b] + bs)[1..] == bs;
  }

  lemma {:induction false} PlainConcat(a: seq<Block>, b: seq<Block>)
    requires AllPlain(a) && AllPlain(b)
    ensures AllPlain(a + b) && LinesOf(a + b) == LinesOf(a) + LinesOf(b)
  {
    if a == [] {
      Unit(b);
      Unit(LinesOf(b));
    } else {
      DropFirst(a, b);
      PlainConcat(a[1..], b);
      Assoc([LineOf(a[0])], LinesOf(a[1..]), LinesOf(b));
    }
  }

  function ChapterLines(c: Chapter): seq<string> {
    [LineOf(Head(c.level, c.title))] + c.paras
  }

  function LinesFor(cs: seq<Chapter>): seq<string> {
    if cs == [] then [] else ChapterLines(cs[0]) + LinesFor(cs[1..])
  }

  lemma {:induction false} BlocksPlain(cs: seq<Chapter>)
    requires AllChapters(cs)
    ensures AllPlain(BlocksOf(cs)) && LinesOf(BlocksOf(cs)) == LinesFor(cs)
  {
    if cs != [] {
      var c := cs[0];
      assert PlainChapter(c);
      var h := [Head(c.level, c.title)];
      ParasPlain(c.paras);
      BlocksPlain(cs[1..]);
      assert Plain(h[0]);
      PlainCons(h[0], Paras(c.paras));
      PlainConcat(h + Paras(c.paras), BlocksOf(cs[1..]));
    }
  }

  /** The lines of a text of single lines with blank ones in between. */
  function Spaced(lines: seq<string>): seq<string> {
    if |lines| <= 1 then lines else [lines[0], ""] + Spaced(lines[1..])
  }

  lemma {:induction false} SplitSpaced(lines: seq<string>)
    requires AllSettled(lines) && lines != []
    ensures Split(Join("\n\n", lines)) == Spaced(lines)
    decreases |lines|
  {
    assert Settled(lines[0]);
    if |lines| == 1 {
      SplitCons(lines[0], "");
    } else {
      var m := Join("\n\n", lines[1..]);
      SplitSpaced(lines[1..]);
      assert lines[0] + "\n\n" + m == lines[0] + "\n" + ("\n" + m);
      SplitBreak(m);
      SplitCons(lines[0], "\n" + m);
    }
  }

  /** The run below a heading: a blank line and a paragraph each. */
  function RunOf(ps: seq<string>): seq<string> {
    if ps == [] then [] else ["", ps[0]] + RunOf(ps[1..])
  }

  lemma {:induction false} SpacedChapter(line: string, ps: seq<string>, more: seq<string>)
    ensures Spaced([line] + ps + more)
         == [line] + (RunOf(ps) + if more == [] then [] else [""] + Spaced(more))
    decreases |ps|
  {
    var tail := if more == [] then [] else [""] + Spaced(more);
    if ps == [] {
      Unit([line]);
      Unit(tail);
      SpacedCons(line, more);
    } else {
      assert [ps[0]] + ps[1..] == ps;
      Assoc([line], ps, more);
      SpacedCons(line, ps + more);
      SpacedChapter(ps[0], ps[1..], more);
      RunCons(ps, tail);
    }
  }

  lemma {:induction false} SpacedCons(line: string, rest: seq<string>)
    ensures Spaced([line] + rest) == [line] + if rest == [] then [] else [""] + Spaced(rest)
  {
    assert ([line] + rest)[1..] == rest;
    if rest != [] { assert [line, ""] + Spaced(rest) == [line] + ([""] + Spaced(rest)); }
  }

  lemma {:induction false} RunIsQuiet(ps: seq<string>)
    requires forall i | 0 <= i < |ps| :: !Headings.HeadingLine(ps[i])
    ensures forall k | 0 <= k < |RunOf(ps)| :: !Sections.IsBreak(RunOf(ps)[k])
  {
    if ps != [] {
      RunIsQuiet(ps[1..]);
      Headings.BreakIff(ps[0]);
      SectionRoundTrip.BlankLineIsNoBreak();
      var r, rest := RunOf(ps), RunOf(ps[1..]);
      forall k | 0 <= k < |r| ensures !Sections.IsBreak(r[k]) { if k >= 2 { assert r[k] == rest[k - 2]; } }
    }
  }

  lemma {:induction false} JoinRun(ps: seq<string>, end: seq<string>)
    requires ps != [] && (end == [] || end == [""])
    ensures Join("\n", RunOf(ps) + end) == "\n" + Join("\n\n", ps) + if end == [] then "" else "\n"
    decreases |ps|
  {
    var p, rest, e := ps[0], RunOf(ps[1..]) + end, if end == [] then "" else "\n";
    JoinPair(p, rest);
    RunCons(ps, end);
    if |ps| == 1 {
      Unit(end);
      Assoc("\n", p, e);
      if end == [""] { Unit(p + "\n"); }
    } else {
      JoinRun(ps[1..], end);
      PairText(p, Join("\n\n", ps[1..]), e);
    }
  }

  lemma {:induction false} RunCons(ps: seq<string>, end: seq<string>)
    requires ps != []
    ensures RunOf(ps) + end == [""] + ([ps[0]] + (RunOf(ps[1..]) + end))
  {
  }

  lemma {:induction false} BodyOfRun(ps: seq<string>, end: seq<string>)
    requires AllSettled(ps) && (end == [] || end == [""])
    ensures Strip(Join("\n", RunOf(ps) + end)) == Join("\n\n", ps)
  {
    if ps == [] {
      Unit(end);
      StripBlank("");
    } else {
      var m, e := Join("\n\n", ps), if end == [] then "" else "\n";
      JoinRun(ps, end);
      JoinTrimmed(ps);
      StripUnique("\n", m, e);
    }
  }

  /** A chapter in front of others is one more segment. */
  lemma {:induction false} ChapterSegment(c: Chapter, end: seq<string>, lines: seq<string>)
    requires PlainChapter(c) && (end == [] || end == [""])
    requires Sections.Segments(lines)[0].run == []
    ensures var mark := LineOf(Head(c.level, c.title));
      var r := Sections.Segments([mark] + (RunOf(c.paras) + end + lines));
      r[0].run == [] && Sections.SectionsOf(r[1..])
        == [Sections.Section(Some(c.title), c.level, Join("\n\n", c.paras))]
           + Sections.SectionsOf(Sections.Segments(lines)[1..])
  {
    var s := Sections.Section(Some(c.title), c.level, Join("\n\n", c.paras));
    RunIsQuiet(c.paras);
    SectionRoundTrip.BlankLineIsNoBreak();
    ChapterSection(c, end);
    SegmentAtMark(s, RunOf(c.paras) + end, lines);
  }

  lemma {:induction false} ChapterSection(c: Chapter, end: seq<string>)
    requires PlainChapter(c) && (end == [] || end == [""])
    ensures var s := Sections.Section(Some(c.title), c.level, Join("\n\n", c.paras));
      var mark := LineOf(Head(c.level, c.title));
      && SectionRoundTrip.MarkLine(s) == mark && Sections.IsBreak(mark)
      && Sections.SectionOf(Sections.Segment(Some(mark), RunOf(c.paras) + end)) == [s]
  {
    LineSettled(Head(c.level, c.title));
    forall i | 0 <= i < |c.paras| ensures Settled(c.paras[i]) {}
    BodyOfRun(c.paras, end);
  }

  lemma {:induction false} SegmentAtMark(s: Sections.Section, run: seq<string>, lines: seq<string>)
    requires Sections.IsBreak(SectionRoundTrip.MarkLine(s)) && forall k | 0 <= k < |run| :: !Sections.IsBreak(run[k])
    requires Sections.SectionOf(Sections.Segment(Some(SectionRoundTrip.MarkLine(s)), run)) == [s]
    requires Sections.Segments(lines)[0].run == []
    ensures var r := Sections.Segments([SectionRoundTrip.MarkLine(s)] + (run + lines));
      r[0].run == [] && Sections.SectionsOf(r[1..]) == [s] + Sections.SectionsOf(Sections.Segments(lines)[1..])
  {
    var rest := Sections.Segments(lines);
    SectionRoundTrip.SegmentsOfQuiet(run, lines);
    Unit(run);
    SectionRoundTrip.OneRendered(s, run, rest[1..], run + lines, rest[0]);
  }

  lemma {:induction false} ChapterSections(cs: seq<Chapter>)
    requires AllChapters(cs)
    ensures var r := Sections.Segments(Spaced(LinesFor(cs)));
      r[0].run == [] && Sections.SectionsOf(r[1..]) == SectionsFor(cs)
    decreases |cs|
  {
    if cs == [] {
      assert Sections.Segments([])[1..] == [];
    } else {
      assert PlainChapter(cs[0]);
      ChapterSections(cs[1..]);
      ChapterBefore(cs[0], LinesFor(cs[1..]));
    }
  }

  lemma {:induction false} ChapterBefore(c: Chapter, more: seq<string>)
    requires PlainChapter(c) && Sections.Segments(Spaced(more))[0].run == []
    ensures var r := Sections.Segments(Spaced(ChapterLines(c) + more));
      r[0].run == [] && Sections.SectionsOf(r[1..])
        == [Sections.Section(Some(c.title), c.level, Join("\n\n", c.paras))]
           + Sections.SectionsOf(Sections.Segments(Spaced(more))[1..])
  {
    ChapterSpaced(c, more);
    ChapterSegment(c, if more == [] then [] else [""], Spaced(more));
  }

  lemma {:induction false} ChaptersSettled(cs: seq<Chapter>)
    requires AllChapters(cs)
    ensures AllSettled(LinesFor(cs))
    decreases |cs|
  {
    if cs != [] {
      var c := cs[0];
      assert PlainChapter(c);
      LineSettled(Head(c.level, c.title));
      ChaptersSettled(cs[1..]);
      SettledConcat(ChapterLines(c), LinesFor(cs[1..]));
    }
  }

  lemma {:induction false} SettledConcat(a: seq<string>, b: seq<string>)
    requires AllSettled(a) && AllSettled(b)
    ensures AllSettled(a + b)
  {
  }

  lemma {:induction false} ChapterSpaced(c: Chapter, more: seq<string>)
    ensures Spaced(ChapterLines(c) + more)
         == [LineOf(Head(c.level, c.title))] + (RunOf(c.paras) + (if more == [] then [] else [""]) + Spaced(more))
  {
    SpacedChapter(LineOf(Head(c.level, c.title)), c.paras, more);
    Assoc(RunOf(c.paras), [""], Spaced(more));
    Unit(RunOf(c.paras));
  }

  /** HTML of chapters, each an h2 or h3 and its paragraphs, is cleaned and cut into exactly
      one section for each chapter, with its title, its level and its paragraphs. */
  lemma {:induction false} ChaptersBecomeSections(digit: char -> bool, cs: seq<Chapter>)
    requires AllChapters(cs)
    ensures Sections.SectionList(Cleaning.HtmlToText(digit, AllEvents(BlocksOf(cs)))) == SectionsFor(cs)
  {
    var lines := LinesFor(cs);
    BlocksPlain(cs);
    HeadingsSurvive(digit, BlocksOf(cs));
    ChapterSections(cs);
    ChaptersSettled(cs);
    if cs == [] {
      assert Split("") == [""];
      SectionRoundTrip.BlankLineIsNoBreak();
      StripBlank("");
      assert [""][1..] == [];
    } else {
      SplitSpaced(lines);
      FirstIsEmpty(Sections.Segments(Spaced(lines)));
    }
  }

  lemma {:induction false} FirstIsEmpty(r: seq<Sections.Segment>)
    requires r != [] && r[0].mark.None? && r[0].run == []
    ensures Sections.SectionsOf(r) == Sections.SectionsOf(r[1..])
  {
    StripBlank("");
    Unit(Sections.SectionsOf(r[1..]));
  }
}
