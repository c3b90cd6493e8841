/** The label "title › section" in front of every chunk: when it is there, and when not. */
module Labels {
  import opened Text
  import Packing
  import opened Paragraphs
  import opened Sections
  import opened SectionRoundTrip
  import opened Chunking

  /** A title that is not empty starts the text or lies in its first line. */
  lemma {:induction false} LabelledHasTitle(title: string, chunk: Chunk)
    requires title != ""
    ensures var text := Labelled(title, chunk); title <= text || Contains(Split(text)[0], title)
  {
    var prefix := Prefix(title, chunk.section);
    assert title <= prefix;
    assert prefix <= prefix + "\n" + chunk.text;
  }

  /** One label is missing exactly when the first line already holds the title and the text
      does not happen to start with the label. */
  lemma {:induction false} LabelledHasPrefix(title: string, chunk: Chunk)
    ensures Prefix(title, chunk.section) <= Labelled(title, chunk)
       <==> title == "" || !Contains(Split(chunk.text)[0], title) || Prefix(title, chunk.section) <= chunk.text
  {
    var prefix := Prefix(title, chunk.section);
    assert prefix <= prefix + "\n" + chunk.text;
  }

  /** All chunks of an item start with their label exactly when it has no title, or every
      raw chunk lacks the title in its first line or starts with the label by itself. */
  lemma {:induction false} DocumentLabelledIff(item: Item, text: string, chunks: seq<Chunk>)
    requires IsDocument(item, text, chunks)
    ensures var title, raw := TitleOf(item), RawChunks(item, text);
      (forall k | 0 <= k < |chunks| :: Prefix(title, chunks[k].section) <= chunks[k].text)
      <==> (title == "" || forall k | 0 <= k < |raw| ::
              !Contains(Split(raw[k].text)[0], title) || Prefix(title, raw[k].section) <= raw[k].text)
  {
    var title, raw := TitleOf(item), RawChunks(item, text);
    forall k | 0 <= k < |raw|
      ensures Prefix(title, chunks[k].section) <= chunks[k].text
         <==> title == "" || !Contains(Split(raw[k].text)[0], title) || Prefix(title, raw[k].section) <= raw[k].text
    {
      LabelledHasPrefix(title, raw[k]);
    }
  }

  // ---- an item whose only chunk has no label -----------------------------

  lemma {:induction false} OneParagraph(p: string)
    requires IsParagraph(p)
    ensures SplitParagraphs(p) == [p] && Strip(p) == p
  {
    assert AllParagraphs([p]) && Join("\n\n", [p]) == p;
    ParagraphRoundTrip([p]);
    StripTrimmed(p);
  }

  lemma {:induction false} OnePiece(p: string, maxTokens: int, overlap: int)
    ensures Pieces([p], maxTokens, overlap) == [p]
  {
    assert [p][1..] == [] && [] + [p] == [p];
    assert Packing.GroupsFrom([], [p], maxTokens, overlap) == Packing.GroupsFrom([p], [], maxTokens, overlap) == [[p]];
    assert [[p]][1..] == [] && [p] + [] == [p];
  }

  lemma {:induction false} OneLaid(packed: seq<Packed>, heading: Option<string>, p: string)
    requires packed == [Packed(heading, [p])]
    ensures Laid(packed, 1) == [Chunk(p, 0, heading, None)]
  {
    assert Laid(packed, 0) == [];
    Unit(Numbered([p], heading, 0));
  }

  /** A document of one section with one paragraph is one raw chunk. */
  lemma {:induction false} OneSection(s: Section, maxTokens: int, overlap: int)
    requires Proper(s) && IsParagraph(s.body)
    ensures DocChunks(RenderSections([s]), maxTokens, overlap) == [Chunk(s.body, 0, s.heading, None)]
  {
    RenderedSplits([s]);
    OneParagraph(s.body);
    OnePiece(s.body, maxTokens, overlap);
    assert PackSections([s], maxTokens, overlap) == [Packed(s.heading, [s.body])];
    OneLaid(PackSections([s], maxTokens, overlap), s.heading, s.body);
  }

  /** Below its heading a single line is rendered as two lines. */
  lemma {:induction false} TwoLineDocument(heading: string, line: string)
    requires OneLine(line)
    ensures RenderSections([Section(Some(heading), 2, line)]) == "## " + heading + "\n" + line
  {
    var s := Section(Some(heading), 2, line);
    SplitCons(line, "");
    assert [s][1..] == [];
    assert HashMarks(0) == "" && HashMarks(1) == "#" && HashMarks(2) == "##" && "##" + " " == "## ";
    assert MarkLine(s) == "## " + heading;
    var lines := RenderLines([s]);
    assert RenderLines([]) == [] && [MarkLine(s)] + [line] + [] == [MarkLine(s), line];
    assert lines == [MarkLine(s), line] && lines[1..] == [line];
    assert Join("\n", lines[1..]) == line;
  }

  lemma {:induction false} InkEnds(s: string)
    requires s != "" && !IsSpace(s[0]) && !IsSpace(s[|s| - 1]) && OneLine(s)
    ensures Trimmed(s) && IsParagraph(s) && Split(s) == [s]
  {
    SplitCons(s, "");
  }

  /** A line that does not start with a hash is no heading. */
  lemma {:induction false} QuietInkLine(s: string)
    requires s != "" && Trimmed(s) && OneLine(s) && s[0] != '#'
    ensures Quiet(s)
  {
    SplitCons(s, "");
    StripTrimmed(s);
  }

  lemma {:induction false} PayInLine(s: string)
    requires s == "to pay"
    ensures Contains(s, "pay")
  {
    assert s[1..] == "o pay" && s[1..][1..] == " pay" && s[1..][1..][1..] == "pay";
    assert Contains("pay", "pay") && Contains(" pay", "pay") && Contains("o pay", "pay");
  }

  lemma {:induction false} UnlabelledChunk(heading: string, p: string)
    requires p == "to pay" && heading != ""
    ensures var chunk := Chunk(p, 0, Some(heading), None);
      Labelled("pay", chunk) == p && !(Prefix("pay", chunk.section) <= p)
  {
    PayInLine(p);
    SplitCons(p, "");
    assert Prefix("pay", Some(heading))[0] == 'p';
  }

  lemma {:induction false} SampleDocument(heading: string, p: string, text: string)
    requires heading == "Fees" && p == "to pay" && text == "## " + heading + "\n" + p
    ensures DocChunks(text, DOC_MAX_TOKENS, DOC_OVERLAP_TOKENS) == [Chunk(p, 0, Some(heading), None)]
  {
    InkEnds(heading);
    InkEnds(p);
    QuietInkLine(p);
    TwoLineDocument(heading, p);
    OneSection(Section(Some(heading), 2, p), DOC_MAX_TOKENS, DOC_OVERLAP_TOKENS);
  }

  lemma {:induction false} SampleText(text: string)
    requires text == "## Fees\nto pay"
    ensures text == "## " + "Fees" + "\n" + "to pay"
  {
  }

  /** The document "## Fees", "to pay" under the title "pay" is one chunk, without a label. */
  lemma {:induction false} PrefixCanBeMissing(item: Item, text: string, chunks: seq<Chunk>)
    requires TitleOf(item) == "pay" && TypeOf(item) != Str("faq") && text == "## Fees\nto pay"
    requires IsDocument(item, text, chunks)
    ensures |chunks| == 1 && chunks[0].section == Some("Fees") && chunks[0].text == "to pay"
    ensures !(Prefix(TitleOf(item), chunks[0].section) <= chunks[0].text)
  {
    SampleText(text);
    SampleDocument("Fees", "to pay", text);
    UnlabelledChunk("Fees", "to pay");
  }
}
