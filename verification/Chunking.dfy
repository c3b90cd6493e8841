/** Chunking one knowledge-base item: FAQ entries, documents, and the entry point. */
module Chunking {
  import opened Text
  import opened Packing
  import opened Paragraphs
  import opened Sections
  import Bodies
  import Cleaning

  const FAQ_MAX_TOKENS := 800
  const DOC_MAX_TOKENS := 500
  const DOC_OVERLAP_TOKENS := 50
  const BREADCRUMB: string := " › "
  const QUESTION_PREFIX: string := "پرسش: "
  const ANSWER_PREFIX: string := "پاسخ: "

  /** A value of an item: the key may be missing, or hold null. */
  datatype Field = Absent | Null | Str(value: string)

  datatype Item = Item(
    id: Field, visibility: Field, docType: Field, title: Field, body: Field, url: Field, updatedAt: Field)

  datatype Metadata = Metadata(
    documentId: Field, visibility: Field, docType: Field, title: string, section: Option<string>, url: Field,
    position: nat, updatedAt: Field)

  datatype Chunk = Chunk(text: string, position: nat, section: Option<string>, metadata: Option<Metadata>)

  /** The pieces `Pack` returns. */
  function Pieces(ps: seq<string>, maxTokens: int, overlap: int): seq<string> {
    JoinEach(Groups(ps, maxTokens, overlap))
  }

  // ---- FAQ ---------------------------------------------------------------

  function Head(title: string): string { QUESTION_PREFIX + title }

  function Answered(title: string, answer: string): string {
    Head(title) + "\n" + ANSWER_PREFIX + answer
  }

  function FaqBudget(title: string, maxTokens: int): int {
    var rest := maxTokens - (CountTokens(Head(title)) + 2);
    if rest > 1 then rest else 1
  }

  /** The comprehension over the enumerated pieces. */
  function FaqPieces(title: string, pieces: seq<string>): seq<Chunk> {
    seq(|pieces|, i requires 0 <= i < |pieces| => Chunk(Answered(title, pieces[i]), i, None, None))
  }

  function FaqChunks(title: string, answer: string, maxTokens: int): seq<Chunk> {
    if CountTokens(Answered(title, answer)) <= maxTokens then [Chunk(Answered(title, answer), 0, None, None)]
    else FaqPieces(title, Pieces(SplitParagraphs(answer), FaqBudget(title, maxTokens), 0))
  }

  /** `chunk_faq`, once the body has been cleaned. */
  method ChunkFaq(title: string, answer: string, maxTokens: int) returns (chunks: seq<Chunk>)
    ensures chunks == FaqChunks(title, answer, maxTokens)
  {
    var whole := Answered(title, answer);
    if CountTokens(whole) <= maxTokens {
      return [Chunk(whole, 0, None, None)];
    }
    var pieces := Pack(SplitParagraphs(answer), FaqBudget(title, maxTokens), 0);
    chunks := FaqPieces(title, pieces);
  }

  // ---- documents ---------------------------------------------------------

  function SectionPieces(s: Section, maxTokens: int, overlap: int): seq<string> {
    if Strip(s.body) == "" then [] else Pieces(SplitParagraphs(s.body), maxTokens, overlap)
  }

  function Numbered(pieces: seq<string>, heading: Option<string>, position: nat): seq<Chunk> {
    seq(|pieces|, i requires 0 <= i < |pieces| => Chunk(pieces[i], position + i, heading, None))
  }

  /** A section once its body is packed. */
  datatype Packed = Packed(heading: Option<string>, pieces: seq<string>)

  function PackSection(s: Section, maxTokens: int, overlap: int): Packed {
    Packed(s.heading, SectionPieces(s, maxTokens, overlap))
  }

  function PackSections(sections: seq<Section>, maxTokens: int, overlap: int): seq<Packed> {
    seq(|sections|, i requires 0 <= i < |sections| => PackSection(sections[i], maxTokens, overlap))
  }

  /** The chunks of the first `n` sections: positions count on from section to section. */
  function Laid(packed: seq<Packed>, n: nat): seq<Chunk>
    requires n <= |packed|
  {
    if n == 0 then []
    else
      var before, last := Laid(packed, n - 1), packed[n - 1];
      before + Numbered(last.pieces, last.heading, |before|)
  }

  function SectionChunks(sections: seq<Section>, maxTokens: int, overlap: int): seq<Chunk> {
    Laid(PackSections(sections, maxTokens, overlap), |sections|)
  }

  function DocChunks(text: string, maxTokens: int, overlap: int): seq<Chunk> {
    var chunks := SectionChunks(SectionList(text), maxTokens, overlap);
    if chunks == [] && Strip(text) != "" then [Chunk(Strip(text), 0, None, None)] else chunks
  }

  /** `chunk_doc`, once the body has been cleaned. */
  method ChunkDoc(text: string, maxTokens: int, overlap: int) returns (chunks: seq<Chunk>)
    ensures chunks == DocChunks(text, maxTokens, overlap)
  {
    var sections := SplitSections(text);
    chunks := ChunkSections(sections, maxTokens, overlap);
    if chunks == [] && Strip(text) != "" {
      chunks := chunks + [Chunk(Strip(text), 0, None, None)];
    }
  }

  lemma {:induction false} LaidNext(packed: seq<Packed>, i: nat)
    requires i < |packed|
    ensures var before, last := Laid(packed, i), packed[i];
      && Laid(packed, i + 1) == before + Numbered(last.pieces, last.heading, |before|)
      && |Laid(packed, i + 1)| == |before| + |last.pieces|
  {
  }

  /** The loop over the sections. */
  method ChunkSections(sections: seq<Section>, maxTokens: int, overlap: int) returns (chunks: seq<Chunk>)
    ensures chunks == SectionChunks(sections, maxTokens, overlap)
  {
    chunks := [];
    var position: nat := 0;
    ghost var packed := PackSections(sections, maxTokens, overlap);
    for i := 0 to |sections|
      invariant position == |chunks| && chunks == Laid(packed, i)
    {
      LaidNext(packed, i);
      chunks, position := AppendPieces(chunks, sections[i], position, maxTokens, overlap, packed[i]);
    }
  }

  /** The body of the loop: one chunk for each piece of a section, the position counting on. */
  method AppendPieces(before: seq<Chunk>, section: Section, start: nat, maxTokens: int, overlap: int,
          ghost packed: Packed)
    returns (chunks: seq<Chunk>, position: nat)
    requires packed == PackSection(section, maxTokens, overlap)
    ensures chunks == before + Numbered(packed.pieces, packed.heading, start)
    ensures position == start + |packed.pieces|
  {
    chunks, position := before, start;
    if Strip(section.body) == "" { return; }
    var pieces := Pack(SplitParagraphs(section.body), maxTokens, overlap);
    AppendedEnds(before, pieces, section.heading, start);
    for i := 0 to |pieces|
      invariant position == start + i && chunks == Appended(before, pieces, section.heading, start, i)
    {
      AppendedNext(before, pieces, section.heading, start, i);
      chunks := chunks + [Chunk(pieces[i], position, section.heading, None)];
      position := position + 1;
    }
  }

  /** The chunks once `i` pieces are appended. */
  function Appended(before: seq<Chunk>, pieces: seq<string>, heading: Option<string>, start: nat, i: nat): seq<Chunk>
    requires i <= |pieces|
  {
    before + Numbered(pieces[..i], heading, start)
  }

  lemma {:induction false} AppendedEnds(before: seq<Chunk>, pieces: seq<string>, heading: Option<string>, start: nat)
    ensures Appended(before, pieces, heading, start, 0) == before
    ensures Appended(before, pieces, heading, start, |pieces|) == before + Numbered(pieces, heading, start)
  {
    assert Numbered(pieces[..0], heading, start) == [] && pieces[..|pieces|] == pieces;
  }

  lemma {:induction false} AppendedNext(before: seq<Chunk>, pieces: seq<string>, heading: Option<string>,
          start: nat, i: nat)
    requires i < |pieces|
    ensures Appended(before, pieces, heading, start, i) + [Chunk(pieces[i], start + i, heading, None)]
         == Appended(before, pieces, heading, start, i + 1)
  {
    var a, c := Numbered(pieces[..i], heading, start), Chunk(pieces[i], start + i, heading, None);
    assert Numbered(pieces[..i + 1], heading, start) == a + [c];
    Assoc(before, a, [c]);
  }

  // ---- the entry point ---------------------------------------------------

  /** `_prefix`. */
  function Prefix(title: string, section: Option<string>): string {
    if section.Some? && section.value != "" && section.value != title then title + BREADCRUMB + section.value else title
  }

  predicate Contains(s: string, part: string) {
    part <= s || (s != "" && Contains(s[1..], part))
  }

  function Labelled(title: string, chunk: Chunk): string {
    var firstLine := Split(chunk.text)[0];
    if title != "" && Contains(firstLine, title) then chunk.text else Prefix(title, chunk.section) + "\n" + chunk.text
  }

  function Get(f: Field): Field { if f.Absent? then Null else f }

  /** `item.get(key) or ""`. */
  function OrEmpty(f: Field): string { if f.Str? then f.value else "" }

  function Finished(item: Item, title: string, docType: Field, chunk: Chunk, position: nat): Chunk {
    var metadata := Metadata(Get(item.id), Get(item.visibility), docType, title, chunk.section, Get(item.url),
                             position, Get(item.updatedAt));
    Chunk(Labelled(title, chunk), position, chunk.section, Some(metadata))
  }

  function TitleOf(item: Item): string { Strip(OrEmpty(item.title)) }

  function TypeOf(item: Item): Field { if item.docType.Absent? then Str("doc") else item.docType }

  function RawChunks(item: Item, text: string): seq<Chunk> {
    if TypeOf(item) == Str("faq") then FaqChunks(TitleOf(item), text, FAQ_MAX_TOKENS)
    else DocChunks(text, DOC_MAX_TOKENS, DOC_OVERLAP_TOKENS)
  }

  ghost predicate AllInked(chunks: seq<Chunk>) {
    forall i | 0 <= i < |chunks| :: Strip(chunks[i].text) != ""
  }

  /** The loop that labels the raw chunks and skips blank ones: there are none. */
  method Finish(item: Item, title: string, docType: Field, raw: seq<Chunk>) returns (chunks: seq<Chunk>)
    requires AllInked(raw)
    ensures |chunks| == |raw|
    ensures forall i | 0 <= i < |raw| :: chunks[i] == Finished(item, title, docType, raw[i], i)
  {
    chunks := [];
    for i := 0 to |raw|
      invariant |chunks| == i
      invariant forall k | 0 <= k < i :: chunks[k] == Finished(item, title, docType, raw[k], k)
    {
      LabelKeepsInk(title, raw[i]);
      if Strip(Labelled(title, raw[i])) == "" { continue; }
      chunks := chunks + [Finished(item, title, docType, raw[i], |chunks|)];
    }
  }

  /** The chunks of an item are its raw chunks, each labelled, in order: none is skipped. */
  ghost predicate IsDocument(item: Item, text: string, chunks: seq<Chunk>) {
    var raw := RawChunks(item, text);
    && |chunks| == |raw|
    && forall i | 0 <= i < |raw| :: chunks[i] == Finished(item, TitleOf(item), TypeOf(item), raw[i], i)
  }

  /** The text is what must become of the body of the item; a missing one is empty. */
  ghost predicate IsDocumentOf(item: Item, digit: char -> bool, tokenize: Cleaning.Tokenizer, chunks: seq<Chunk>) {
    var body := if item.body.Str? then item.body.value else "";
    exists text: string :: Bodies.CleanedFrom(digit, tokenize, body, text) && IsDocument(item, text, chunks)
  }

  /** `chunk_document`. */
  method ChunkDocument(item: Item, digit: char -> bool, tokenize: Cleaning.Tokenizer) returns (chunks: seq<Chunk>)
    ensures IsDocument(item, Cleaning.Clean(digit, tokenize, OrEmpty(item.body)), chunks)
    ensures IsDocumentOf(item, digit, tokenize, chunks)
  {
    var title, body, docType := TitleOf(item), OrEmpty(item.body), TypeOf(item);
    var text := Cleaning.Clean(digit, tokenize, body);
    var raw: seq<Chunk>;
    if docType == Str("faq") {
      raw := ChunkFaq(title, text, FAQ_MAX_TOKENS);
    } else {
      raw := ChunkDoc(text, DOC_MAX_TOKENS, DOC_OVERLAP_TOKENS);
    }
    RawHasInk(item, text);
    chunks := Finish(item, title, docType, raw);
    FromBody(item, digit, tokenize, chunks);
  }

  lemma {:induction false} FromBody(item: Item, digit: char -> bool, tokenize: Cleaning.Tokenizer, chunks: seq<Chunk>)
    requires IsDocument(item, Cleaning.Clean(digit, tokenize, OrEmpty(item.body)), chunks)
    ensures IsDocumentOf(item, digit, tokenize, chunks)
  {
    Bodies.CleanIs(digit, tokenize, OrEmpty(item.body));
  }

  // ---- no chunk is blank -------------------------------------------------

  lemma {:induction false} NotBlank(s: string, i: nat)
    requires i < |s| && !IsSpace(s[i])
    ensures Strip(s) != ""
  {
    StripEmptyIsBlank(s);
  }

  lemma {:induction false} LabelKeepsInk(title: string, chunk: Chunk)
    requires Strip(chunk.text) != ""
    ensures Strip(Labelled(title, chunk)) != ""
  {
    StripEmptyIsBlank(chunk.text);
    var i :| 0 <= i < |chunk.text| && !IsSpace(chunk.text[i]);
    var head := Prefix(title, chunk.section) + "\n";
    assert (head + chunk.text)[|head| + i] == chunk.text[i];
    NotBlank(head + chunk.text, |head| + i);
  }

  lemma {:induction false} PieceHasInk(group: seq<string>)
    requires group != [] && AllParagraphs(group)
    ensures Strip(Join("\n\n", group)) != ""
  {
    assert IsParagraph(group[0]);
    NotBlank(Join("\n\n", group), 0);
  }

  /** The groups of paragraphs are groups of paragraphs. */
  lemma {:induction false} GroupsOfParagraphs(ps: seq<string>, maxTokens: int, overlap: int, j: nat)
    requires AllParagraphs(ps) && j < |Groups(ps, maxTokens, overlap)|
    ensures var g := Groups(ps, maxTokens, overlap)[j]; g != [] && AllParagraphs(g)
    ensures SplitParagraphs(Pieces(ps, maxTokens, overlap)[j]) == Groups(ps, maxTokens, overlap)[j]
  {
    var added := PackDecomposes(ps, maxTokens, overlap);
    GroupsInside(ps, maxTokens, overlap, added, j);
    ParagraphRoundTrip(Groups(ps, maxTokens, overlap)[j]);
  }

  lemma {:induction false} GroupsInside(ps: seq<string>, maxTokens: int, overlap: int, added: seq<seq<string>>, j: nat)
    requires AllParagraphs(ps) && j < |Groups(ps, maxTokens, overlap)|
    requires var groups := Groups(ps, maxTokens, overlap);
      Decomposes(groups, added, maxTokens, overlap) && Flatten(added) == ps && (groups != [] ==> groups[0] == added[0])
    ensures var g := Groups(ps, maxTokens, overlap)[j]; g != [] && AllParagraphs(g)
    decreases j
  {
    var groups := Groups(ps, maxTokens, overlap);
    assert PieceAt(groups, added, maxTokens, overlap, j);
    forall i | 0 <= i < |added[j]| ensures IsParagraph(added[j][i]) {
      InFlatten(added, j, i);
      var k :| 0 <= k < |ps| && ps[k] == added[j][i];
    }
    if j > 0 {
      GroupsInside(ps, maxTokens, overlap, added, j - 1);
      var c := Carry(groups[j - 1], overlap);
      assert forall i | 0 <= i < |c| :: c[i] == groups[j - 1][|groups[j - 1]| - |c| + i];
    }
  }

  lemma {:induction false} RawHasInk(item: Item, text: string)
    ensures AllInked(RawChunks(item, text))
  {
    if TypeOf(item) == Str("faq") {
      FaqHasInk(TitleOf(item), text, FAQ_MAX_TOKENS);
    } else {
      DocHasInk(text, DOC_MAX_TOKENS, DOC_OVERLAP_TOKENS);
    }
  }

  lemma {:induction false} FaqHasInk(title: string, answer: string, maxTokens: int)
    ensures AllInked(FaqChunks(title, answer, maxTokens))
  {
    forall a ensures Strip(Answered(title, a)) != "" {
      assert Answered(title, a)[0] == QUESTION_PREFIX[0];
      NotBlank(Answered(title, a), 0);
    }
  }

  ghost predicate Inked(p: Packed) {
    forall j | 0 <= j < |p.pieces| :: Strip(p.pieces[j]) != ""
  }

  lemma {:induction false} PiecesHaveInk(s: Section, maxTokens: int, overlap: int)
    ensures Inked(PackSection(s, maxTokens, overlap))
  {
    var pieces := SectionPieces(s, maxTokens, overlap);
    forall j | 0 <= j < |pieces| ensures Strip(pieces[j]) != "" {
      var ps := SplitParagraphs(s.body);
      SplitYieldsParagraphs(s.body);
      GroupsOfParagraphs(ps, maxTokens, overlap, j);
      PieceHasInk(Groups(ps, maxTokens, overlap)[j]);
    }
  }

  lemma {:induction false} LaidHasInk(packed: seq<Packed>, n: nat)
    requires n <= |packed| && forall i | 0 <= i < |packed| :: Inked(packed[i])
    ensures AllInked(Laid(packed, n))
  {
    if n > 0 {
      LaidHasInk(packed, n - 1);
      assert Inked(packed[n - 1]);
    }
  }

  lemma {:induction false} DocHasInk(text: string, maxTokens: int, overlap: int)
    ensures AllInked(DocChunks(text, maxTokens, overlap))
  {
    var sections := SectionList(text);
    var packed := PackSections(sections, maxTokens, overlap);
    forall i | 0 <= i < |packed| ensures Inked(packed[i]) { PiecesHaveInk(sections[i], maxTokens, overlap); }
    LaidHasInk(packed, |packed|);
    StripIdempotent(text);
  }
}
