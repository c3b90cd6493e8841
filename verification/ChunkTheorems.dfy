/** What the chunks of an item hold: nothing is lost, invented or out of place. */
module ChunkTheorems {
  import opened Text
  import Rewriting
  import opened Packing
  import opened Paragraphs
  import opened Sections
  import opened Chunking
  import Labels

  // ---- a blank text has no chunks, any other has some --------------------

  lemma {:induction false} BlankLines(s: string)
    requires Blank(s)
    ensures forall i | 0 <= i < |Split(s)| :: Blank(Split(s)[i])
  {
    if s != "" {
      BlankLines(s[1..]);
      var rest := Split(s[1..]);
      forall i | 0 <= i < |Split(s)| ensures Blank(Split(s)[i]) {
        if s[0] == '\n' {
          assert i > 0 ==> Split(s)[i] == rest[i - 1];
        } else if i > 0 {
          assert Split(s)[i] == rest[i];
        } else {
          assert Blank(rest[0]);
        }
      }
    }
  }

  lemma {:induction false} OneSegment(lines: seq<string>)
    requires forall i | 0 <= i < |lines| :: Blank(lines[i])
    ensures Segments(lines) == [Segment(None, lines)]
  {
    if lines != [] {
      OneSegment(lines[1..]);
      StripBlank(lines[0]);
      assert [lines[0]] + lines[1..] == lines;
    }
  }

  lemma {:induction false} BlankHasNoSections(text: string)
    requires Strip(text) == ""
    ensures SectionList(text) == []
  {
    StripEmptyIsBlank(text);
    BlankLines(text);
    OneSegment(Split(text));
    JoinSplit(text);
    var one := Segment(None, Split(text));
    assert [one][1..] == [];
    assert SectionOf(one) == [];
  }

  /** `chunk_doc` returns no chunk exactly when the text is blank. */
  lemma {:induction false} DocEmptyIffBlank(text: string, maxTokens: int, overlap: int)
    ensures DocChunks(text, maxTokens, overlap) == [] <==> Strip(text) == ""
  {
    if Strip(text) == "" { BlankHasNoSections(text); }
  }

  // ---- positions ---------------------------------------------------------

  ghost predicate Counted(chunks: seq<Chunk>) {
    forall k | 0 <= k < |chunks| :: chunks[k].position == k
  }

  lemma {:induction false} LaidCounted(packed: seq<Packed>, n: nat)
    requires n <= |packed|
    ensures Counted(Laid(packed, n))
  {
    if n > 0 { LaidCounted(packed, n - 1); }
  }

  /** The raw chunks of an item are numbered 0, 1, 2, ... */
  lemma {:induction false} RawCounted(item: Item, text: string)
    ensures Counted(RawChunks(item, text))
  {
    FaqCounted(TitleOf(item), text, FAQ_MAX_TOKENS);
    DocCounted(text, DOC_MAX_TOKENS, DOC_OVERLAP_TOKENS);
  }

  lemma {:induction false} FaqCounted(title: string, answer: string, maxTokens: int)
    ensures Counted(FaqChunks(title, answer, maxTokens))
  {
    PiecesCounted(title, Pieces(SplitParagraphs(answer), FaqBudget(title, maxTokens), 0));
    OneCounted(Chunk(Answered(title, answer), 0, None, None));
  }

  lemma {:induction false} PiecesCounted(title: string, pieces: seq<string>)
    ensures Counted(FaqPieces(title, pieces))
  {
  }

  lemma {:induction false} OneCounted(chunk: Chunk)
    requires chunk.position == 0
    ensures Counted([chunk])
  {
  }

  lemma {:induction false} DocCounted(text: string, maxTokens: int, overlap: int)
    ensures Counted(DocChunks(text, maxTokens, overlap))
  {
    var packed := PackSections(SectionList(text), maxTokens, overlap);
    LaidCounted(packed, |packed|);
  }

  // ---- a piece is a run of paragraphs ------------------------------------

  lemma {:induction false} FlattenSplit(groups: seq<seq<string>>, j: nat)
    requires j <= |groups|
    ensures Flatten(groups) == Flatten(groups[..j]) + Flatten(groups[j..])
  {
    if j == 0 {
      assert groups[..0] == [] && groups[0..] == groups && [] + Flatten(groups) == Flatten(groups);
    } else {
      FlattenSplit(groups[1..], j - 1);
      assert groups[1..][..j - 1] == groups[..j][1..] && groups[1..][j - 1..] == groups[j..];
      assert groups[0] + (Flatten(groups[..j][1..]) + Flatten(groups[j..]))
           == groups[0] + Flatten(groups[..j][1..]) + Flatten(groups[j..]);
    }
  }

  lemma {:induction false} FlattenSnoc(groups: seq<seq<string>>, g: seq<string>)
    ensures Flatten(groups + [g]) == Flatten(groups) + g
  {
    if groups == [] {
      assert [g][1..] == [] && g + [] == g && [] + g == g;
    } else {
      FlattenSnoc(groups[1..], g);
      assert (groups + [g])[1..] == groups[1..] + [g];
      assert groups[0] + (Flatten(groups[1..]) + g) == groups[0] + Flatten(groups[1..]) + g;
    }
  }

  /** What is flattened up to block `j`, then block `j`. */
  lemma {:induction false} FlattenAt(groups: seq<seq<string>>, j: nat)
    requires j < |groups|
    ensures Flatten(groups[..j + 1]) == Flatten(groups[..j]) + groups[j]
  {
    assert groups[..j + 1] == groups[..j] + [groups[j]];
    FlattenSnoc(groups[..j], groups[j]);
  }

  /** Piece `j` ends where its fresh part ends, and starts as far back as its carry. */
  lemma {:induction false} PieceIsRun(ps: seq<string>, maxTokens: int, overlap: int, added: seq<seq<string>>, j: nat)
    returns (a: nat)
    requires var groups := Groups(ps, maxTokens, overlap);
      && j < |groups| && Decomposes(groups, added, maxTokens, overlap) && Flatten(added) == ps && groups[0] == added[0]
    ensures var done := Flatten(added[..j + 1]);
      done <= ps && a <= |done| && Groups(ps, maxTokens, overlap)[j] == ps[a..|done|]
    decreases j
  {
    var groups := Groups(ps, maxTokens, overlap);
    DonePrefix(ps, added, j);
    if j == 0 {
      a := 0;
      assert added[..0] == [];
    } else {
      var b := PieceIsRun(ps, maxTokens, overlap, added, j - 1);
      assert PieceAt(groups, added, maxTokens, overlap, j);
      a := NextRun(ps, b, |Flatten(added[..j])|, overlap, groups[j - 1], groups[j], added[j]);
    }
  }

  /** Where the fresh parts up to block `j` stand. */
  lemma {:induction false} DonePrefix(ps: seq<string>, added: seq<seq<string>>, j: nat)
    requires j < |added| && Flatten(added) == ps
    ensures var e, n := |Flatten(added[..j])|, |added[j]|;
      e + n <= |ps| && ps[e..e + n] == added[j] && Flatten(added[..j + 1]) == ps[..e + n]
          && |Flatten(added[..j + 1])| == e + n
  {
    FlattenAt(added, j);
    FlattenSplit(added, j + 1);
  }

  /** A piece that is the carry of a run and the paragraphs behind it is a run. */
  lemma {:induction false} NextRun(ps: seq<string>, b: nat, e: nat, overlap: int, last: seq<string>,
          next: seq<string>, more: seq<string>)
    returns (a: nat)
    requires b <= e && e + |more| <= |ps| && ps[e..e + |more|] == more && last == ps[b..e]
    requires next == Carry(last, overlap) + more
    ensures a <= e && next == ps[a..e + |more|]
  {
    var carry := Carry(last, overlap);
    a := e - |carry|;
    RunJoins(ps, b, e, carry, more);
  }

  lemma {:induction false} RunJoins(ps: seq<string>, b: nat, e: nat, carry: seq<string>, more: seq<string>)
    requires b <= e && e + |more| <= |ps| && ps[e..e + |more|] == more
    requires |carry| <= e - b && carry == ps[b..e][e - b - |carry|..]
    ensures carry + more == ps[e - |carry|..e + |more|]
  {
  }

  /** Every piece is a run of consecutive paragraphs, not empty, and every paragraph lies in one. */
  lemma {:induction false} PiecesAreRuns(ps: seq<string>, maxTokens: int, overlap: int, j: nat) returns (a: nat, b: nat)
    requires j < |Groups(ps, maxTokens, overlap)|
    ensures a < b <= |ps| && Groups(ps, maxTokens, overlap)[j] == ps[a..b]
  {
    var added := PackDecomposes(ps, maxTokens, overlap);
    a := PieceIsRun(ps, maxTokens, overlap, added, j);
    b := |Flatten(added[..j + 1])|;
    assert PieceAt(Groups(ps, maxTokens, overlap), added, maxTokens, overlap, j);
  }

  lemma {:induction false} FindBlock(groups: seq<seq<string>>, i: nat) returns (j: nat, k: nat)
    requires i < |Flatten(groups)|
    ensures j < |groups| && k < |groups[j]| && groups[j][k] == Flatten(groups)[i]
  {
    if i < |groups[0]| {
      j, k := 0, i;
    } else {
      j, k := FindBlock(groups[1..], i - |groups[0]|);
      j := j + 1;
    }
  }

  lemma {:induction false} ParagraphHasPiece(ps: seq<string>, maxTokens: int, overlap: int, i: nat)
    returns (j: nat, k: nat)
    requires i < |ps|
    ensures var groups := Groups(ps, maxTokens, overlap);
      j < |groups| && k < |groups[j]| && groups[j][k] == ps[i]
  {
    var added := PackDecomposes(ps, maxTokens, overlap);
    var groups := Groups(ps, maxTokens, overlap);
    j, k := FindBlock(added, i);
    assert PieceAt(groups, added, maxTokens, overlap, j);
    if j > 0 { k := |Carry(groups[j - 1], overlap)| + k; }
  }

  // ---- sections and their chunks -----------------------------------------

  /** The chunks of section `i` stand together, one for each of its pieces. */
  lemma {:induction false} LaidAt(packed: seq<Packed>, n: nat, i: nat, j: nat)
    requires i < n <= |packed| && j < |packed[i].pieces|
    ensures var k, all := |Laid(packed, i)| + j, Laid(packed, n);
      k < |all| && all[k] == Chunk(packed[i].pieces[j], k, packed[i].heading, None)
  {
    if i < n - 1 { LaidAt(packed, n - 1, i, j); }
  }

  /** Every chunk of a document belongs to one of its sections. */
  lemma {:induction false} LaidFrom(packed: seq<Packed>, n: nat, k: nat) returns (i: nat, j: nat)
    requires n <= |packed| && k < |Laid(packed, n)|
    ensures i < n && j < |packed[i].pieces| && k == |Laid(packed, i)| + j
  {
    var before := Laid(packed, n - 1);
    if k < |before| {
      i, j := LaidFrom(packed, n - 1, k);
    } else {
      i, j := n - 1, k - |before|;
    }
  }

  /** Every paragraph of a body stands whole in one of its pieces. */
  lemma {:induction false} ParagraphInPiece(s: Section, maxTokens: int, overlap: int, packed: Packed, p: nat)
    returns (j: nat)
    requires packed == PackSection(s, maxTokens, overlap) && p < |SplitParagraphs(s.body)|
    ensures j < |packed.pieces| && SplitParagraphs(s.body)[p] in SplitParagraphs(packed.pieces[j])
  {
    var ps := SplitParagraphs(s.body);
    NoParagraphsIffBlank(s.body);
    SplitYieldsParagraphs(s.body);
    var q;
    j, q := ParagraphHasPiece(ps, maxTokens, overlap, p);
    GroupsOfParagraphs(ps, maxTokens, overlap, j);
  }

  /** ... and a piece is a run of consecutive paragraphs. */
  lemma {:induction false} PieceOfBody(s: Section, maxTokens: int, overlap: int, packed: Packed, j: nat, chunk: Chunk)
    returns (a: nat, b: nat)
    requires packed == PackSection(s, maxTokens, overlap) && j < |packed.pieces|
    requires chunk.text == packed.pieces[j] && chunk.section == packed.heading
    ensures IsRun(chunk, s, a, b)
  {
    var ps := SplitParagraphs(s.body);
    SplitYieldsParagraphs(s.body);
    GroupsOfParagraphs(ps, maxTokens, overlap, j);
    a, b := PiecesAreRuns(ps, maxTokens, overlap, j);
  }

  lemma {:induction false} NoBodies(packed: seq<Packed>, n: nat)
    requires n <= |packed| && forall s | 0 <= s < |packed| :: packed[s].pieces == []
    ensures Laid(packed, n) == []
  {
    if n > 0 { NoBodies(packed, n - 1); }
  }

  /** Paragraph `p` of a section stands whole in a chunk under the heading of the section. */
  ghost predicate Holds(chunk: Chunk, section: Section, p: nat)
    requires p < |SplitParagraphs(section.body)|
  {
    chunk.section == section.heading && SplitParagraphs(section.body)[p] in SplitParagraphs(chunk.text)
  }

  /** A chunk is the paragraphs `a` to `b` of a section, under its heading. */
  ghost predicate IsRun(chunk: Chunk, section: Section, a: nat, b: nat) {
    && chunk.section == section.heading && a < b <= |SplitParagraphs(section.body)|
    && SplitParagraphs(chunk.text) == SplitParagraphs(section.body)[a..b]
  }

  /** The number of chunks before section `i`: its chunks are those from there up to the
      same number for section `i + 1`. */
  function ChunksBefore(sections: seq<Section>, i: nat, maxTokens: int, overlap: int): nat
    requires i <= |sections|
  {
    |Laid(PackSections(sections, maxTokens, overlap), i)|
  }

  predicate InSection(sections: seq<Section>, i: nat, k: nat, maxTokens: int, overlap: int)
    requires i < |sections|
  {
    ChunksBefore(sections, i, maxTokens, overlap) <= k < ChunksBefore(sections, i + 1, maxTokens, overlap)
  }

  lemma {:induction false} SectionLands(sections: seq<Section>, maxTokens: int, overlap: int, i: nat, p: nat)
    returns (k: nat)
    requires i < |sections| && p < |SplitParagraphs(sections[i].body)|
    ensures var chunks := SectionChunks(sections, maxTokens, overlap);
      k < |chunks| && InSection(sections, i, k, maxTokens, overlap) && Holds(chunks[k], sections[i], p)
  {
    var packed := PackSections(sections, maxTokens, overlap);
    k := PackedLands(packed, i, sections[i], maxTokens, overlap, p);
  }

  lemma {:induction false} PackedLands(packed: seq<Packed>, i: nat, s: Section, maxTokens: int, overlap: int, p: nat)
    returns (k: nat)
    requires i < |packed| && packed[i] == PackSection(s, maxTokens, overlap) && p < |SplitParagraphs(s.body)|
    ensures |Laid(packed, i)| <= k < |Laid(packed, i + 1)|
    ensures k < |Laid(packed, |packed|)| && Holds(Laid(packed, |packed|)[k], s, p)
  {
    var j := ParagraphInPiece(s, maxTokens, overlap, packed[i], p);
    k := PieceLands(packed, i, j);
    ChunkHolds(Laid(packed, |packed|)[k], s, p);
  }

  lemma {:induction false} PieceLands(packed: seq<Packed>, i: nat, j: nat) returns (k: nat)
    requires i < |packed| && j < |packed[i].pieces|
    ensures |Laid(packed, i)| <= k < |Laid(packed, i + 1)| && k < |Laid(packed, |packed|)|
    ensures Laid(packed, |packed|)[k] == Chunk(packed[i].pieces[j], k, packed[i].heading, None)
  {
    k := |Laid(packed, i)| + j;
    LaidGrows(packed, i);
    LaidAt(packed, |packed|, i, j);
  }

  lemma {:induction false} LaidGrows(packed: seq<Packed>, i: nat)
    requires i < |packed|
    ensures |Laid(packed, i + 1)| == |Laid(packed, i)| + |packed[i].pieces|
  {
  }

  lemma {:induction false} ChunkHolds(chunk: Chunk, s: Section, p: nat)
    requires p < |SplitParagraphs(s.body)| && SplitParagraphs(s.body)[p] in SplitParagraphs(chunk.text)
    requires chunk.section == s.heading
    ensures Holds(chunk, s, p)
  {
  }

  /** Every paragraph of every section stands whole in one of the chunks of that section,
      under its heading. */
  lemma {:induction false} ParagraphLands(text: string, maxTokens: int, overlap: int, i: nat, p: nat) returns (k: nat)
    requires i < |SectionList(text)| && p < |SplitParagraphs(SectionList(text)[i].body)|
    ensures InSection(SectionList(text), i, k, maxTokens, overlap)
    ensures var chunks := DocChunks(text, maxTokens, overlap);
      k < |chunks| && Holds(chunks[k], SectionList(text)[i], p)
  {
    k := SectionLands(SectionList(text), maxTokens, overlap, i, p);
  }

  lemma {:induction false} SectionRun(sections: seq<Section>, maxTokens: int, overlap: int, k: nat)
    returns (i: nat, a: nat, b: nat)
    requires k < |SectionChunks(sections, maxTokens, overlap)|
    ensures i < |sections| && InSection(sections, i, k, maxTokens, overlap)
    ensures IsRun(SectionChunks(sections, maxTokens, overlap)[k], sections[i], a, b)
  {
    var packed := PackSections(sections, maxTokens, overlap);
    var j;
    i, j := LaidFrom(packed, |packed|, k);
    a, b := PackedRun(packed, i, j, k, sections[i], maxTokens, overlap);
  }

  lemma {:induction false} PackedRun(packed: seq<Packed>, i: nat, j: nat, k: nat, s: Section, maxTokens: int,
          overlap: int)
    returns (a: nat, b: nat)
    requires i < |packed| && packed[i] == PackSection(s, maxTokens, overlap) && j < |packed[i].pieces|
    requires k == |Laid(packed, i)| + j
    ensures k < |Laid(packed, |packed|)| && IsRun(Laid(packed, |packed|)[k], s, a, b)
  {
    LaidAt(packed, |packed|, i, j);
    a, b := PieceOfBody(s, maxTokens, overlap, packed[i], j, Laid(packed, |packed|)[k]);
  }

  lemma {:induction false} NoChunksIff(sections: seq<Section>, maxTokens: int, overlap: int)
    ensures SectionChunks(sections, maxTokens, overlap) == []
       <==> forall s | 0 <= s < |sections| :: Strip(sections[s].body) == ""
  {
    if s :| 0 <= s < |sections| && Strip(sections[s].body) != "" {
      NoParagraphsIffBlank(sections[s].body);
      var k := SectionLands(sections, maxTokens, overlap, s, 0);
    } else {
      var packed := PackSections(sections, maxTokens, overlap);
      NoBodies(packed, |packed|);
    }
  }

  /** The chunks of a section are its packed paragraphs: each repeats the longest tail of the
      one before it that is within the overlap and goes on with new paragraphs, a new chunk
      is begun only when the next paragraph would not fit, and a chunk over the budget has
      one new paragraph. */
  lemma {:induction false} SectionPacked(sections: seq<Section>, maxTokens: int, overlap: int, i: nat)
    returns (groups: seq<seq<string>>, added: seq<seq<string>>)
    requires i < |sections|
    ensures var first := ChunksBefore(sections, i, maxTokens, overlap);
      && ChunksBefore(sections, i + 1, maxTokens, overlap) == first + |groups|
      && StandAt(SectionChunks(sections, maxTokens, overlap), first, groups, sections[i].heading)
    ensures Decomposes(groups, added, maxTokens, overlap) && (groups != [] ==> groups[0] == added[0])
    ensures Flatten(added) == SplitParagraphs(sections[i].body)
  {
    var ps := SplitParagraphs(sections[i].body);
    groups := Groups(ps, maxTokens, overlap);
    added := PackDecomposes(ps, maxTokens, overlap);
    PackedIs(sections[i], maxTokens, overlap);
    PackedStand(PackSections(sections, maxTokens, overlap), i, groups);
  }

  /** The chunks of the groups, one after the other, under a heading. */
  ghost predicate StandAt(chunks: seq<Chunk>, first: nat, groups: seq<seq<string>>, heading: Option<string>) {
    && first + |groups| <= |chunks|
    && forall j | 0 <= j < |groups| :: chunks[first + j] == Chunk(Join("\n\n", groups[j]), first + j, heading, None)
  }

  lemma {:induction false} PackedIs(s: Section, maxTokens: int, overlap: int)
    ensures PackSection(s, maxTokens, overlap)
         == Packed(s.heading, JoinEach(Groups(SplitParagraphs(s.body), maxTokens, overlap)))
  {
    NoParagraphsIffBlank(s.body);
  }

  lemma {:induction false} PackedStand(packed: seq<Packed>, i: nat, groups: seq<seq<string>>)
    requires i < |packed| && packed[i].pieces == JoinEach(groups)
    ensures |Laid(packed, i + 1)| == |Laid(packed, i)| + |groups|
    ensures StandAt(Laid(packed, |packed|), |Laid(packed, i)|, groups, packed[i].heading)
  {
    LaidGrows(packed, i);
    LaidLonger(packed, i + 1, |packed|);
    forall j | 0 <= j < |groups|
      ensures var k := |Laid(packed, i)| + j;
        && k < |Laid(packed, |packed|)|
        && Laid(packed, |packed|)[k] == Chunk(Join("\n\n", groups[j]), k, packed[i].heading, None)
    {
      LaidAt(packed, |packed|, i, j);
    }
  }

  lemma {:induction false} LaidLonger(packed: seq<Packed>, m: nat, n: nat)
    requires m <= n <= |packed|
    ensures |Laid(packed, m)| <= |Laid(packed, n)|
  {
    if m < n { LaidLonger(packed, m, n - 1); }
  }

  /** Conversely a chunk holds consecutive paragraphs of one section, under its heading;
      or it is the whole text, because no section has a body. */
  lemma {:induction false} ChunkHoldsRun(text: string, maxTokens: int, overlap: int, k: nat)
    returns (i: nat, a: nat, b: nat)
    requires k < |DocChunks(text, maxTokens, overlap)|
    ensures var sections, chunk := SectionList(text), DocChunks(text, maxTokens, overlap)[k];
      if exists s | 0 <= s < |sections| :: Strip(sections[s].body) != "" then
        i < |sections| && InSection(sections, i, k, maxTokens, overlap) && IsRun(chunk, sections[i], a, b)
      else k == 0 && chunk == Chunk(Strip(text), 0, None, None)
  {
    var sections := SectionList(text);
    i, a, b := 0, 0, 0;
    NoChunksIff(sections, maxTokens, overlap);
    if SectionChunks(sections, maxTokens, overlap) != [] { i, a, b := SectionRun(sections, maxTokens, overlap, k); }
  }

  // ---- a paragraph lies in its text --------------------------------------

  lemma {:induction false} ContainsInside(a: string, part: string, b: string)
    ensures Contains(a + part + b, part)
  {
    if a == "" {
      assert a + part + b == part + b;
    } else {
      assert (a + part + b)[1..] == a[1..] + part + b;
      ContainsInside(a[1..], part, b);
    }
  }

  lemma {:induction false} PartInside(s: string, i: nat) returns (a: string, b: string)
    requires i < |SplitRuns(s)|
    ensures s == a + SplitRuns(s)[i] + b && (i == 0 ==> a == "")
    decreases |s|
  {
    var n := Rewriting.Run(Rewriting.Newline, s);
    if s == "" || (n >= 2 && i == 0) {
      a, b := "", s;
      Unit(s);
    } else if n >= 2 {
      a, b := PartInside(s[n..], i - 1);
      Prepended(s, n, a, SplitRuns(s[n..])[i - 1], b);
      a := s[..n] + a;
    } else {
      a, b := PartInside(s[1..], i);
      Prepended(s, 1, a, SplitRuns(s[1..])[i], b);
      FirstPart(s, i);
      if i > 0 { a := s[..1] + a; }
    }
  }

  lemma {:induction false} FirstPart(s: string, i: nat)
    requires s != "" && Rewriting.Run(Rewriting.Newline, s) < 2 && i < |SplitRuns(s)|
    ensures var rest := SplitRuns(s[1..]);
      i < |rest| && SplitRuns(s)[i] == if i == 0 then s[..1] + rest[0] else rest[i]
  {
    var rest := SplitRuns(s[1..]);
    assert s[..1] == [s[0]];
    HeadOrTail([s[0]] + rest[0], rest, i);
  }

  lemma {:induction false} HeadOrTail(head: string, rest: seq<string>, i: nat)
    requires rest != [] && i < |[head] + rest[1..]|
    ensures i < |rest| && ([head] + rest[1..])[i] == if i == 0 then head else rest[i]
  {
  }

  lemma {:induction false} Prepended(s: string, n: nat, a: string, m: string, b: string)
    requires n <= |s| && s[n..] == a + m + b
    ensures s == (s[..n] + a) + m + b
    ensures a == "" ==> s == "" + (s[..n] + m) + b
  {
    assert s == s[..n] + s[n..];
    Assoc(s[..n], a + m, b);
    Assoc(s[..n], a, m);
    if a == "" { Unit(s[..n]); Unit(s[..n] + m); }
  }

  lemma {:induction false} KeptPart(parts: seq<string>, q: nat) returns (i: nat)
    requires q < |Kept(parts)|
    ensures i < |parts| && Kept(parts)[q] == Strip(parts[i])
  {
    var kept := if Strip(parts[0]) == "" then 0 else 1;
    if q < kept {
      i := 0;
    } else {
      i := KeptPart(parts[1..], q - kept);
      i := i + 1;
    }
  }

  /** A paragraph of a text stands in it as it is. */
  lemma {:induction false} ParagraphInside(s: string, p: string)
    requires p in SplitParagraphs(s)
    ensures Contains(s, p)
  {
    var q :| 0 <= q < |SplitParagraphs(s)| && SplitParagraphs(s)[q] == p;
    var i := KeptPart(SplitRuns(s), q);
    var a, b := PartInside(s, i);
    var part := SplitRuns(s)[i];
    var x, y := StripParts(part);
    Widen(a, x, p, y, b);
    ContainsInside(a + x, p, y + b);
  }

  lemma {:induction false} Widen(a: string, x: string, p: string, y: string, b: string)
    ensures a + (x + p + y) + b == (a + x) + p + (y + b)
  {
  }

  lemma {:induction false} LabelledHolds(title: string, chunk: Chunk, p: string)
    requires p in SplitParagraphs(chunk.text)
    ensures Contains(Labelled(title, chunk), p)
  {
    ParagraphInside(chunk.text, p);
    ContainsAfter(Prefix(title, chunk.section) + "\n", chunk.text, p);
  }

  lemma {:induction false} ContainsAfter(a: string, s: string, p: string)
    requires Contains(s, p)
    ensures Contains(a + s, p)
  {
    if a == "" {
      assert a + s == s;
    } else {
      assert (a + s)[1..] == a[1..] + s;
      ContainsAfter(a[1..], s, p);
    }
  }

  // ---- the whole ---------------------------------------------------------

  /** One chunk for each raw chunk, positions 0 to n-1 in the chunk and its metadata, the
      title in front or in the first line, and no blank chunk. */
  lemma {:induction false} DocumentChunks(item: Item, text: string, chunks: seq<Chunk>, k: nat)
    requires IsDocument(item, text, chunks) && k < |chunks|
    ensures var chunk, raw := chunks[k], RawChunks(item, text);
      && |chunks| == |raw| && chunk.section == raw[k].section
      && chunk.position == raw[k].position == k && chunk.metadata.Some? && chunk.metadata.value.position == k
      && chunk.metadata.value.section == raw[k].section
      && Strip(chunk.text) != ""
      && (TitleOf(item) != "" ==> TitleOf(item) <= chunk.text || Contains(Split(chunk.text)[0], TitleOf(item)))
  {
    RawCounted(item, text);
    RawHasInk(item, text);
    LabelKeepsInk(TitleOf(item), RawChunks(item, text)[k]);
    if TitleOf(item) != "" { Labels.LabelledHasTitle(TitleOf(item), RawChunks(item, text)[k]); }
  }

  predicate EndsWith(s: string, end: string) {
    |end| <= |s| && s[|s| - |end|..] == end
  }

  lemma {:induction false} LabelledEnds(title: string, chunk: Chunk)
    ensures EndsWith(Labelled(title, chunk), chunk.text)
  {
    var head := Prefix(title, chunk.section) + "\n";
    assert (head + chunk.text)[|head|..] == chunk.text;
  }

  /** In a document every paragraph of every section stands whole in a labelled chunk of
      that section: the label is put in front of the text that holds the paragraph. */
  lemma {:induction false} DocumentHolds(item: Item, text: string, chunks: seq<Chunk>, i: nat, p: nat) returns (k: nat)
    requires IsDocument(item, text, chunks) && TypeOf(item) != Str("faq")
    requires i < |SectionList(text)| && p < |SplitParagraphs(SectionList(text)[i].body)|
    ensures InSection(SectionList(text), i, k, DOC_MAX_TOKENS, DOC_OVERLAP_TOKENS) && k < |chunks|
    ensures chunks[k].section == SectionList(text)[i].heading
    ensures var raw := DocChunks(text, DOC_MAX_TOKENS, DOC_OVERLAP_TOKENS);
      k < |raw| && Holds(raw[k], SectionList(text)[i], p) && EndsWith(chunks[k].text, raw[k].text)
    ensures Contains(chunks[k].text, SplitParagraphs(SectionList(text)[i].body)[p])
  {
    var raw := DocChunks(text, DOC_MAX_TOKENS, DOC_OVERLAP_TOKENS);
    k := ParagraphLands(text, DOC_MAX_TOKENS, DOC_OVERLAP_TOKENS, i, p);
    LabelledHolds(TitleOf(item), raw[k], SplitParagraphs(SectionList(text)[i].body)[p]);
    LabelledEnds(TitleOf(item), raw[k]);
  }
}
