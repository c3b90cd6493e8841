/** The chunks of FAQ entries: the entry as a whole, or its packed paragraphs, the question
    repeated with each. */
module Faq {
  import opened Text
  import opened Packing
  import opened PackOptimal
  import opened Paragraphs
  import opened Chunking
  import ChunkTheorems

  /** The text of a chunk: the question, and the answer or a piece of it. */
  function Entry(title: string, answer: string): string {
    "پرسش: " + title + "\n" + "پاسخ: " + answer
  }

  /** What the limit leaves for the pieces of an answer: the question and two tokens for the
      rest of the frame are taken off, but one token is always left. */
  ghost predicate IsBudget(b: int, title: string, maxTokens: int) {
    var rest := maxTokens - CountTokens("پرسش: " + title) - 2;
    b >= 1 && b >= rest && (b == 1 || b == rest)
  }

  lemma {:induction false} EntryIsAnswered(title: string, answer: string)
    ensures Answered(title, answer) == Entry(title, answer)
  {
  }

  lemma {:induction false} BudgetIs(title: string, maxTokens: int)
    ensures IsBudget(FaqBudget(title, maxTokens), title, maxTokens)
  {
  }

  /** An entry within the limit is one chunk. */
  lemma {:induction false} FaqWhole(title: string, answer: string, maxTokens: int)
    requires CountTokens(Entry(title, answer)) <= maxTokens
    ensures FaqChunks(title, answer, maxTokens) == [Chunk(Entry(title, answer), 0, None, None)]
  {
    EntryIsAnswered(title, answer);
  }

  /** An entry gives no chunk exactly when it is too long although its answer is blank. */
  lemma {:induction false} FaqEmptyIff(title: string, answer: string, maxTokens: int)
    ensures FaqChunks(title, answer, maxTokens) == []
       <==> CountTokens(Entry(title, answer)) > maxTokens && Strip(answer) == ""
  {
    EntryIsAnswered(title, answer);
    NoParagraphsIffBlank(answer);
    var ps, budget := SplitParagraphs(answer), FaqBudget(title, maxTokens);
    if ps != [] { var j, k := ChunkTheorems.ParagraphHasPiece(ps, budget, 0, 0); }
  }

  /** Two neighbouring pieces do not fit together: not even the first paragraph of the
      second would have gone into the first. */
  ghost predicate CutOnlyWhenFull(groups: seq<seq<string>>, b: int) {
    && (forall j | 0 <= j < |groups| :: groups[j] != [])
    && forall j | 0 < j < |groups| :: Tokens(groups[j - 1]) + CountTokens(groups[j][0]) > b
  }

  /** A long entry is split into pieces that hold its paragraphs once each, in order, with
      the question repeated; a piece is cut off only when the next paragraph does not fit
      the budget, and no grouping within the budget has fewer pieces. */
  lemma {:induction false} FaqSplit(title: string, answer: string, maxTokens: int, blocks: seq<seq<string>>)
    returns (groups: seq<seq<string>>, b: int)
    requires CountTokens(Entry(title, answer)) > maxTokens
    ensures IsBudget(b, title, maxTokens) && Grouping(groups, SplitParagraphs(answer), b) && CutOnlyWhenFull(groups, b)
    ensures var chunks := FaqChunks(title, answer, maxTokens);
      && |chunks| == |groups|
      && forall i | 0 <= i < |groups| :: chunks[i] == Chunk(Entry(title, Join("\n\n", groups[i])), i, None, None)
    ensures Grouping(blocks, SplitParagraphs(answer), b) ==> |groups| <= |blocks|
  {
    var ps := SplitParagraphs(answer);
    b := FaqBudget(title, maxTokens);
    BudgetIs(title, maxTokens);
    EntryIsAnswered(title, answer);
    groups := Groups(ps, b, 0);
    PackIsGrouping(ps, b, 0);
    GroupsFull(ps, b);
    if Grouping(blocks, ps, b) { PackIsOptimal(ps, b, 0, blocks); }
    var pieces := JoinEach(groups);
    assert FaqChunks(title, answer, maxTokens) == FaqPieces(title, pieces);
    forall i | 0 <= i < |groups|
      ensures FaqPieces(title, pieces)[i] == Chunk(Entry(title, Join("\n\n", groups[i])), i, None, None)
    {
      EntryIsAnswered(title, pieces[i]);
    }
  }

  lemma {:induction false} GroupsFull(ps: seq<string>, b: int)
    ensures CutOnlyWhenFull(Groups(ps, b, 0), b)
  {
    var groups := Groups(ps, b, 0);
    var added := PackDecomposes(ps, b, 0);
    forall j | 0 <= j < |groups| ensures groups[j] == added[j] && added[j] != [] {
      assert PieceAt(groups, added, b, 0, j);
      Unit(added[j]);
    }
    forall j | 0 < j < |groups| ensures Tokens(groups[j - 1]) + CountTokens(groups[j][0]) > b {
      assert PieceAt(groups, added, b, 0, j);
    }
  }

  lemma {:induction false} EntryLength(title: string, answer: string)
    ensures |Entry(title, answer)| == |"پرسش: " + title| + 7 + |answer|
  {
  }

  /** The real size of a split piece whose `k` paragraphs fit the budget: the joining
      newlines and the rounding exceed the limit by at most (12k + 9) / 10. */
  lemma {:induction false} FaqPieceSize(title: string, group: seq<string>, maxTokens: int, b: int)
    requires group != [] && AllParagraphs(group) && IsBudget(b, title, maxTokens) && Tokens(group) <= b
    ensures var h, size := CountTokens("پرسش: " + title), CountTokens(Entry(title, Join("\n\n", group)));
      && size <= h + b + (12 * |group| + 29) / 10
      && (h + 2 < maxTokens ==> size <= maxTokens + (12 * |group| + 9) / 10)
  {
    EntryLength(title, Join("\n\n", group));
    assert |"پرسش: " + title| >= 6;
    assert forall i | 0 <= i < |group| :: IsParagraph(group[i]) ==> group[i] != "";
    JoinedLength(group);
  }
}
