/** Spellings meet: of a prefixed verb, and of any two words that are joined. */
module Variants {
  import Text
  import opened Rewriting
  import opened Tokens
  import opened Stages
  import opened Spacing
  import Gaps
  import opened Normalize
  import opened Idempotence
  import NormalizeTheorems

  // ---- variant spellings -------------------------------------------------

  /** What a separator can tell of the token after it. */
  predicate AlikeAhead(a: Token, b: Token) {
    && (a.Word? <==> b.Word?) && (a.Edge? <==> b.Edge?)
    && (a.Word? && b.Word? ==> (a.text in SUFFIXES <==> b.text in SUFFIXES))
  }

  /** What a separator can tell of the token before it. */
  predicate AlikeBehind(a: Token, b: Token) {
    (a.Word? <==> b.Word?) && (a.Edge? <==> b.Edge?)
    && (a.Word? && b.Word? ==>
          && (|a.text| >= 2 <==> |b.text| >= 2)
          && ((a.text == MI || a.text == NEMI) <==> (b.text == MI || b.text == NEMI)))
  }

  /** A common beginning reads the same before tokens that look alike. */
  lemma {:induction false} SameBefore(stems: seq<string>, prev: Token, a: seq<Token>, x: seq<Token>, y: seq<Token>)
    requires GoodStems(stems)
    requires AlikeAhead(First(x), First(y))
    requires Result(stems, Last(prev, a), x) == Result(stems, Last(prev, a), y)
    ensures Result(stems, prev, a + x) == Result(stems, prev, a + y)
    decreases |a|
  {
    if a == [] {
      Text.Unit(x);
      Text.Unit(y);
    } else {
      SameBefore(stems, a[0], a[1..], x, y);
      Peel(a, x);
      Peel(a, y);
      FlowCons(stems, prev, a[0], a[1..] + x);
      FlowCons(stems, prev, a[0], a[1..] + y);
      SameGap(prev, a[0], First(a[1..] + x), First(a[1..] + y));
    }
  }

  lemma {:induction false} Peel(a: seq<Token>, b: seq<Token>)
    requires a != []
    ensures a + b == [a[0]] + (a[1..] + b) && (First(a[1..]) == First(a[1..] + b) || a[1..] == [])
  {
  }

  lemma {:induction false} SameGap(prev: Token, t: Token, a: Token, b: Token)
    requires AlikeAhead(a, b)
    ensures t.Sep? ==> Settled(prev, t.text, a) == Settled(prev, t.text, b)
  {
    assert Joins(prev, a) <==> Joins(prev, b);
  }

  lemma {:induction false} SameAfter(stems: seq<string>, a: Token, b: Token, ts: seq<Token>)
    requires GoodStems(stems)
    requires AlikeBehind(a, b)
    ensures Result(stems, a, ts) == Result(stems, b, ts)
  {
    if ts != [] {
      FlowWithStep(stems, Settled, a, ts);
      FlowWithStep(stems, Settled, b, ts);
      assert Joins(a, First(ts[1..])) <==> Joins(b, First(ts[1..]));
    }
  }

  lemma {:induction false} AttachedWord(p: string, stem: string)
    requires (p == MI || p == NEMI) && Proper(Word(stem)) && PrefixLength(stem) == 0
    ensures PrefixLength(p + stem) == |p| && p + stem !in SUFFIXES && p !in SUFFIXES && Proper(Word(p + stem))
    ensures (p + stem)[|p|..] == stem && (p + stem)[..|p|] == p && PrefixLength(p) == |p|
  {
    WholePrefix(p);
    assert p + stem == (if p == MI then MI else NEMI) + stem;
    assert (p + stem)[0] == p[0] && (p + stem)[1] == p[1];
    AllParts(Arabic, p, stem);
    SuffixAtPrefix(p + stem, "");
    SuffixAtPrefix(p, "");
  }

  /** The verb written as one word. */
  lemma {:induction false} AttachedVerb(stems: seq<string>, q: Token, p: string, stem: string, ts: seq<Token>)
    requires GoodStems(stems)
    requires (p == MI || p == NEMI) && stem in stems
    ensures Result(stems, q, [Word(p + stem)] + ts) == p + [ZWNJ] + stem + Result(stems, Word(stem), ts)
  {
    AttachedWord(p, stem);
    FlowCons(stems, q, Word(p + stem), ts);
    WholePrefix(p + stem);
    WholePrefix(stem);
    SameAfter(stems, Word(p + stem), Word(stem), ts);
  }

  /** Two words that the normaliser joins, parted by spaces and half-spaces. */
  lemma {:induction false} PairResult(stems: seq<string>, q: Token, u: string, g: string, v: string, ts: seq<Token>)
    requires Joins(Word(u), Word(v)) && AllJoiner(g)
    ensures Result(stems, q, [Word(u), Sep(g), Word(v)] + ts)
         == SplitWord(stems, u) + ([ZWNJ] + (SplitWord(stems, v) + Result(stems, Word(v), ts)))
  {
    FlowCons(stems, q, Word(u), [Sep(g), Word(v)] + ts);
    PairTail(stems, u, g, v, ts);
    assert [Word(u), Sep(g), Word(v)] + ts == [Word(u)] + ([Sep(g), Word(v)] + ts);
  }

  lemma {:induction false} PairTail(stems: seq<string>, u: string, g: string, v: string, ts: seq<Token>)
    requires Joins(Word(u), Word(v)) && AllJoiner(g)
    ensures Result(stems, Word(u), [Sep(g), Word(v)] + ts)
         == [ZWNJ] + (SplitWord(stems, v) + Result(stems, Word(v), ts))
  {
    FlowCons(stems, Word(u), Sep(g), [Word(v)] + ts);
    FlowCons(stems, Sep(g), Word(v), ts);
    assert [Sep(g), Word(v)] + ts == [Sep(g)] + ([Word(v)] + ts) && First([Word(v)] + ts) == Word(v);
    Gaps.HalfSpaceSettles(Word(u), g, Word(v));
  }

  /** The verb parted from its prefix by spaces and half-spaces. */
  lemma {:induction false} PartedVerb(stems: seq<string>, q: Token, p: string, g: string, stem: string, ts: seq<Token>)
    requires GoodStems(stems)
    requires (p == MI || p == NEMI) && stem in stems && g != "" && AllJoiner(g)
    ensures Result(stems, q, [Word(p), Sep(g), Word(stem)] + ts) == p + [ZWNJ] + stem + Result(stems, Word(stem), ts)
  {
    AttachedWord(p, stem);
    NotSplit(stems, p);
    NotSplit(stems, stem);
    PairResult(stems, q, p, g, stem, ts);
    Text.Assoc(p, [ZWNJ], stem + Result(stems, Word(stem), ts));
    Text.Assoc(p + [ZWNJ], stem, Result(stems, Word(stem), ts));
  }

  function VerbTokens(p: string, g: string, stem: string): seq<Token> {
    if g == "" then [Word(p + stem)] else [Word(p), Sep(g), Word(stem)]
  }

  lemma {:induction false} VerbResult(stems: seq<string>, q: Token, p: string, g: string, stem: string, ts: seq<Token>)
    requires GoodStems(stems)
    requires (p == MI || p == NEMI) && stem in stems && AllJoiner(g)
    ensures Result(stems, q, VerbTokens(p, g, stem) + ts) == p + [ZWNJ] + stem + Result(stems, Word(stem), ts)
  {
    if g == "" { AttachedVerb(stems, q, p, stem, ts); } else { PartedVerb(stems, q, p, g, stem, ts); }
  }

  lemma {:induction false} VerbCanonical(stems: seq<string>, q: Token, p: string, g: string, stem: string)
    requires GoodStems(stems)
    requires (p == MI || p == NEMI) && stem in stems && AllJoiner(g) && !q.Word?
    ensures var ts := VerbTokens(p, g, stem);
      Canonical(q, ts) && Render(ts) == p + g + stem && Last(q, ts).Word? && First(ts).Word?
    ensures First(VerbTokens(p, g, stem)).text !in SUFFIXES
  {
    AttachedWord(p, stem);
    AllJoinerClass(g);
    if g == "" {
      RenderOne(Word(p + stem));
      assert p + g + stem == p + stem;
    } else {
      assert forall i | 0 <= i < |g| :: InClass(Joiner, g[i]);
      WholePrefix(p);
      NormalizeTheorems.CanonicalThree(Word(p), Sep(g), Word(stem));
      Cons(q, Word(p), [Sep(g), Word(stem)]);
      Cons(Edge, Word(p), [Sep(g), Word(stem)]);
      assert [Word(p), Sep(g), Word(stem)] == [Word(p)] + [Sep(g), Word(stem)];
    }
  }

  lemma {:induction false} VerbInText(stems: seq<string>, a: seq<Token>, p: string, g: string, stem: string,
          b: seq<Token>)
    requires GoodStems(stems)
    requires (p == MI || p == NEMI) && stem in stems && AllJoiner(g)
    requires Canonical(Edge, a) && !Last(Edge, a).Word? && Canonical(Edge, b) && !First(b).Word?
    ensures Normalized(stems, Render(a) + (p + g + stem) + Render(b))
         == Result(stems, Edge, a + (VerbTokens(p, g, stem) + b))
  {
    var q, v := Last(Edge, a), VerbTokens(p, g, stem);
    VerbCanonical(stems, q, p, g, stem);
    CanonicalConcat(q, v, b);
    CanonicalConcat(Edge, a, v + b);
    RenderConcat(v, b);
    RenderConcat(a, v + b);
    NormalizeTokenwise(stems, a + (v + b));
    Text.Assoc(Render(a), p + g + stem, Render(b));
  }

  /** `می` or `نمی` attached to a stem of the table, or parted from it by any run of
      spaces and half-spaces, is one spelling after normalising. */
  lemma {:induction false} VariantsMeet(stems: seq<string>, left: string, p: string, g: string, stem: string,
          right: string)
    requires GoodStems(stems)
    requires !EndsIn(Arabic, left) && !StartsIn(Arabic, right)
    requires (p == MI || p == NEMI) && stem in stems && AllJoiner(g)
    ensures Normalized(stems, left + (p + g + stem) + right) == Normalized(stems, left + (p + [ZWNJ] + stem) + right)
  {
    var a, b := Tokenize(left), Tokenize(right);
    TokenizeCanonical(Edge, left);
    TokenizeCanonical(Edge, right);
    RenderTokenize(left);
    RenderTokenize(right);
    RenderEnds(Edge, a);
    VerbInText(stems, a, p, g, stem, b);
    VerbInText(stems, a, p, [ZWNJ], stem, b);
    SameVerbs(stems, a, p, g, stem, b);
  }

  lemma {:induction false} SameVerbs(stems: seq<string>, a: seq<Token>, p: string, g: string, stem: string,
          b: seq<Token>)
    requires GoodStems(stems)
    requires (p == MI || p == NEMI) && stem in stems && AllJoiner(g)
    ensures Result(stems, Edge, a + (VerbTokens(p, g, stem) + b))
         == Result(stems, Edge, a + (VerbTokens(p, [ZWNJ], stem) + b))
  {
    var q := Last(Edge, a);
    VerbResult(stems, q, p, g, stem, b);
    VerbResult(stems, q, p, [ZWNJ], stem, b);
    VerbCanonical(stems, Edge, p, g, stem);
    VerbCanonical(stems, Edge, p, [ZWNJ], stem);
    SameBefore(stems, Edge, a, VerbTokens(p, g, stem) + b, VerbTokens(p, [ZWNJ], stem) + b);
  }

  // ---- parted words that are joined --------------------------------------

  lemma {:induction false} PairInText(stems: seq<string>, a: seq<Token>, u: string, g: string, v: string, b: seq<Token>)
    requires GoodStems(stems)
    requires Proper(Word(u)) && Proper(Word(v)) && g != "" && AllJoiner(g)
    requires Canonical(Edge, a) && !Last(Edge, a).Word? && Canonical(Edge, b) && !First(b).Word?
    ensures Normalized(stems, Render(a) + (u + g + v) + Render(b))
         == Result(stems, Edge, a + ([Word(u), Sep(g), Word(v)] + b))
  {
    var q, ts := Last(Edge, a), [Word(u), Sep(g), Word(v)];
    AllJoinerClass(g);
    assert forall i | 0 <= i < |g| :: InClass(Joiner, g[i]);
    NormalizeTheorems.CanonicalThree(Word(u), Sep(g), Word(v));
    Cons(q, Word(u), [Sep(g), Word(v)]);
    Cons(Edge, Word(u), [Sep(g), Word(v)]);
    assert ts == [Word(u)] + [Sep(g), Word(v)];
    CanonicalConcat(q, ts, b);
    CanonicalConcat(Edge, a, ts + b);
    RenderConcat(ts, b);
    RenderConcat(a, ts + b);
    NormalizeTokenwise(stems, a + (ts + b));
    Text.Assoc(Render(a), u + g + v, Render(b));
  }

  /** Two words that the normaliser joins, parted by any run of spaces and half-spaces, are
      one spelling after normalising. */
  lemma {:induction false} PartedPairsMeet(stems: seq<string>, left: string, u: string, g: string, v: string,
          right: string)
    requires GoodStems(stems)
    requires !EndsIn(Arabic, left) && !StartsIn(Arabic, right)
    requires Proper(Word(u)) && Proper(Word(v)) && Joins(Word(u), Word(v)) && g != "" && AllJoiner(g)
    ensures Normalized(stems, left + (u + g + v) + right) == Normalized(stems, left + (u + [ZWNJ] + v) + right)
  {
    var a, b := Tokenize(left), Tokenize(right);
    TokenizeCanonical(Edge, left);
    TokenizeCanonical(Edge, right);
    RenderTokenize(left);
    RenderTokenize(right);
    RenderEnds(Edge, a);
    PairInText(stems, a, u, g, v, b);
    PairInText(stems, a, u, [ZWNJ], v, b);
    var q := Last(Edge, a);
    PairResult(stems, q, u, g, v, b);
    PairResult(stems, q, u, [ZWNJ], v, b);
    SameBefore(stems, Edge, a, [Word(u), Sep(g), Word(v)] + b, [Word(u), Sep([ZWNJ]), Word(v)] + b);
  }

  /** The suffixes that take a half-space. */
  predicate Listed(suffix: string) {
    || suffix == "ها" || suffix == "های" || suffix == "هایی" || suffix == "هایم" || suffix == "هایت"
    || suffix == "هایش" || suffix == "تر" || suffix == "تری" || suffix == "ترین"
  }

  lemma {:induction false} ListedIff(suffix: string)
    ensures Listed(suffix) <==> suffix in SUFFIXES
  {
  }

  /** In particular a word of two letters or more and a suffix of the list. */
  lemma {:induction false} SuffixesMeet(stems: seq<string>, left: string, word: string, g: string, suffix: string,
          right: string)
    requires GoodStems(stems)
    requires !EndsIn(Arabic, left) && !StartsIn(Arabic, right)
    requires |word| >= 2 && All(Arabic, word) && Listed(suffix) && g != "" && AllJoiner(g)
    ensures Normalized(stems, left + (word + g + suffix) + right)
         == Normalized(stems, left + (word + [ZWNJ] + suffix) + right)
  {
    ListedIff(suffix);
    SuffixesAreWords();
    PartedPairsMeet(stems, left, word, g, suffix, right);
  }

  // ---- two words alone ---------------------------------------------------

  /** The word is `می` or `نمی` and a stem of the table. */
  ghost predicate PrefixedStem(stems: seq<string>, w: string, p: string, stem: string) {
    (p == "می" || p == "نمی") && stem in stems && w == p + stem
  }

  /** What becomes of a word: parted behind its prefix, or nothing. */
  ghost predicate Becomes(stems: seq<string>, w: string, t: string) {
    if exists p: string, stem: string :: PrefixedStem(stems, w, p, stem) then
      exists p: string, stem: string :: PrefixedStem(stems, w, p, stem) && t == p + [ZWNJ] + stem
    else t == w
  }

  lemma {:induction false} WordBecomes(stems: seq<string>, w: string)
    requires GoodStems(stems)
    ensures Becomes(stems, w, SplitWord(stems, w))
  {
    var n := PrefixLength(w);
    if IsSplit(stems, w) {
      assert PrefixedStem(stems, w, w[..n], w[n..]);
    } else if p: string, stem: string :| PrefixedStem(stems, w, p, stem) {
      AttachedWord(p, stem);
    }
  }

  /** All characters are of the Arabic block. */
  ghost predicate InBlock(w: string) {
    forall i | 0 <= i < |w| :: '\U{0600}' <= w[i] <= '\U{06FF}'
  }

  /** Which two words take a half-space between them. */
  predicate BelongTogether(u: string, v: string) {
    u == "می" || u == "نمی" || (|u| >= 2 && Listed(v))
  }

  /** Two words with spaces and half-spaces in between become two words with one half-space
      exactly if they belong together or no space stood there, and with one space else. */
  lemma {:induction false} PairExactly(stems: seq<string>, u: string, g: string, v: string)
    returns (x: string, y: string)
    requires GoodStems(stems) && u != "" && v != "" && InBlock(u) && InBlock(v)
    requires g != "" && forall i | 0 <= i < |g| :: g[i] == ' ' || g[i] == ZWNJ
    ensures Becomes(stems, u, x) && Becomes(stems, v, y)
    ensures Normalized(stems, u + g + v)
         == x + (if BelongTogether(u, v) || ' ' !in g then [ZWNJ] else " ") + y
  {
    x, y := SplitWord(stems, u), SplitWord(stems, v);
    WordBecomes(stems, u);
    WordBecomes(stems, v);
    BlockWord(u);
    BlockWord(v);
    JoinersOnly(g);
    JoinsIff(u, v);
    PairNormalized(stems, u, g, v);
  }

  lemma {:induction false} BlockWord(w: string)
    requires w != "" && InBlock(w)
    ensures Proper(Word(w))
  {
  }

  lemma {:induction false} JoinsIff(u: string, v: string)
    ensures Joins(Word(u), Word(v)) <==> BelongTogether(u, v)
  {
    ListedIff(v);
  }

  lemma {:induction false} PairNormalized(stems: seq<string>, u: string, g: string, v: string)
    requires GoodStems(stems)
    requires Proper(Word(u)) && Proper(Word(v)) && Proper(Sep(g)) && AllJoiner(g) && '\n' !in g
    ensures Normalized(stems, u + g + v)
         == SplitWord(stems, u)
            + (if Joins(Word(u), Word(v)) || Gaps.AllHalfSpaces(g) then [ZWNJ] else " ") + SplitWord(stems, v)
  {
    NormalizeTheorems.CanonicalThree(Word(u), Sep(g), Word(v));
    NormalizeTokenwise(stems, [Word(u), Sep(g), Word(v)]);
    PairAlone(stems, u, g, v);
  }

  lemma {:induction false} JoinersOnly(g: string)
    requires forall i | 0 <= i < |g| :: g[i] == ' ' || g[i] == ZWNJ
    ensures AllJoiner(g) && (Gaps.AllHalfSpaces(g) <==> ' ' !in g) && '\n' !in g && All(Separator, g)
  {
    if g != "" { JoinersOnly(g[1..]); }
  }

  lemma {:induction false} PairAlone(stems: seq<string>, u: string, g: string, v: string)
    requires Proper(Word(u)) && Proper(Word(v)) && Proper(Sep(g)) && AllJoiner(g) && '\n' !in g
    ensures Result(stems, Edge, [Word(u), Sep(g), Word(v)])
         == SplitWord(stems, u)
            + (if Joins(Word(u), Word(v)) || Gaps.AllHalfSpaces(g) then [ZWNJ] else " ") + SplitWord(stems, v)
  {
    var a, s, b := Word(u), Sep(g), Word(v);
    FlowCons(stems, Edge, a, [s, b]);
    FlowCons(stems, a, s, [b]);
    FlowCons(stems, s, b, []);
    assert [a, s, b] == [a] + [s, b] && [s, b] == [s] + [b] && [b] == [b] + [] && First([b]) == b;
    Gaps.SettledIsGap(a, g, b);
    Text.Unit(SplitWord(stems, v));
    var gap := Gaps.Gap(a, g, b);
    Text.Assoc(SplitWord(stems, u), gap, SplitWord(stems, v));
  }
}
