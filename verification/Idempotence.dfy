/** When normalising a second time changes nothing. */
module Idempotence {
  import opened Text
  import opened Rewriting
  import opened Tokens
  import opened Stages
  import opened Spacing
  import opened Gaps
  import opened Normalize

  // ---- the result as tokens ----------------------------------------------

  function WordTokens(stems: seq<string>, w: string): seq<Token> {
    var p := PrefixLength(w);
    if IsSplit(stems, w) then [Word(w[..p]), Sep([ZWNJ]), Word(w[p..])] else [Word(w)]
  }

  function TokensOf(stems: seq<string>, prev: Token, t: Token, next: Token): seq<Token> {
    match t
    case Word(w) => WordTokens(stems, w)
    case Sep(g) => if Gap(prev, g, next) == "" then [] else [Sep(Gap(prev, g, next))]
    case _ => [t]
  }

  function OutTokens(stems: seq<string>, prev: Token, ts: seq<Token>): seq<Token>
    decreases |ts|
  {
    if ts == [] then []
    else TokensOf(stems, prev, ts[0], First(ts[1..])) + OutTokens(stems, ts[0], ts[1..])
  }

  /** The last token a word leaves behind. */
  function Tail(stems: seq<string>, t: Token): Token {
    if t.Word? && IsSplit(stems, t.text) then Word(t.text[PrefixLength(t.text)..]) else t
  }

  /** Where the second run stands when the first stood after `prev`. */
  ghost predicate InStep(stems: seq<string>, p: Token, prev: Token, ts: seq<Token>) {
    && (ts != [] && ts[0].Sep? ==> p == Tail(stems, prev))
    && (ts != [] ==> Apart(p, ts[0]))
  }

  lemma {:induction false} GapIsProper(prev: Token, g: string, next: Token)
    requires Proper(Sep(g)) && Gap(prev, g, next) != ""
    ensures Proper(Sep(Gap(prev, g, next)))
  {
    NewlinesShape(Weight(0, Visible(g)));
  }

  lemma {:induction false} NewlinesShape(k: nat)
    ensures |Newlines(k)| == k && All(Newline, Newlines(k)) && All(Separator, Newlines(k))
  {
    if k > 0 { NewlinesShape(k - 1); }
  }

  lemma {:induction false} PrefixWord(w: string)
    requires Proper(Word(w)) && PrefixLength(w) > 0
    ensures var p := w[..PrefixLength(w)]; Proper(Word(p)) && (p == MI || p == NEMI) && PrefixLength(p) == |p|
  {
    WholePrefix(w[..PrefixLength(w)]);
  }

  lemma {:induction false} SplitParts(stems: seq<string>, w: string)
    requires GoodStems(stems) && Proper(Word(w)) && IsSplit(stems, w)
    ensures var p := PrefixLength(w);
      && Proper(Word(w[..p])) && Proper(Word(w[p..])) && |w[p..]| >= 2 && PrefixLength(w[p..]) == 0
      && SplitWord(stems, w) == w[..p] + [ZWNJ] + w[p..]
  {
    PrefixWord(w);
    assert w[PrefixLength(w)..] in stems;
  }

  lemma {:induction false} RenderWord(stems: seq<string>, w: string)
    ensures Render(WordTokens(stems, w)) == SplitWord(stems, w)
  {
    var p := PrefixLength(w);
    if IsSplit(stems, w) {
      RenderThree(Word(w[..p]), Sep([ZWNJ]), Word(w[p..]));
    } else {
      RenderOne(Word(w));
    }
  }

  lemma {:induction false} RenderThree(a: Token, b: Token, c: Token)
    ensures Render([a, b, c]) == Source(a) + Source(b) + Source(c)
  {
    RenderPair(b, c);
    Cons(Edge, a, [b, c]);
    assert [a, b, c] == [a] + [b, c];
    Assoc(Source(a), Source(b), Source(c));
  }

  lemma {:induction false} RenderPair(a: Token, b: Token)
    ensures Render([a, b]) == Source(a) + Source(b)
  {
    Cons(Edge, a, [b]);
    RenderOne(b);
    assert [a, b] == [a] + [b];
  }

  lemma {:induction false} OutRenders(stems: seq<string>, prev: Token, ts: seq<Token>)
    requires Canonical(prev, ts)
    ensures Render(OutTokens(stems, prev, ts)) == Result(stems, prev, ts)
    decreases |ts|
  {
    if ts != [] {
      var t, rest := ts[0], ts[1..];
      OutRenders(stems, t, rest);
      RenderConcat(TokensOf(stems, prev, t, First(rest)), OutTokens(stems, t, rest));
      FlowWithStep(stems, Settled, prev, ts);
      match t
      case Word(w) => RenderWord(stems, w);
      case Sep(g) =>
        SettledIsGap(prev, g, First(rest));
        RenderOne(Sep(Gap(prev, g, First(rest))));
      case Other(c) => RenderOne(t);
    }
  }

  lemma {:induction false} RenderOne(t: Token)
    ensures Render([t]) == Source(t)
  {
    Cons(Edge, t, []);
    assert [t] == [t] + [];
  }

  lemma {:induction false} GapBetweenWords(prev: Token, g: string, next: Token)
    requires Proper(Sep(g)) && prev.Word? && next.Word?
    ensures Gap(prev, g, next) != ""
  {
    VisibleEmpty(g);
    WeightPositive(Visible(g));
    NewlinesShape(Weight(0, Visible(g)));
  }

  lemma {:induction false} WordTokensCanonical(stems: seq<string>, p: Token, w: string)
    requires GoodStems(stems) && Proper(Word(w)) && !p.Word?
    ensures Canonical(p, WordTokens(stems, w)) && Last(p, WordTokens(stems, w)) == Tail(stems, Word(w))
  {
    if IsSplit(stems, w) {
      SplitParts(stems, w);
      var a, b := Word(w[..PrefixLength(w)]), Word(w[PrefixLength(w)..]);
      Cons(p, a, [Sep([ZWNJ]), b]);
      Cons(a, Sep([ZWNJ]), [b]);
      Cons(Sep([ZWNJ]), b, []);
      assert WordTokens(stems, w) == [a] + ([Sep([ZWNJ])] + ([b] + []));
      assert Canonical(b, []);
    }
  }

  /** The result is again a canonical token list. */
  lemma {:induction false} OutCanonical(stems: seq<string>, p: Token, prev: Token, ts: seq<Token>)
    requires GoodStems(stems) && Canonical(prev, ts) && InStep(stems, p, prev, ts)
    ensures Canonical(p, OutTokens(stems, prev, ts))
    decreases |ts|
  {
    if ts != [] {
      var t, rest := ts[0], ts[1..];
      var xs := TokensOf(stems, prev, t, First(rest));
      var p' := Last(p, xs);
      match t {
        case Word(w) => WordTokensCanonical(stems, p, w);
        case Sep(g) =>
          if xs == [] {
            if First(rest).Word? && prev.Word? { GapBetweenWords(prev, g, First(rest)); }
          } else {
            GapIsProper(prev, g, First(rest));
          }
        case Other(c) =>
      }
      OutCanonical(stems, p', t, rest);
      CanonicalConcat(p, xs, OutTokens(stems, t, rest));
    }
  }

  // ---- the second run ----------------------------------------------------

  /** A separator that a second run leaves as the first run made it: it puts at most
      two newlines, or it does not turn into the blank of a pair that would be joined. */
  predicate SteadyGap(prev: Token, g: string, next: Token) {
    || prev.Edge? || next.Edge?
    || (if '\n' in g then Weight(0, Visible(g)) <= 2 else AllJoiner(g) || !Joins(prev, next))
  }

  predicate Steady(prev: Token, ts: seq<Token>)
    decreases |ts|
  {
    ts == [] || ((ts[0].Sep? ==> SteadyGap(prev, ts[0].text, First(ts[1..]))) && Steady(ts[0], ts[1..]))
  }

  function Blanks(s: string): nat {
    if s == "" then 0 else (if IsSpace(s[0]) then 1 else 0) + Blanks(s[1..])
  }

  lemma {:induction false} BlanksConcat(a: string, b: string)
    ensures Blanks(a + b) == Blanks(a) + Blanks(b)
  {
    if a == "" {
      assert a + b == b;
    } else {
      assert (a + b)[1..] == a[1..] + b;
      BlanksConcat(a[1..], b);
    }
  }

  lemma {:induction false} BlanksOfNewlines(k: nat)
    ensures Blanks(Newlines(k)) == k && Visible(Newlines(k)) == Newlines(k)
  {
    if k > 0 {
      BlanksOfNewlines(k - 1);
      BlanksConcat("\n", Newlines(k - 1));
      VisibleConcat("\n", Newlines(k - 1));
      assert Visible("\n") == "\n" && Blanks("\n") == 1;
    }
  }

  /** Parting verbs does not change which neighbours are joined. */
  lemma {:induction false} JoinsKept(stems: seq<string>, prev: Token, next: Token)
    requires GoodStems(stems) && Proper(prev) && Proper(next) && !prev.Sep? && !next.Sep?
    ensures var p, n := Tail(stems, prev), First(TokensOf(stems, prev, next, Edge));
      && (Joins(p, n) <==> Joins(prev, next)) && (p.Word? <==> prev.Word?) && (n.Word? <==> next.Word?)
      && !p.Edge? && !n.Edge?
  {
    if prev.Word? && IsSplit(stems, prev.text) {
      SplitParts(stems, prev.text);
      WholePrefix(prev.text);
      WholePrefix(prev.text[PrefixLength(prev.text)..]);
    }
    if next.Word? && IsSplit(stems, next.text) {
      SplitParts(stems, next.text);
      SuffixAtPrefix(next.text, "");
      SuffixesHaveNoPrefix();
      WholePrefix(next.text[..PrefixLength(next.text)]);
    }
  }

  lemma {:induction false} NewlinesAgain(p: Token, n: Token, k: nat)
    requires !p.Edge? && !n.Edge? && k > 0
    ensures Gap(p, Newlines(k), n) == Newlines(if k > 2 then 2 else k)
  {
    var x := Newlines(k);
    NewlinesShape(k);
    BlanksOfNewlines(k);
    assert InClass(Newline, x[0]) && '\n' in x;
    assert x + "" == x;
    WeightOfBlock(0, x, "");
  }

  lemma {:induction false} BlankAgain(p: Token, n: Token)
    requires !p.Edge? && !n.Edge?
    ensures Gap(p, " ", n) == if Joins(p, n) then [ZWNJ] else " "
  {
  }

  lemma {:induction false} HalfSpaceAgain(p: Token, n: Token)
    requires p.Word? && n.Word?
    ensures Gap(p, [ZWNJ], n) == [ZWNJ]
  {
  }

  lemma {:induction false} JoinerHasNoNewline(g: string)
    requires AllJoiner(g)
    ensures '\n' !in g
  {
    AllJoinerClass(g);
    assert forall i | 0 <= i < |g| :: InClass(Joiner, g[i]);
  }

  lemma {:induction false} SecondGap(p: Token, n: Token, prev: Token, g: string, next: Token)
    requires Proper(Sep(g)) && Gap(prev, g, next) != "" && !p.Edge? && !n.Edge?
    requires (Joins(p, n) <==> Joins(prev, next)) && (p.Word? <==> prev.Word?) && (n.Word? <==> next.Word?)
    ensures var x, y := Gap(prev, g, next), Gap(p, Gap(prev, g, next), n);
      if SteadyGap(prev, g, next) then y == x else Blanks(y) < Blanks(x)
  {
    if AllJoiner(g) { JoinerHasNoNewline(g); }
    if Joins(prev, next) && AllJoiner(g) {
      HalfSpaceAgain(p, n);
    } else if AllHalfSpaces(g) {
      HalfSpaceAgain(p, n);
      HalfSpacesJoin(g);
      JoinerHasNoNewline(g);
    } else if '\n' in g {
      var k := Weight(0, Visible(g));
      VisibleEmpty(g);
      WeightPositive(Visible(g));
      NewlinesAgain(p, n, k);
      BlanksOfNewlines(k);
      BlanksOfNewlines(2);
    } else {
      BlankAgain(p, n);
      assert Blanks(" ") == 1 && Blanks([ZWNJ]) == 0;
    }
  }

  lemma {:induction false} HalfSpacesJoin(g: string)
    requires AllHalfSpaces(g)
    ensures AllJoiner(g)
  {
    if g != "" { HalfSpacesJoin(g[1..]); }
  }

  // ---- both runs together ------------------------------------------------

  lemma {:induction false} FlowCons(stems: seq<string>, p: Token, t: Token, ts: seq<Token>)
    ensures Result(stems, p, [t] + ts)
         == (if t.Sep? then Settled(p, t.text, First(ts)) else Body(stems, t)) + Result(stems, t, ts)
  {
    assert ([t] + ts)[1..] == ts;
    FlowWithStep(stems, Settled, p, [t] + ts);
  }

  /** A word and what it was parted into read the same the second time. */
  lemma {:induction false} SecondWord(stems: seq<string>, p: Token, w: string, ts: seq<Token>)
    requires GoodStems(stems) && Proper(Word(w))
    ensures Result(stems, p, WordTokens(stems, w) + ts) == SplitWord(stems, w) + Result(stems, Tail(stems, Word(w)), ts)
  {
    if IsSplit(stems, w) {
      SplitParts(stems, w);
      PrefixWord(w);
      var a, b := w[..PrefixLength(w)], w[PrefixLength(w)..];
      NotSplit(stems, a);
      NotSplit(stems, b);
      SecondSplit(stems, p, a, b, ts);
    } else {
      FlowCons(stems, p, Word(w), ts);
    }
  }

  lemma {:induction false} NotSplit(stems: seq<string>, w: string)
    requires GoodStems(stems) && (PrefixLength(w) == 0 || PrefixLength(w) == |w|)
    ensures SplitWord(stems, w) == w
  {
    assert "" !in stems;
    assert w[|w|..] == "";
  }

  lemma {:induction false} SecondSplit(stems: seq<string>, p: Token, a: string, b: string, ts: seq<Token>)
    requires SplitWord(stems, a) == a && SplitWord(stems, b) == b
    ensures Result(stems, p, [Word(a), Sep([ZWNJ]), Word(b)] + ts) == a + [ZWNJ] + b + Result(stems, Word(b), ts)
  {
    var z := Sep([ZWNJ]);
    FlowCons(stems, p, Word(a), [z, Word(b)] + ts);
    SecondHalf(stems, a, b, ts);
    assert [Word(a), z, Word(b)] + ts == [Word(a)] + ([z, Word(b)] + ts);
    Assoc(a, [ZWNJ] + b, Result(stems, Word(b), ts));
    Assoc(a, [ZWNJ], b);
  }

  lemma {:induction false} SecondHalf(stems: seq<string>, a: string, b: string, ts: seq<Token>)
    requires SplitWord(stems, b) == b
    ensures Result(stems, Word(a), [Sep([ZWNJ]), Word(b)] + ts) == [ZWNJ] + b + Result(stems, Word(b), ts)
  {
    var z := Sep([ZWNJ]);
    FlowCons(stems, Word(a), z, [Word(b)] + ts);
    FlowCons(stems, z, Word(b), ts);
    assert [z, Word(b)] + ts == [z] + ([Word(b)] + ts) && First([Word(b)] + ts) == Word(b);
    SettledIsGap(Word(a), [ZWNJ], Word(b));
    HalfSpaceAgain(Word(a), Word(b));
    Assoc([ZWNJ], b, Result(stems, Word(b), ts));
  }

  lemma {:induction false} FirstOut(stems: seq<string>, prev: Token, ts: seq<Token>)
    requires Canonical(prev, ts) && ts != [] && !ts[0].Sep?
    ensures First(OutTokens(stems, prev, ts)) == First(TokensOf(stems, prev, ts[0], Edge))
  {
  }

  /** The second run repeats the first exactly when every separator is steady;
      otherwise it removes white space. */
  lemma {:induction false} SecondRun(stems: seq<string>, p: Token, prev: Token, ts: seq<Token>)
    requires GoodStems(stems) && Canonical(prev, ts) && InStep(stems, p, prev, ts)
    requires prev.Edge? || Proper(prev)
    ensures var out := OutTokens(stems, prev, ts);
      var a, b := Result(stems, p, out), Render(out);
      if Steady(prev, ts) then a == b else Blanks(a) < Blanks(b)
    decreases |ts|
  {
    if ts != [] {
      var t, rest := ts[0], ts[1..];
      var xs, out := TokensOf(stems, prev, t, First(rest)), OutTokens(stems, t, rest);
      RenderConcat(xs, out);
      if t.Word? {
        SecondRun(stems, Tail(stems, t), t, rest);
        SecondWord(stems, p, t.text, out);
        RenderWord(stems, t.text);
        BlanksConcat(SplitWord(stems, t.text), Result(stems, Tail(stems, t), out));
        BlanksConcat(SplitWord(stems, t.text), Render(out));
      } else if t.Other? {
        SecondRun(stems, t, t, rest);
        FlowCons(stems, p, t, out);
        RenderOne(t);
        BlanksConcat([t.c], Result(stems, t, out));
        BlanksConcat([t.c], Render(out));
      } else {
        SecondSep(stems, p, prev, ts);
      }
    }
  }

  lemma {:induction false} SecondSep(stems: seq<string>, p: Token, prev: Token, ts: seq<Token>)
    requires GoodStems(stems) && Canonical(prev, ts) && InStep(stems, p, prev, ts)
    requires prev.Edge? || Proper(prev)
    requires ts != [] && ts[0].Sep?
    ensures var out := OutTokens(stems, prev, ts);
      var a, b := Result(stems, p, out), Render(out);
      if Steady(prev, ts) then a == b else Blanks(a) < Blanks(b)
    decreases |ts|, 0
  {
    var t, rest := ts[0], ts[1..];
    var x, out := Gap(prev, t.text, First(rest)), OutTokens(stems, t, rest);
    if x == "" {
      if First(rest).Word? && prev.Word? { GapBetweenWords(prev, t.text, First(rest)); }
      EmptyGapSteady(prev, t.text, First(rest));
      assert [] + out == out;
      SecondRun(stems, p, t, rest);
    } else {
      SecondRun(stems, Sep(x), t, rest);
      SecondKept(stems, p, prev, ts);
    }
  }

  lemma {:induction false} EmptyGapSteady(prev: Token, g: string, next: Token)
    requires Proper(Sep(g)) && Gap(prev, g, next) == ""
    ensures SteadyGap(prev, g, next)
  {
    VisibleEmpty(g);
    WeightPositive(Visible(g));
    NewlinesShape(Weight(0, Visible(g)));
    if AllHalfSpaces(g) { HalfSpacesJoin(g); JoinerHasNoNewline(g); }
  }

  lemma {:induction false} SecondKept(stems: seq<string>, p: Token, prev: Token, ts: seq<Token>)
    requires GoodStems(stems) && Canonical(prev, ts) && ts != [] && ts[0].Sep? && Proper(prev)
    requires p == Tail(stems, prev) && Gap(prev, ts[0].text, First(ts[1..])) != ""
    requires var out, x := OutTokens(stems, ts[0], ts[1..]), Sep(Gap(prev, ts[0].text, First(ts[1..])));
      var a, b := Result(stems, x, out), Render(out);
      if Steady(ts[0], ts[1..]) then a == b else Blanks(a) < Blanks(b)
    ensures var out := OutTokens(stems, prev, ts);
      var a, b := Result(stems, p, out), Render(out);
      if Steady(prev, ts) then a == b else Blanks(a) < Blanks(b)
  {
    var t, rest := ts[0], ts[1..];
    var x, out := Gap(prev, t.text, First(rest)), OutTokens(stems, t, rest);
    var n := First(out);
    FirstOut(stems, t, rest);
    JoinsKept(stems, prev, rest[0]);
    SecondGap(p, n, prev, t.text, rest[0]);
    GapIsProper(prev, t.text, rest[0]);
    SettledIsGap(p, x, n);
    FlowCons(stems, p, Sep(x), out);
    RenderConcat([Sep(x)], out);
    RenderOne(Sep(x));
    BlanksConcat(Gap(p, x, n), Result(stems, Sep(x), out));
    BlanksConcat(x, Render(out));
  }
}
