/** Lines are normalised one by one; only empty ones come and go. */
module CanonLines {
  import opened Text
  import opened Rewriting
  import opened Tokens
  import opened Stages
  import opened Spacing
  import opened Gaps
  import opened Normalize
  import opened Idempotence
  import NormalizeTheorems

  function NonEmpty(lines: seq<string>): seq<string> {
    if lines == [] then [] else (if lines[0] == "" then [] else [lines[0]]) + NonEmpty(lines[1..])
  }

  function NormalizedEach(stems: seq<string>, lines: seq<string>): seq<string> {
    if lines == [] then [] else [Normalized(stems, lines[0])] + NormalizedEach(stems, lines[1..])
  }

  /** The tokens up to the first separator that holds a newline. */
  predicate Newlineless(ts: seq<Token>) {
    forall i | 0 <= i < |ts| :: ts[i].Sep? ==> '\n' !in ts[i].text
  }

  lemma {:induction false} FirstBreak(prev: Token, ts: seq<Token>) returns (a: seq<Token>, g: string, b: seq<Token>)
    requires Canonical(prev, ts) && !Newlineless(ts)
    ensures ts == a + ([Sep(g)] + b) && '\n' in g && Newlineless(a)
    decreases |ts|
  {
    if ts[0].Sep? && '\n' in ts[0].text {
      a, g, b := [], ts[0].text, ts[1..];
    } else {
      var a', g', b' := FirstBreak(ts[0], ts[1..]);
      a, g, b := [ts[0]] + a', g', b';
    }
  }

  lemma {:induction false} BodyOneLine(stems: seq<string>, t: Token)
    requires GoodStems(stems)
    requires Proper(t) && !t.Sep?
    ensures OneLine(Source(t)) && OneLine(Body(stems, t))
  {
    BodyInside(stems, t);
    var x := Body(stems, t);
    assert forall i | 0 <= i < |x| :: InClass(Separator, x[i]) ==> x[i] == ZWNJ;
    if t.Word? { assert forall i | 0 <= i < |t.text| :: InClass(Arabic, t.text[i]); }
  }

  lemma {:induction false} GapOneLine(prev: Token, g: string, next: Token)
    requires Proper(Sep(g)) && '\n' !in g
    ensures OneLine(Gap(prev, g, next)) && OneLine(g)
  {
  }

  lemma {:induction false} OneLineTokens(stems: seq<string>, prev: Token, ts: seq<Token>)
    requires GoodStems(stems)
    requires Canonical(prev, ts) && Newlineless(ts)
    ensures OneLine(Render(ts)) && OneLine(Result(stems, prev, ts))
    decreases |ts|
  {
    if ts != [] {
      var t, rest := ts[0], ts[1..];
      OneLineTokens(stems, t, rest);
      FlowWithStep(stems, Settled, prev, ts);
      if t.Sep? {
        SettledIsGap(prev, t.text, First(rest));
        GapOneLine(prev, t.text, First(rest));
      } else {
        BodyOneLine(stems, t);
      }
    }
  }

  /** A text may be read in two parts at a place that is not next to a separator on the left. */
  lemma {:induction false} ResultConcat(stems: seq<string>, prev: Token, a: seq<Token>, b: seq<Token>)
    requires GoodStems(stems)
    requires a != [] ==> !a[|a| - 1].Sep?
    ensures Result(stems, prev, a + b) == Result(stems, prev, a) + Result(stems, Last(prev, a), b)
    decreases |a|
  {
    if a == [] {
      assert a + b == b;
    } else {
      ResultConcat(stems, a[0], a[1..], b);
      var x := StepOver(stems, prev, a, b);
      Assoc(x, Result(stems, a[0], a[1..]), Result(stems, Last(prev, a), b));
    }
  }

  lemma {:induction false} StepOver(stems: seq<string>, prev: Token, a: seq<Token>, b: seq<Token>) returns (x: string)
    requires GoodStems(stems)
    requires a != [] && !a[|a| - 1].Sep?
    ensures Result(stems, prev, a + b) == x + Result(stems, a[0], a[1..] + b)
    ensures Result(stems, prev, a) == x + Result(stems, a[0], a[1..])
    ensures Last(prev, a) == Last(a[0], a[1..])
  {
    assert a + b == [a[0]] + (a[1..] + b) && a == [a[0]] + a[1..];
    FlowCons(stems, prev, a[0], a[1..] + b);
    FlowCons(stems, prev, a[0], a[1..]);
    x := if a[0].Sep? then Settled(prev, a[0].text, First(a[1..])) else Body(stems, a[0]);
  }

  lemma {:induction false} SameStart(stems: seq<string>, p: Token, q: Token, ts: seq<Token>)
    requires GoodStems(stems)
    requires !First(ts).Sep?
    ensures Result(stems, p, ts) == Result(stems, q, ts)
  {
    if ts != [] {
      FlowWithStep(stems, Settled, p, ts);
      FlowWithStep(stems, Settled, q, ts);
    }
  }

  function Optional(g: string): seq<Token> { if g == "" then [] else [Sep(g)] }

  /** What is left of a line whose tokens are followed by part of a separator. */
  lemma {:induction false} CanonBefore(stems: seq<string>, a: seq<Token>, g: string)
    requires GoodStems(stems)
    requires Canonical(Edge, a) && (a != [] ==> !a[|a| - 1].Sep?) && All(Separator, g)
    ensures Normalized(stems, Render(a) + g) == Result(stems, Edge, a)
  {
    var z, p := Optional(g), Last(Edge, a);
    RenderOptional(stems, p, g);
    CanonicalConcat(Edge, a, z);
    RenderConcat(a, z);
    NormalizeTokenwise(stems, a + z);
    var r := Result(stems, Edge, a + z);
    assert r == Result(stems, Edge, a) + Result(stems, p, z) by { ResultConcat(stems, Edge, a, z); }
    assert Result(stems, Edge, a) + "" == Result(stems, Edge, a);
  }

  lemma {:induction false} RenderOptional(stems: seq<string>, p: Token, g: string)
    requires GoodStems(stems)
    requires All(Separator, g) && !p.Sep?
    ensures Canonical(p, Optional(g)) && Render(Optional(g)) == g
    ensures Result(stems, p, Optional(g)) == ""
  {
    if g != "" {
      Cons(p, Sep(g), []);
      assert [Sep(g)] == [Sep(g)] + [] && Canonical(Sep(g), []);
      FlowCons(stems, p, Sep(g), []);
    }
  }

  lemma {:induction false} CanonAfter(stems: seq<string>, g: string, g2: string, b: seq<Token>)
    requires GoodStems(stems)
    requires Canonical(Sep(g), b) && All(Separator, g2)
    ensures Normalized(stems, g2 + Render(b)) == Result(stems, Sep(g), b)
  {
    var z := Optional(g2);
    RenderOptional(stems, Edge, g2);
    if g2 == "" {
      assert z + b == b && "" + Render(b) == Render(b);
      assert Canonical(Edge, b);
      NormalizeTokenwise(stems, b);
      SameStart(stems, Edge, Sep(g), b);
    } else {
      CanonicalConcat(Edge, z, b);
      RenderConcat(z, b);
      NormalizeTokenwise(stems, z + b);
      FlowCons(stems, Edge, Sep(g2), b);
      SameStart(stems, Sep(g2), Sep(g), b);
    }
  }

  // ---- lines -------------------------------------------------------------

  lemma {:induction false} NonEmptyConcat(a: seq<string>, b: seq<string>)
    ensures NonEmpty(a + b) == NonEmpty(a) + NonEmpty(b)
  {
    if a == [] {
      assert a + b == b;
    } else {
      assert (a + b)[1..] == a[1..] + b;
      NonEmptyConcat(a[1..], b);
    }
  }

  /** Newlines between two parts of a text only add empty lines. */
  lemma {:induction false} LinesAround(line: string, k: nat, s: string)
    requires OneLine(line) && k > 0
    ensures NonEmpty(Split(line + Newlines(k) + s)) == NonEmpty([line]) + NonEmpty(Split(s))
    decreases k
  {
    var tail := Newlines(k - 1) + s;
    assert line + Newlines(k) + s == line + "\n" + tail;
    SplitCons(line, tail);
    NonEmptyConcat([line], Split(tail));
    if k > 1 {
      LinesAround("", k - 1, s);
      assert "" + Newlines(k - 1) + s == tail;
    } else {
      assert tail == s;
    }
  }

  lemma {:induction false} NormalizedEachCons(stems: seq<string>, line: string, lines: seq<string>)
    requires GoodStems(stems)
    ensures NormalizedEach(stems, [line] + lines) == [Normalized(stems, line)] + NormalizedEach(stems, lines)
    ensures NonEmpty(NormalizedEach(stems, [line] + lines))
         == NonEmpty([Normalized(stems, line)]) + NonEmpty(NormalizedEach(stems, lines))
  {
    assert ([line] + lines)[1..] == lines;
    NonEmptyConcat([Normalized(stems, line)], NormalizedEach(stems, lines));
  }

  /** Cutting a text at its first newline: the two sides are normalised on their own. */
  lemma {:induction false} CutAtNewline(stems: seq<string>, s: string) returns (line: string, rest: string, gap: string)
    requires GoodStems(stems)
    requires '\n' in s
    ensures s == line + "\n" + rest && OneLine(line) && OneLine(Normalized(stems, line))
    ensures Normalized(stems, s) == Normalized(stems, line) + gap + Normalized(stems, rest)
    ensures gap == "" ==> Normalized(stems, line) == "" || Normalized(stems, rest) == ""
    ensures gap != "" ==> exists k: nat :: k > 0 && gap == Newlines(k)
  {
    var ts := NormalizeTheorems.CanonOfTokens(stems, s);
    NewlinelessText(stems, ts);
    var a, g, b := FirstBreak(Edge, ts);
    BreakCanonical(ts, a, g, b);
    gap := CutResult(stems, a, g, b);
    line, rest := CutSides(stems, a, g, b);
  }

  lemma {:induction false} CutSides(stems: seq<string>, a: seq<Token>, g: string, b: seq<Token>)
    returns (line: string, rest: string)
    requires GoodStems(stems)
    requires Canonical(Edge, a) && Proper(Sep(g)) && Canonical(Sep(g), b) && (a != [] ==> !a[|a| - 1].Sep?)
    requires '\n' in g && Newlineless(a)
    ensures Render(a + ([Sep(g)] + b)) == line + "\n" + rest && OneLine(line) && OneLine(Normalized(stems, line))
    ensures Normalized(stems, line) == Result(stems, Edge, a) && Normalized(stems, rest) == Result(stems, Sep(g), b)
  {
    var g1, g2 := SplitGap(g);
    line, rest := Render(a) + g1, g2 + Render(b);
    AllParts(Separator, g1 + "\n", g2);
    AllParts(Separator, g1, "\n");
    CanonBefore(stems, a, g1);
    CanonAfter(stems, g, g2, b);
    OneLineTokens(stems, Edge, a);
    RenderConcat(a, [Sep(g)] + b);
    Cons(Edge, Sep(g), b);
    CutText(Render(a), g1, g2, Render(b));
  }

  lemma {:induction false} CutText(a: string, g1: string, g2: string, b: string)
    ensures a + ((g1 + "\n" + g2) + b) == (a + g1) + "\n" + (g2 + b)
  {
  }

  lemma {:induction false} SplitGap(g: string) returns (g1: string, g2: string)
    requires '\n' in g
    ensures g == g1 + "\n" + g2 && OneLine(g1)
  {
    if g[0] == '\n' {
      g1, g2 := "", g[1..];
    } else {
      var a, b := SplitGap(g[1..]);
      g1, g2 := [g[0]] + a, b;
    }
  }

  lemma {:induction false} BreakCanonical(ts: seq<Token>, a: seq<Token>, g: string, b: seq<Token>)
    requires Canonical(Edge, ts) && ts == a + ([Sep(g)] + b)
    ensures Canonical(Edge, a) && Proper(Sep(g)) && Canonical(Sep(g), b) && (a != [] ==> !a[|a| - 1].Sep?)
  {
    CanonicalConcat(Edge, a, [Sep(g)] + b);
    Cons(Last(Edge, a), Sep(g), b);
  }

  lemma {:induction false} CutResult(stems: seq<string>, a: seq<Token>, g: string, b: seq<Token>) returns (gap: string)
    requires GoodStems(stems)
    requires Proper(Sep(g)) && '\n' in g && (a != [] ==> !a[|a| - 1].Sep?)
    requires Canonical(Edge, a) && Canonical(Sep(g), b)
    ensures Result(stems, Edge, a + ([Sep(g)] + b)) == Result(stems, Edge, a) + gap + Result(stems, Sep(g), b)
    ensures gap == "" ==> Result(stems, Edge, a) == "" || Result(stems, Sep(g), b) == ""
    ensures gap != "" ==> exists k: nat :: k > 0 && gap == Newlines(k)
  {
    var p, n := Last(Edge, a), First(b);
    gap := Gap(p, g, n);
    ResultConcat(stems, Edge, a, [Sep(g)] + b);
    FlowCons(stems, p, Sep(g), b);
    SettledIsGap(p, g, n);
    Assoc(Result(stems, Edge, a), gap, Result(stems, Sep(g), b));
    if AllJoiner(g) { JoinerHasNoNewline(g); }
    if AllHalfSpaces(g) { HalfSpacesJoin(g); }
    if !p.Edge? && !n.Edge? {
      var k := Weight(0, Visible(g));
      VisibleEmpty(g);
      WeightPositive(Visible(g));
      NewlinesShape(k);
      assert gap == Newlines(k) && k > 0;
    } else {
      EdgeEmpty(a, g, b);
    }
  }

  lemma {:induction false} EdgeEmpty(a: seq<Token>, g: string, b: seq<Token>)
    requires Canonical(Edge, a) && Canonical(Sep(g), b)
    ensures Last(Edge, a).Edge? ==> a == []
    ensures First(b).Edge? ==> b == []
  {
    if a != [] {
      CanonicalConcat(Edge, a[..|a| - 1], [a[|a| - 1]]);
      assert a == a[..|a| - 1] + [a[|a| - 1]];
    }
  }

  /** The non-empty lines of the result are the normalised lines of the text, in order. */
  lemma {:induction false} LinesSurvive(stems: seq<string>, s: string)
    requires GoodStems(stems)
    ensures NonEmpty(Split(Normalized(stems, s))) == NonEmpty(NormalizedEach(stems, Split(s)))
    decreases |s|
  {
    if '\n' in s {
      var line, rest, gap := CutAtNewline(stems, s);
      LinesSurvive(stems, rest);
      SplitCons(line, rest);
      NormalizedEachCons(stems, line, Split(rest));
      var x, y := Normalized(stems, line), Normalized(stems, rest);
      if gap != "" {
        var k: nat :| k > 0 && gap == Newlines(k);
        LinesAround(x, k, y);
      } else if x == "" {
        assert x + gap + y == y;
      } else {
        assert x + gap + y == x;
        SplitCons(x, "");
      }
    } else {
      SplitCons(s, "");
      CanonOneLine(stems, s);
      SplitCons(Normalized(stems, s), "");
      NormalizedEachCons(stems, s, []);
      assert [s] == [s] + [] && [Normalized(stems, s)] == [Normalized(stems, s)] + [];
    }
  }

  lemma {:induction false} CanonOneLine(stems: seq<string>, s: string)
    requires GoodStems(stems)
    requires '\n' !in s
    ensures OneLine(Normalized(stems, s))
  {
    var ts := NormalizeTheorems.CanonOfTokens(stems, s);
    NewlinelessText(stems, ts);
    OneLineTokens(stems, Edge, ts);
  }

  lemma {:induction false} NewlinelessText(stems: seq<string>, ts: seq<Token>)
    requires GoodStems(stems)
    requires Canonical(Edge, ts)
    ensures Newlineless(ts) <==> '\n' !in Render(ts)
  {
    if Newlineless(ts) {
      OneLineTokens(stems, Edge, ts);
    } else {
      var a, g, b := FirstBreak(Edge, ts);
      RenderConcat(a, [Sep(g)] + b);
      Cons(Edge, Sep(g), b);
    }
  }
}
