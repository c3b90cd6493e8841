/** What normalising promises: it settles, keeps the letters and the lines, and
    makes the spellings of a verb meet. */
module NormalizeTheorems {
  import opened Text
  import opened Rewriting
  import opened Tokens
  import opened Stages
  import opened Spacing
  import opened Gaps
  import opened Normalize
  import opened Idempotence

  lemma {:induction false} CanonOfTokens(stems: seq<string>, s: string) returns (ts: seq<Token>)
    requires GoodStems(stems)
    ensures ts == Tokenize(s) && Canonical(Edge, ts) && Render(ts) == s
        && Normalized(stems, s) == Result(stems, Edge, ts)
  {
    ts := Tokenize(s);
    TokenizeCanonical(Edge, s);
    RenderTokenize(s);
    NormalizeTokenwise(stems, ts);
  }

  // ---- idempotence -------------------------------------------------------

  lemma {:induction false} TwiceTokens(stems: seq<string>, ts: seq<Token>)
    requires GoodStems(stems)
    requires Canonical(Edge, ts)
    ensures Normalized(stems, Normalized(stems, Render(ts))) == Normalized(stems, Render(ts)) <==> Steady(Edge, ts)
  {
    NormalizeTokenwise(stems, ts);
    OutCanonical(stems, Edge, Edge, ts);
    OutRenders(stems, Edge, ts);
    NormalizeTokenwise(stems, OutTokens(stems, Edge, ts));
    SecondRun(stems, Edge, Edge, ts);
  }

  /** Normalising twice is normalising once exactly when no separator inside the text
      leaves more than two newlines, and none that holds another blank than a space
      parts a pair that a space would join. */
  lemma {:induction false} IdempotentExactly(stems: seq<string>, s: string)
    requires GoodStems(stems)
    ensures Normalized(stems, Normalized(stems, s)) == Normalized(stems, s) <==> Steady(Edge, Tokenize(s))
  {
    var ts := CanonOfTokens(stems, s);
    TwiceTokens(stems, ts);
  }

  // ---- two runs settle ---------------------------------------------------

  /** What a separator settles to, wherever it stands. */
  ghost predicate Plain(x: string) {
    x == [ZWNJ] || x == " " || exists k: nat :: k > 0 && x == Newlines(k)
  }

  ghost predicate PlainSeps(ts: seq<Token>) {
    forall i | 0 <= i < |ts| && ts[i].Sep? :: Plain(ts[i].text)
  }

  lemma {:induction false} PlainIsSteady(prev: Token, x: string, next: Token)
    requires Plain(x)
    ensures SteadyGap(prev, x, next)
  {
    if k: nat :| k > 0 && x == Newlines(k) {
      NewlinesShape(k);
      BlanksOfNewlines(k);
      Unit(x);
      WeightOfBlock(0, x, "");
    }
  }

  lemma {:induction false} GapIsPlain(prev: Token, g: string, next: Token)
    requires Gap(prev, g, next) != ""
    ensures Plain(Gap(prev, g, next))
  {
    var k := Weight(0, Visible(g));
    assert Gap(prev, g, next) == Newlines(k) ==> k > 0;
  }

  lemma {:induction false} PlainConcat(a: seq<Token>, b: seq<Token>)
    requires PlainSeps(a) && PlainSeps(b)
    ensures PlainSeps(a + b)
  {
  }

  lemma {:induction false} OutIsPlain(stems: seq<string>, prev: Token, ts: seq<Token>)
    ensures PlainSeps(OutTokens(stems, prev, ts))
    decreases |ts|
  {
    if ts != [] {
      var xs := TokensOf(stems, prev, ts[0], First(ts[1..]));
      if ts[0].Sep? && xs != [] { GapIsPlain(prev, ts[0].text, First(ts[1..])); }
      OutIsPlain(stems, ts[0], ts[1..]);
      PlainConcat(xs, OutTokens(stems, ts[0], ts[1..]));
    }
  }

  lemma {:induction false} PlainSepsSteady(prev: Token, ts: seq<Token>)
    requires PlainSeps(ts)
    ensures Steady(prev, ts)
    decreases |ts|
  {
    if ts != [] {
      if ts[0].Sep? { PlainIsSteady(prev, ts[0].text, First(ts[1..])); }
      PlainSepsSteady(ts[0], ts[1..]);
    }
  }

  /** Whatever the text, a third run changes nothing. */
  lemma {:induction false} TwoRunsSettle(stems: seq<string>, s: string)
    requires GoodStems(stems)
    ensures var twice := Normalized(stems, Normalized(stems, s)); Normalized(stems, twice) == twice
  {
    var ts := CanonOfTokens(stems, s);
    var out := OutTokens(stems, Edge, ts);
    OutCanonical(stems, Edge, Edge, ts);
    OutRenders(stems, Edge, ts);
    OutIsPlain(stems, Edge, ts);
    PlainSepsSteady(Edge, out);
    TwiceTokens(stems, out);
  }

  // ---- texts that one run settles ----------------------------------------

  /** The only white space is spaces and newlines, and between two newlines there are
      never just spaces and half-spaces. */
  ghost predicate Ordinary(s: string) {
    && (forall i | 0 <= i < |s| :: IsSpace(s[i]) ==> s[i] == ' ' || s[i] == '\n')
    && (forall i, j | 0 <= i < j < |s| :: !BlankBetween(s, i, j))
  }

  ghost predicate BlankBetween(s: string, i: nat, j: nat)
    requires i < j < |s|
  {
    s[i] == '\n' && s[j] == '\n' && j > i + 1 && All(Joiner, s[i + 1..j])
  }

  lemma {:induction false} OrdinaryInside(a: string, m: string, b: string)
    requires Ordinary(a + m + b)
    ensures Ordinary(m)
  {
    var s := a + m + b;
    assert forall i | 0 <= i < |m| :: m[i] == s[|a| + i];
    forall i, j | 0 <= i < j < |m| ensures !BlankBetween(m, i, j) {
      assert !BlankBetween(s, |a| + i, |a| + j);
      assert m[i + 1..j] == s[|a| + i + 1..|a| + j];
    }
  }

  /** After a newline: no more newlines once something else has come. */
  lemma {:induction false} NewlineThenBlanks(g: string, c: nat)
    requires Ordinary("\n" + g) && All(Separator, g) && 1 <= c <= 2
    ensures c + Weight(c, Visible(g)) <= 2
    decreases |g|
  {
    if g != "" {
      var s := "\n" + g;
      assert s[1..] == g && s == "" + s[..1] + g && s == "\n" + g + "";
      OrdinaryInside("\n", g, "");
      assert g == [g[0]] + g[1..];
      AllParts(Separator, [g[0]], g[1..]);
      if g[0] == '\n' {
        NewlineThenBlanks(g[1..], if c < 2 then c + 1 else c);
      } else {
        NoNewlineAfter(g, s);
        NoNewlineNoWeight(g, c);
      }
    }
  }

  lemma {:induction false} NoNewlineAfter(g: string, s: string)
    requires s == "\n" + g && Ordinary(s) && All(Separator, g) && g != "" && g[0] != '\n'
    ensures '\n' !in g
  {
    if '\n' in g {
      var j := FirstNewline(g);
      forall i | 0 <= i < |g| ensures IsSpace(g[i]) ==> g[i] == ' ' || g[i] == '\n' { assert s[i + 1] == g[i]; }
      BlankAhead(g, j);
    }
  }

  lemma {:induction false} BlankAhead(g: string, j: nat)
    requires 0 < j < |g| && g[j] == '\n' && '\n' !in g[..j] && All(Separator, g)
    requires forall i | 0 <= i < |g| :: IsSpace(g[i]) ==> g[i] == ' ' || g[i] == '\n'
    ensures BlankBetween("\n" + g, 0, j + 1)
  {
    var s := "\n" + g;
    assert s[1..j + 1] == g[..j];
    forall i | 0 <= i < j ensures InClass(Joiner, g[..j][i]) { assert InClass(Separator, g[i]) && g[..j][i] in g[..j]; }
  }

  lemma {:induction false} FirstNewline(g: string) returns (j: nat)
    requires '\n' in g
    ensures j < |g| && g[j] == '\n' && '\n' !in g[..j]
  {
    j := 0;
    if g[0] != '\n' {
      var k := FirstNewline(g[1..]);
      j := k + 1;
      assert g[..j] == [g[0]] + g[1..][..k];
    }
  }

  lemma {:induction false} NoNewlineNoWeight(g: string, c: nat)
    requires '\n' !in g
    ensures Weight(c, Visible(g)) == 0
  {
    if g != "" {
      assert g[0] in g && forall x | x in g[1..] :: x in g;
      NoNewlineNoWeight(g[1..], 0);
      NoNewlineNoWeight(g[1..], c);
      Unit(Visible(g[1..]));
      if g[0] != ZWNJ { WeightCons(c, [g[0]], Visible(g[1..])); }
    }
  }

  lemma {:induction false} OrdinaryWeight(g: string)
    requires Ordinary(g) && All(Separator, g)
    ensures Weight(0, Visible(g)) <= 2
  {
    if g != "" {
      assert g == [g[0]] + g[1..];
      AllParts(Separator, [g[0]], g[1..]);
      if g[0] == '\n' {
        NewlineThenBlanks(g[1..], 1);
      } else {
        assert g == [g[0]] + g[1..] + "";
        OrdinaryInside([g[0]], g[1..], "");
        OrdinaryWeight(g[1..]);
        Unit(Visible(g[1..]));
        if g[0] != ZWNJ { WeightCons(0, [g[0]], Visible(g[1..])); }
      }
    }
  }

  lemma {:induction false} OrdinaryGapIsSteady(prev: Token, g: string, next: Token)
    requires Ordinary(g) && All(Separator, g)
    ensures SteadyGap(prev, g, next)
  {
    OrdinaryWeight(g);
    if '\n' !in g {
      forall i | 0 <= i < |g| ensures InClass(Joiner, g[i]) { assert InClass(Separator, g[i]) && g[i] in g; }
      RunOver(Joiner, g, "");
      assert g + "" == g;
    }
  }

  lemma {:induction false} OrdinaryIsSteady(prev: Token, ts: seq<Token>)
    requires Canonical(prev, ts) && Ordinary(Render(ts))
    ensures Steady(prev, ts)
    decreases |ts|
  {
    if ts != [] {
      var x, rest := Source(ts[0]), Render(ts[1..]);
      assert "" + x + rest == Render(ts) && x + rest + "" == Render(ts);
      OrdinaryInside("", x, rest);
      OrdinaryInside(x, rest, "");
      if ts[0].Sep? { OrdinaryGapIsSteady(prev, x, First(ts[1..])); }
      OrdinaryIsSteady(ts[0], ts[1..]);
    }
  }

  /** An ordinary text is normalised once and for all. */
  lemma {:induction false} OrdinaryIsIdempotent(stems: seq<string>, s: string)
    requires GoodStems(stems)
    requires Ordinary(s)
    ensures Normalized(stems, Normalized(stems, s)) == Normalized(stems, s)
  {
    var ts := CanonOfTokens(stems, s);
    OrdinaryIsSteady(Edge, ts);
    IdempotentExactly(stems, s);
  }

  /** Any single separator that is not steady is a witness. */
  lemma {:induction false} UnsteadyPair(stems: seq<string>, a: Token, g: string, b: Token)
    requires GoodStems(stems)
    requires Proper(a) && Proper(b) && Proper(Sep(g)) && !a.Sep? && !b.Sep? && !SteadyGap(a, g, b)
    ensures var s := Source(a) + g + Source(b); Normalized(stems, Normalized(stems, s)) != Normalized(stems, s)
  {
    var ts := [a, Sep(g), b];
    CanonicalThree(a, Sep(g), b);
    assert ts[1..] == [Sep(g), b] && ts[1..][1..] == [b];
    TwiceTokens(stems, ts);
  }

  /** A tab between a prefix and its verb becomes a space too late to be joined. */
  lemma {:induction false} TabIsNotSteady(stems: seq<string>)
    requires GoodStems(stems)
    ensures var s := MI + "\t" + "شود"; Normalized(stems, Normalized(stems, s)) != Normalized(stems, s)
  {
    assert Run(Joiner, "\t") == 0;
    UnsteadyPair(stems, Word(MI), "\t", Word("شود"));
  }

  /** A blank line holding a space is emptied after blank lines were collapsed. */
  lemma {:induction false} BlankLineIsNotSteady(stems: seq<string>)
    requires GoodStems(stems)
    ensures var s := "a" + "\n \n\n" + "b"; Normalized(stems, Normalized(stems, s)) != Normalized(stems, s)
  {
    WeightOfBlankLine();
    UnsteadyPair(stems, Other('a'), "\n \n\n", Other('b'));
  }

  lemma {:induction false} WeightOfBlankLine()
    ensures var g := "\n \n\n"; '\n' in g && Weight(0, Visible(g)) == 3
  {
    VisibleConcat("\n ", "\n\n");
    assert Visible("\n ") == "\n " && Visible("\n\n") == "\n\n" && "\n \n\n" == "\n " + "\n\n";
    WeightCons(0, "\n", " \n\n");
    WeightCons(1, " ", "\n\n");
    WeightCons(0, "\n", "\n");
    WeightCons(1, "\n", "");
    assert "\n \n\n" == "\n" + " \n\n" && " \n\n" == " " + "\n\n" && "\n\n" == "\n" + "\n" && "\n" == "\n" + "";
  }

  lemma {:induction false} CanonicalThree(a: Token, b: Token, c: Token)
    requires Proper(a) && Proper(b) && Proper(c) && Apart(a, b) && Apart(b, c)
    ensures Canonical(Edge, [a, b, c]) && Render([a, b, c]) == Source(a) + Source(b) + Source(c)
  {
    Cons(Edge, a, [b, c]);
    Cons(a, b, [c]);
    Cons(b, c, []);
    assert [a, b, c] == [a] + ([b] + ([c] + [])) && Canonical(c, []);
    RenderThree(a, b, c);
  }

  // ---- letters and half-spaces -------------------------------------------

  /** The text without white space and half-spaces. */
  function Letters(s: string): string {
    if s == "" then "" else (if InClass(Separator, s[0]) then "" else [s[0]]) + Letters(s[1..])
  }

  lemma {:induction false} LettersConcat(a: string, b: string)
    ensures Letters(a + b) == Letters(a) + Letters(b)
  {
    if a == "" {
      assert a + b == b;
    } else {
      var h := if InClass(Separator, a[0]) then "" else [a[0]];
      assert (a + b)[1..] == a[1..] + b;
      LettersConcat(a[1..], b);
      Assoc(h, Letters(a[1..]), Letters(b));
    }
  }

  lemma {:induction false} NoLetters(g: string)
    requires All(Separator, g)
    ensures Letters(g) == ""
  {
    if g != "" {
      assert g == g[..1] + g[1..] && InClass(Separator, g[0]);
      AllParts(Separator, g[..1], g[1..]);
      NoLetters(g[1..]);
    }
  }

  lemma {:induction false} LettersOfWord(stems: seq<string>, w: string)
    requires GoodStems(stems)
    ensures Letters(SplitWord(stems, w)) == Letters(w)
  {
    if IsSplit(stems, w) { LettersAround(w, PrefixLength(w)); }
  }

  lemma {:induction false} LettersAround(w: string, p: nat)
    requires p <= |w|
    ensures Letters(w[..p] + [ZWNJ] + w[p..]) == Letters(w)
  {
    LettersJoined(w[..p], w[p..]);
    assert w == w[..p] + w[p..];
  }

  lemma {:induction false} LettersJoined(a: string, b: string)
    ensures Letters(a + [ZWNJ] + b) == Letters(a + b)
  {
    NoLetters([ZWNJ]);
    LettersConcat(a + [ZWNJ], b);
    LettersConcat(a, [ZWNJ]);
    LettersConcat(a, b);
    assert Letters(a) + "" == Letters(a);
  }

  lemma {:induction false} LettersOfResult(stems: seq<string>, prev: Token, ts: seq<Token>)
    requires GoodStems(stems)
    requires Canonical(prev, ts)
    ensures Letters(Result(stems, prev, ts)) == Letters(Render(ts))
    decreases |ts|
  {
    if ts != [] {
      var t, rest := ts[0], ts[1..];
      LettersOfResult(stems, t, rest);
      FlowWithStep(stems, Settled, prev, ts);
      LettersConcat(Source(t), Render(rest));
      var tail := Result(stems, t, rest);
      if t.Sep? {
        var x := Gap(prev, t.text, First(rest));
        SettledIsGap(prev, t.text, First(rest));
        if x != "" { GapIsProper(prev, t.text, First(rest)); }
        NoLetters(x);
        NoLetters(t.text);
        LettersConcat(x, tail);
      } else {
        LettersOfWord(stems, Source(t));
        LettersConcat(Body(stems, t), tail);
      }
    }
  }

  /** Normalising moves no letter: it only changes white space and half-spaces. */
  lemma {:induction false} LettersSurvive(stems: seq<string>, s: string)
    requires GoodStems(stems)
    ensures Letters(Normalized(stems, s)) == Letters(s)
  {
    var ts := CanonOfTokens(stems, s);
    LettersOfResult(stems, Edge, ts);
  }

  /** A half-space at `i` stands between two letters; what comes before the text may be one. */
  predicate HeldAt(afterLetter: bool, s: string, i: nat)
    requires i < |s|
  {
    s[i] == ZWNJ ==> (if i == 0 then afterLetter else IsArabic(s[i - 1])) && i + 1 < |s| && IsArabic(s[i + 1])
  }

  ghost predicate HeldAfter(afterLetter: bool, s: string) {
    forall i: nat | i < |s| :: HeldAt(afterLetter, s, i)
  }

  lemma {:induction false} HeldConcat(p: bool, x: string, q: bool, s: string)
    requires HeldAfter(q, s) && (q ==> x != "" && IsArabic(x[|x| - 1]))
    requires if s != "" && IsArabic(s[0]) then HeldAfter(p, x + [s[0]]) else HeldAfter(p, x)
    requires x == "" && s != "" ==> s[0] != ZWNJ
    ensures HeldAfter(p, x + s)
  {
    var y := x + s;
    forall i: nat | i < |y| ensures HeldAt(p, y, i) {
      if i < |x| {
        var z := if s != "" && IsArabic(s[0]) then x + [s[0]] else x;
        assert HeldAt(p, z, i);
      } else {
        assert HeldAt(q, s, i - |x|);
      }
    }
  }

  lemma {:induction false} ResultHeld(stems: seq<string>, prev: Token, ts: seq<Token>)
    requires GoodStems(stems)
    requires Canonical(prev, ts)
    ensures HeldAfter(prev.Word?, Result(stems, prev, ts))
    decreases |ts|
  {
    if ts != [] {
      var t, rest := ts[0], ts[1..];
      ResultHeld(stems, t, rest);
      FlowWithStep(stems, Settled, prev, ts);
      var tail := Result(stems, t, rest);
      if t.Sep? {
        AfterSep(stems, Settled, t, rest);
        SettledIsGap(prev, t.text, First(rest));
        GapHeld(prev, t.text, First(rest), tail);
        HeldConcat(prev.Word?, Gap(prev, t.text, First(rest)), false, tail);
      } else {
        HeldBody(stems, prev, t, tail);
      }
    }
  }

  lemma {:induction false} HeldBody(stems: seq<string>, prev: Token, t: Token, tail: string)
    requires GoodStems(stems)
    requires Proper(t) && !t.Sep? && HeldAfter(t.Word?, tail)
    ensures HeldAfter(prev.Word?, Body(stems, t) + tail)
  {
    var x := Body(stems, t);
    BodyFacts(stems, t);
    BodyInside(stems, t);
    HeldStays(prev.Word?, x, "");
    assert x + "" == x;
    if tail != "" && IsArabic(tail[0]) { HeldStays(prev.Word?, x, [tail[0]]); }
    HeldConcat(prev.Word?, x, t.Word?, tail);
  }

  lemma {:induction false} HeldStays(p: bool, x: string, y: string)
    requires Held(x) && forall i | 0 <= i < |y| :: y[i] != ZWNJ
    ensures HeldAfter(p, x + y)
  {
    forall i: nat | i < |x + y| ensures HeldAt(p, x + y, i) {
      if i < |x| && x[i] == ZWNJ { assert InClass(Separator, x[i]); }
    }
  }

  lemma {:induction false} GapHeld(prev: Token, g: string, next: Token, tail: string)
    requires Proper(Sep(g)) && (StartsIn(Arabic, tail) <==> next.Word?)
    ensures var x := Gap(prev, g, next);
      if StartsIn(Arabic, tail) then HeldAfter(prev.Word?, x + [tail[0]]) else HeldAfter(prev.Word?, x)
  {
    NewlinesShape(Weight(0, Visible(g)));
    var r, x := Newlines(Weight(0, Visible(g))), Gap(prev, g, next);
    assert forall i | 0 <= i < |r| :: InClass(Newline, r[i]);
    if x != [ZWNJ] { assert NoHalfSpace(x); }
  }

  ghost predicate NoHalfSpace(x: string) {
    forall i | 0 <= i < |x| :: x[i] != ZWNJ
  }

  /** Every half-space of the result stands between two Arabic letters. */
  lemma {:induction false} HalfSpacesAreHeld(stems: seq<string>, s: string, i: nat)
    requires GoodStems(stems)
    requires i < |Normalized(stems, s)| && Normalized(stems, s)[i] == ZWNJ
    ensures 0 < i < |Normalized(stems, s)| - 1 && IsArabic(Normalized(stems, s)[i - 1])
        && IsArabic(Normalized(stems, s)[i + 1])
  {
    var ts := CanonOfTokens(stems, s);
    ResultHeld(stems, Edge, ts);
    var r := Normalized(stems, s);
    assert HeldAt(false, r, i);
  }
}
