/** Each substitution pass, read at the level of tokens. After pass `i` every token
    of the original text contributes one piece of the current text; the lemmas show
    that the next pass rewrites piece by piece. */
module Stages {
  import Text
  import opened Rewriting
  import opened Tokens

  /** What the verb-stem table must satisfy; `Stems` proves it of the real one. */
  ghost predicate GoodStems(stems: seq<string>) {
    forall i | 0 <= i < |stems| :: |stems[i]| >= 2 && All(Arabic, stems[i]) && PrefixLength(stems[i]) == 0
  }

  predicate IsSplit(stems: seq<string>, w: string) {
    PrefixLength(w) > 0 && w[PrefixLength(w)..] in stems
  }

  /** A verb written together with its prefix is parted by a half-space. */
  function SplitWord(stems: seq<string>, w: string): string {
    var p := PrefixLength(w);
    if IsSplit(stems, w) then w[..p] + [ZWNJ] + w[p..] else w
  }

  predicate Joins(prev: Token, next: Token) {
    PrefixJoin(prev, next) || SuffixJoin(prev, next)
  }

  predicate PrefixJoin(prev: Token, next: Token) {
    prev.Word? && next.Word? && (prev.text == MI || prev.text == NEMI)
  }

  predicate SuffixJoin(prev: Token, next: Token) {
    prev.Word? && next.Word? && |prev.text| >= 2 && next.text in SUFFIXES
  }

  predicate AllJoiner(g: string) { Run(Joiner, g) == |g| }

  function Joined(prev: Token, g: string, next: Token): string {
    if Joins(prev, next) && AllJoiner(g) then [ZWNJ] else g
  }

  /** What a token contributes to the text after some pass, between its neighbours. */
  type Pieces = (Token, Token, Token) -> string

  function Raw(prev: Token, t: Token, next: Token): string {
    Source(t)
  }

  function Prefixed(prev: Token, t: Token, next: Token): string {
    if t.Sep? && PrefixJoin(prev, next) && AllJoiner(t.text) then [ZWNJ] else Source(t)
  }

  function Parted(stems: seq<string>, prev: Token, t: Token, next: Token): string {
    if t.Word? then SplitWord(stems, t.text) else Prefixed(prev, t, next)
  }

  function PartedBy(stems: seq<string>): Pieces {
    (a: Token, t: Token, b: Token) => Parted(stems, a, t, b)
  }

  /** From here on only separators change: `gap` says what they have become. */
  type Gaps = (Token, string, Token) -> string

  function Body(stems: seq<string>, t: Token): string {
    if t.Word? then SplitWord(stems, t.text) else Source(t)
  }

  function With(stems: seq<string>, gap: Gaps): Pieces {
    (a: Token, t: Token, b: Token) => if t.Sep? then gap(a, t.text, b) else Body(stems, t)
  }

  function SuffixedBy(stems: seq<string>): Pieces {
    With(stems, Joined)
  }

  /** The whole text, piece by piece. */
  function Flow(p: Pieces, prev: Token, ts: seq<Token>): string
    decreases |ts|
  {
    if ts == [] then "" else p(prev, ts[0], First(ts[1..])) + Flow(p, ts[0], ts[1..])
  }

  lemma {:induction false} RawText(prev: Token, ts: seq<Token>)
    requires Canonical(prev, ts)
    ensures Flow(Raw, prev, ts) == Render(ts)
    decreases |ts|
  {
    if ts != [] { RawText(ts[0], ts[1..]); }
  }

  /** The text so far ends as its last token says. */
  ghost predicate Fits(before: string, prev: Token) {
    match prev
    case Edge => before == ""
    case Word(w) => EndsIn(Arabic, before) && (EndsInTwoArabic(before) <==> |w| >= 2)
    case Sep(_) => !EndsIn(Arabic, before)
    case Other(c) => before != "" && before[|before| - 1] == c && !IsArabic(c)
  }

  // ---- words -------------------------------------------------------------

  lemma {:induction false} WordPrefix(p: string, w: string, tail: string)
    requires All(Arabic, p) && All(Arabic, w) && !StartsIn(Arabic, tail)
    ensures p <= w + tail <==> p <= w
    ensures p <= w ==> (w + tail)[|p|..] == w[|p|..] + tail
    ensures p <= w ==> (StartsIn(Arabic, w[|p|..] + tail) <==> p != w)
  {
    RunOver(Arabic, w, tail);
    if p <= w + tail { PrefixWithinRun(Arabic, p, w + tail); }
  }

  lemma {:induction false} PrefixWithinRun(k: Class, p: string, s: string)
    requires All(k, p) && p <= s
    ensures |p| <= Run(k, s)
  {
    if p != "" { PrefixWithinRun(k, p[1..], s[1..]); }
  }

  /** `ن?می` at the head of a whole word is a prefix of that word. */
  lemma {:induction false} PrefixOfWord(w: string, tail: string)
    requires All(Arabic, w) && !StartsIn(Arabic, tail)
    ensures PrefixLength(w + tail) == PrefixLength(w)
    ensures (w + tail)[PrefixLength(w)..] == w[PrefixLength(w)..] + tail
  {
    WordPrefix(MI, w, tail);
    WordPrefix(NEMI, w, tail);
  }

  ghost predicate ArabicWords(words: seq<string>) {
    forall i | 0 <= i < |words| :: words[i] != "" && All(Arabic, words[i])
  }

  /** An alternative followed by no Arabic letter is a whole word. */
  lemma {:induction false} AlternativeIsWord(words: seq<string>, w: string, tail: string)
    requires All(Arabic, w) && !StartsIn(Arabic, tail) && ArabicWords(words)
    ensures Alternative(words, w + tail) == if w in words then w else ""
  {
    if words != [] {
      AlternativeIsWord(words[1..], w, tail);
      WordPrefix(words[0], w, tail);
      assert w in words <==> w == words[0] || w in words[1..];
    }
  }

  /** Nothing inside a run of letters starts a pass that looks behind for its edge. */
  lemma {:induction false} InsideWord(before: string, w: string, i: nat)
    requires All(Arabic, w) && 0 < i <= |w|
    ensures EndsIn(Arabic, before + w[..i])
  {
    assert (before + w[..i])[|before| + i - 1] == w[i - 1];
  }

  lemma {:induction false} FitsWord(before: string, prev: Token, w: string)
    requires Proper(Word(w)) && !EndsIn(Arabic, before)
    ensures Fits(before + w, Word(w))
  {
    var s := before + w;
    assert s[|s| - 1] == w[|w| - 1];
    if |w| >= 2 { assert s[|s| - 2] == w[|w| - 2]; }
    else if before != "" { assert s[|s| - 2] == before[|before| - 1]; }
  }

  lemma {:induction false} FitsRest(before: string, t: Token, piece: string)
    requires Proper(t) && !t.Word? && piece != ""
    requires t.Other? ==> piece == [t.c]
    requires t.Sep? ==> !IsArabic(piece[|piece| - 1])
    ensures Fits(before + piece, t)
  {
    var s := before + piece;
    assert s[|s| - 1] == piece[|piece| - 1];
  }

  /** No piece is empty and each begins as its token does. */
  ghost predicate KeepsHeads(p: Pieces) {
    forall a, t, b | Proper(t) ::
      var x := p(a, t, b);
      x != "" && (t.Word? <==> IsArabic(x[0])) && (t.Sep? <==> InClass(Separator, x[0]))
  }

  lemma {:induction false} HeadOf(p: Pieces, prev: Token, ts: seq<Token>)
    requires Canonical(prev, ts) && KeepsHeads(p)
    ensures ts == [] <==> Flow(p, prev, ts) == ""
    ensures First(ts).Word? <==> StartsIn(Arabic, Flow(p, prev, ts))
    ensures First(ts).Sep? <==> StartsIn(Separator, Flow(p, prev, ts))
  {
    if ts != [] {
      var x := p(prev, ts[0], First(ts[1..]));
      assert x != "" && Flow(p, prev, ts)[0] == x[0];
    }
  }

  lemma {:induction false} RawHead(prev: Token, ts: seq<Token>)
    requires Canonical(prev, ts)
    ensures ts == [] <==> Flow(Raw, prev, ts) == ""
    ensures First(ts).Word? <==> StartsIn(Arabic, Flow(Raw, prev, ts))
    ensures First(ts).Sep? <==> StartsIn(Separator, Flow(Raw, prev, ts))
  {
    forall a, t, b | Proper(t)
      ensures var x := Raw(a, t, b);
        x != "" && (t.Word? <==> IsArabic(x[0])) && (t.Sep? <==> InClass(Separator, x[0]))
    {
      HeadClass(t);
    }
    HeadOf(Raw, prev, ts);
  }

  lemma {:induction false} HeadClass(t: Token)
    requires Proper(t)
    ensures Source(t) != ""
    ensures t.Word? <==> IsArabic(Source(t)[0])
    ensures t.Sep? <==> InClass(Separator, Source(t)[0])
  {
    assert InClass(Separator, Source(t)[0]) ==> !IsArabic(Source(t)[0]);
  }

  // ---- `_PREFIX_SPACED` --------------------------------------------------

  /** A pass whose matches begin with a letter copies everything else. */
  lemma {:induction false} CopyRest(m: Matcher, before: string, a: string, tail: string)
    requires forall i | 0 <= i < |a| :: !IsArabic(a[i])
    requires forall b: string, r: string | !StartsIn(Arabic, r) :: m(b, r).NoMatch?
    ensures Sub(m, before, a + tail) == a + Sub(m, before + a, tail)
  {
    forall i | 0 <= i < |a| ensures m(before + a[..i], a[i..] + tail).NoMatch? {
      assert (a[i..] + tail)[0] == a[i];
    }
    Copy(m, before, a, tail);
  }

  lemma {:induction false} CopyWord(m: Matcher, before: string, w: string, tail: string)
    requires All(Arabic, w)
    requires m(before, w + tail).NoMatch?
    requires forall b: string, r: string | EndsIn(Arabic, b) :: m(b, r).NoMatch?
    ensures Sub(m, before, w + tail) == w + Sub(m, before + w, tail)
  {
    QuietWord(m, before, w, tail);
    Copy(m, before, w, tail);
  }

  /** A pass that looks behind for an edge can only start at the head of a word. */
  lemma {:induction false} QuietWord(m: Matcher, before: string, w: string, tail: string)
    requires All(Arabic, w)
    requires m(before, w + tail).NoMatch?
    requires forall b: string, r: string | EndsIn(Arabic, b) :: m(b, r).NoMatch?
    ensures Quiet(m, before, w, tail)
  {
    forall i | 0 <= i < |w| ensures m(before + w[..i], w[i..] + tail).NoMatch? {
      if i == 0 {
        assert before + w[..0] == before && w[0..] == w;
      } else {
        InsideWord(before, w, i);
      }
    }
  }

  lemma {:induction false} PrefixedMiss(before: string, w: string, tail: string)
    requires Proper(Word(w)) && !StartsIn(Arabic, tail)
    requires PrefixLength(w) == |w| && Run(Joiner, tail) > 0 ==> !StartsIn(Arabic, tail[Run(Joiner, tail)..])
    ensures MatchAt(PrefixSpaced, before, w + tail).NoMatch?
  {
    PrefixOfWord(w, tail);
    var p := PrefixLength(w);
    if p < |w| {
      assert (w[p..] + tail)[0] == w[p];
    } else {
      assert w[p..] + tail == tail && (w + tail)[p + Run(Joiner, tail)..] == tail[Run(Joiner, tail)..];
    }
  }

  /** A word is `می` or `نمی` when the prefix is all of it. */
  lemma {:induction false} WholePrefix(w: string)
    ensures (w == MI || w == NEMI) <==> w != "" && PrefixLength(w) == |w|
    ensures w == MI || w == NEMI ==> All(Arabic, w) && |w| >= 2
  {
  }

  lemma {:induction false} PrefixedMatch(before: string, w: string, g: string, tail: string)
    requires Proper(Word(w)) && PrefixLength(w) == |w| && g != "" && All(Joiner, g)
    requires !EndsIn(Arabic, before) && StartsIn(Arabic, tail)
    ensures PrefixSpacedAt(before, w + g + tail) == Match(|w + g|, w + [ZWNJ])
  {
    var rest := w + g + tail;
    assert rest == w + (g + tail);
    assert PrefixLength(rest) == |w| by { PrefixOfWord(w, g + tail); }
    assert rest[|w|..] == g + tail;
    assert Run(Joiner, g + tail) == |g| by { RunOver(Joiner, g, tail); }
    assert rest[|w| + |g|..] == tail && rest[..|w|] == w;
  }

  lemma {:induction false} PrefixedHit(before: string, w: string, g: string, tail: string)
    requires (w == MI || w == NEMI) && g != "" && All(Joiner, g)
    requires !EndsIn(Arabic, before) && StartsIn(Arabic, tail)
    ensures Sub(Rewriter(PrefixSpaced), before, w + (g + tail))
         == w + ([ZWNJ] + Sub(Rewriter(PrefixSpaced), before + w + g, tail))
  {
    WholePrefix(w);
    PrefixedMatch(before, w, g, tail);
    var m := Rewriter(PrefixSpaced);
    assert m(before, w + g + tail) == MatchAt(PrefixSpaced, before, w + g + tail);
    HitPair(m, before, w, g, tail, w, [ZWNJ]);
  }

  lemma {:induction false} HitPair(m: Matcher, before: string, a: string, b: string, tail: string, x: string, y: string)
    requires a != "" && m(before, a + b + tail) == Match(|a + b|, x + y)
    ensures Sub(m, before, a + (b + tail)) == x + (y + Sub(m, before + a + b, tail))
  {
    Hit(m, before, a + b, tail, x + y);
    assert a + (b + tail) == a + b + tail && before + (a + b) == before + a + b;
    assert x + (y + Sub(m, before + a + b, tail)) == x + y + Sub(m, before + a + b, tail);
  }

  /** The separator ahead belongs to the match that starts at the word before it. */
  predicate JoinsAhead(prev: Token, ts: seq<Token>) {
    ts != [] && ts[0].Sep? && PrefixJoin(prev, First(ts[1..])) && AllJoiner(ts[0].text)
  }

  lemma {:induction false} PrefixSpacedWord(before: string, t: Token, rest: seq<Token>)
    requires Proper(t) && t.Word? && Canonical(t, rest) && !EndsIn(Arabic, before)
    requires !JoinsAhead(t, rest)
    ensures var m, tail := Rewriter(PrefixSpaced), Flow(Raw, t, rest);
      Sub(m, before, t.text + tail) == t.text + Sub(m, before + t.text, tail)
  {
    var tail := Flow(Raw, t, rest);
    RawHead(t, rest);
    if Run(Joiner, tail) > 0 && StartsIn(Arabic, tail[Run(Joiner, tail)..]) {
      JoinerThenWord(t, rest);
      WholePrefix(t.text);
    }
    PrefixedMiss(before, t.text, tail);
    CopyWord(Rewriter(PrefixSpaced), before, t.text, tail);
  }

  /** Blanks reaching up to a letter are one whole separator, followed by a word. */
  lemma {:induction false} JoinerThenWord(prev: Token, ts: seq<Token>)
    requires Canonical(prev, ts)
    requires var s := Flow(Raw, prev, ts); Run(Joiner, s) > 0 && StartsIn(Arabic, s[Run(Joiner, s)..])
    ensures ts != [] && ts[0].Sep? && AllJoiner(ts[0].text) && First(ts[1..]).Word?
  {
    RawHead(prev, ts);
    var s, g, tail := Flow(Raw, prev, ts), ts[0].text, Flow(Raw, ts[0], ts[1..]);
    RawHead(ts[0], ts[1..]);
    assert s == g + tail;
    JoinerRun(g, tail);
  }

  lemma {:induction false} JoinerRun(g: string, tail: string)
    requires All(Separator, g) && !StartsIn(Separator, tail)
    ensures Run(Joiner, g + tail) == Run(Joiner, g)
    ensures (g + tail)[Run(Joiner, g)..] == g[Run(Joiner, g)..] + tail
    ensures Run(Joiner, g) < |g| ==> !StartsIn(Arabic, (g + tail)[Run(Joiner, g)..])
  {
    if g == "" {
      assert g + tail == tail;
    } else {
      assert (g + tail)[1..] == g[1..] + tail;
      JoinerRun(g[1..], tail);
      assert (g + tail)[0] == g[0];
    }
  }

  lemma {:induction false} PrefixSpacedJoined(before: string, t: Token, rest: seq<Token>)
    requires Proper(t) && t.Word? && Canonical(t, rest) && !EndsIn(Arabic, before) && JoinsAhead(t, rest)
    requires Sub(Rewriter(PrefixSpaced), before + t.text + rest[0].text, Flow(Raw, rest[0], rest[1..]))
          == Flow(Prefixed, rest[0], rest[1..])
    ensures Sub(Rewriter(PrefixSpaced), before, t.text + Flow(Raw, t, rest))
         == t.text + Flow(Prefixed, t, rest)
  {
    RawHead(rest[0], rest[1..]);
    FlowJoined(t, rest);
    AllJoinerClass(rest[0].text);
    PrefixedHit(before, t.text, rest[0].text, Flow(Raw, rest[0], rest[1..]));
  }

  lemma {:induction false} AllJoinerClass(g: string)
    requires AllJoiner(g)
    ensures All(Joiner, g)
  {
    assert g[..|g|] == g;
  }

  lemma {:induction false} FlowJoined(t: Token, rest: seq<Token>)
    requires JoinsAhead(t, rest)
    ensures Flow(Raw, t, rest) == rest[0].text + Flow(Raw, rest[0], rest[1..])
    ensures Flow(Prefixed, t, rest) == [ZWNJ] + Flow(Prefixed, rest[0], rest[1..])
  {
  }

  lemma {:induction false} LetterMatches(b: string, r: string)
    requires !StartsIn(Arabic, r)
    ensures MatchAt(PrefixSpaced, b, r).NoMatch?
    ensures forall stems :: MatchAt(PrefixAttached(stems), b, r).NoMatch?
  {
  }

  lemma {:induction false} PrefixSpacedPass(before: string, prev: Token, ts: seq<Token>)
    requires Canonical(prev, ts) && Fits(before, prev) && !JoinsAhead(prev, ts)
    ensures Sub(Rewriter(PrefixSpaced), before, Flow(Raw, prev, ts)) == Flow(Prefixed, prev, ts)
    decreases |ts|
  {
    if ts != [] {
      var t, rest := ts[0], ts[1..];
      if t.Word? {
        FitsWord(before, prev, t.text);
        if JoinsAhead(t, rest) {
          FitsRest(before + t.text, rest[0], rest[0].text);
          PrefixSpacedPass(before + t.text + rest[0].text, rest[0], rest[1..]);
          PrefixSpacedJoined(before, t, rest);
        } else {
          PrefixSpacedWord(before, t, rest);
          PrefixSpacedPass(before + t.text, t, rest);
        }
      } else {
        forall b, r | !StartsIn(Arabic, r) ensures MatchAt(PrefixSpaced, b, r).NoMatch? { LetterMatches(b, r); }
        CopyRest(Rewriter(PrefixSpaced), before, Source(t), Flow(Raw, t, rest));
        FitsRest(before, t, Source(t));
        PrefixSpacedPass(before + Source(t), t, rest);
      }
    }
  }

  // ---- `_PREFIX_ATTACHED` ------------------------------------------------

  lemma {:induction false} PrefixedHead(prev: Token, ts: seq<Token>)
    requires Canonical(prev, ts)
    ensures First(ts).Word? <==> StartsIn(Arabic, Flow(Prefixed, prev, ts))
  {
    if ts != [] {
      var x := Prefixed(prev, ts[0], First(ts[1..]));
      HeadClass(ts[0]);
      assert x != "" && Flow(Prefixed, prev, ts)[0] == x[0];
    }
  }

  lemma {:induction false} PrefixAttachedMatch(stems: seq<string>, before: string, w: string, tail: string)
    requires GoodStems(stems) && Proper(Word(w)) && !EndsIn(Arabic, before) && !StartsIn(Arabic, tail)
    ensures MatchAt(PrefixAttached(stems), before, w + tail)
         == if IsSplit(stems, w) then Match(|w|, SplitWord(stems, w)) else NoMatch
  {
    var p := PrefixLength(w);
    PrefixOfWord(w, tail);
    forall i | 0 <= i < |stems| ensures stems[i] != "" && All(Arabic, stems[i]) {
      assert stems[i] in stems;
    }
    AlternativeIsWord(stems, w[p..], tail);
    if w[p..] in stems { assert |w[p..]| >= 2; }
    if p > 0 {
      assert (w + tail)[..p] == w[..p];
    }
  }

  lemma {:induction false} PrefixAttachedWord(stems: seq<string>, before: string, w: string, tail: string)
    requires GoodStems(stems) && Proper(Word(w)) && !EndsIn(Arabic, before) && !StartsIn(Arabic, tail)
    ensures Sub(Rewriter(PrefixAttached(stems)), before, w + tail)
         == SplitWord(stems, w) + Sub(Rewriter(PrefixAttached(stems)), before + w, tail)
  {
    var m := Rewriter(PrefixAttached(stems));
    PrefixAttachedMatch(stems, before, w, tail);
    if IsSplit(stems, w) {
      Hit(m, before, w, tail, SplitWord(stems, w));
    } else {
      CopyWord(m, before, w, tail);
    }
  }

  lemma {:induction false} PrefixAttachedRest(stems: seq<string>, before: string, prev: Token, t: Token,
          next: Token, tail: string)
    requires Proper(t) && !t.Word?
    ensures var m, x := Rewriter(PrefixAttached(stems)), Prefixed(prev, t, next);
      Sub(m, before, x + tail) == x + Sub(m, before + x, tail) && Fits(before + x, t)
  {
    var x := Prefixed(prev, t, next);
    forall b, r | !StartsIn(Arabic, r) ensures MatchAt(PrefixAttached(stems), b, r).NoMatch? { LetterMatches(b, r); }
    forall i | 0 <= i < |x| ensures !IsArabic(x[i]) {
      assert t.Sep? ==> InClass(Separator, x[i]);
    }
    CopyRest(Rewriter(PrefixAttached(stems)), before, x, tail);
    FitsRest(before, t, x);
  }

  lemma {:induction false} PrefixAttachedPass(stems: seq<string>, before: string, prev: Token, ts: seq<Token>)
    requires GoodStems(stems) && Canonical(prev, ts) && Fits(before, prev)
    ensures Sub(Rewriter(PrefixAttached(stems)), before, Flow(Prefixed, prev, ts)) == Flow(PartedBy(stems), prev, ts)
    decreases |ts|
  {
    if ts != [] {
      var m, t, rest := Rewriter(PrefixAttached(stems)), ts[0], ts[1..];
      var x, tail := Prefixed(prev, t, First(rest)), Flow(Prefixed, t, rest);
      PrefixedHead(t, rest);
      if t.Word? {
        FitsWord(before, prev, x);
        PrefixAttachedWord(stems, before, x, tail);
      } else {
        PrefixAttachedRest(stems, before, prev, t, First(rest), tail);
      }
      PrefixAttachedPass(stems, before + x, t, rest);
    }
  }

  // ---- `_SUFFIX_SPACED` --------------------------------------------------

  lemma {:induction false} PartedHead(stems: seq<string>, prev: Token, ts: seq<Token>)
    requires Canonical(prev, ts)
    ensures First(ts).Word? <==> StartsIn(Arabic, Flow(PartedBy(stems), prev, ts))
    ensures First(ts).Sep? <==> StartsIn(Separator, Flow(PartedBy(stems), prev, ts))
  {
    if ts != [] {
      var x := Parted(stems, prev, ts[0], First(ts[1..]));
      HeadClass(ts[0]);
      assert x != "" && Flow(PartedBy(stems), prev, ts)[0] == x[0];
    }
  }

  lemma {:induction false} NoJoiner(before: string, rest: string)
    requires !StartsIn(Joiner, rest)
    ensures MatchAt(SuffixSpaced, before, rest).NoMatch?
  {
  }

  lemma {:induction false} SuffixesAreWords()
    ensures ArabicWords(SUFFIXES)
  {
  }

  lemma {:induction false} SuffixesHaveNoPrefix()
    ensures forall s | s in SUFFIXES :: |s| >= 2 && PrefixLength(s) == 0
  {
    forall s | s in SUFFIXES ensures |s| >= 2 && PrefixLength(s) == 0 {
      assert s[0] != NEMI[0] && s[0] != MI[0];
    }
  }

  /** The half-space put into a verb stays, whatever its stem is. */
  lemma {:induction false} SuffixAfterPrefix(before: string, stem: string, tail: string)
    requires Proper(Word(stem)) && !StartsIn(Arabic, tail)
    ensures var m, x := Rewriter(SuffixSpaced), [ZWNJ] + stem;
      Sub(m, before, x + tail) == x + Sub(m, before + x, tail)
  {
    var m, x := Rewriter(SuffixSpaced), [ZWNJ] + stem;
    assert x + tail == [ZWNJ] + (stem + tail);
    SuffixAtHalfSpace(before, stem, tail);
    if m(before, x + tail).Match? {
      Hit(m, before, x, tail, x);
    } else {
      CopyOne(m, before, [ZWNJ], stem + tail);
      CopyLetters(before + [ZWNJ], stem, tail);
      Chain(m, before, [ZWNJ], stem, tail, [ZWNJ], stem);
    }
  }

  lemma {:induction false} SuffixAtHalfSpace(before: string, stem: string, tail: string)
    requires Proper(Word(stem)) && !StartsIn(Arabic, tail)
    ensures var hit := SuffixSpacedAt(before, [ZWNJ] + stem + tail);
      hit.Match? ==> hit == Match(|[ZWNJ] + stem|, [ZWNJ] + stem)
  {
    assert [ZWNJ] + stem + tail == [ZWNJ] + (stem + tail);
    assert Run(Joiner, [ZWNJ] + (stem + tail)) == 1 by { RunOver(Joiner, [ZWNJ], stem + tail); }
    SuffixesAreWords();
    AlternativeIsWord(SUFFIXES, stem, tail);
  }

  lemma {:induction false} CopyLetters(before: string, w: string, tail: string)
    requires All(Arabic, w)
    ensures var m := Rewriter(SuffixSpaced); Sub(m, before, w + tail) == w + Sub(m, before + w, tail)
  {
    var m := Rewriter(SuffixSpaced);
    forall i | 0 <= i < |w| ensures m(before + w[..i], w[i..] + tail).NoMatch? {
      assert InClass(Arabic, w[i]) && (w[i..] + tail)[0] == w[i];
      NoJoiner(before + w[..i], w[i..] + tail);
    }
    Copy(m, before, w, tail);
  }

  lemma {:induction false} SuffixSpacedWord(stems: seq<string>, before: string, w: string, tail: string)
    requires GoodStems(stems) && Proper(Word(w)) && !StartsIn(Arabic, tail)
    ensures var m, x := Rewriter(SuffixSpaced), SplitWord(stems, w);
      Sub(m, before, x + tail) == x + Sub(m, before + x, tail)
  {
    if IsSplit(stems, w) {
      var p := PrefixLength(w);
      assert |w[p..]| >= 2;
      SuffixSpacedSplit(before, w[..p], w[p..], tail);
    } else {
      CopyLetters(before, w, tail);
    }
  }

  lemma {:induction false} SuffixSpacedSplit(before: string, a: string, stem: string, tail: string)
    requires All(Arabic, a) && Proper(Word(stem)) && !StartsIn(Arabic, tail)
    ensures var m, x := Rewriter(SuffixSpaced), a + [ZWNJ] + stem;
      Sub(m, before, x + tail) == x + Sub(m, before + x, tail)
  {
    var b := [ZWNJ] + stem;
    CopyLetters(before, a, b + tail);
    SuffixAfterPrefix(before + a, stem, tail);
    Chain(Rewriter(SuffixSpaced), before, a, b, tail, a, b);
    assert a + [ZWNJ] + stem == a + b;
  }

  /** No match starts at a separator without a suffix after it. */
  lemma {:induction false} SuffixSpacedMiss(stems: seq<string>, before: string, prev: Token, t: Token, g: string,
          rest: seq<Token>)
    requires GoodStems(stems) && t.Sep? && Proper(Sep(g)) && Canonical(t, rest) && Fits(before, prev)
    requires !(SuffixJoin(prev, First(rest)) && AllJoiner(g))
    ensures MatchAt(SuffixSpaced, before, g + Flow(PartedBy(stems), t, rest)).NoMatch?
  {
    var tail := Flow(PartedBy(stems), t, rest);
    PartedHead(stems, t, rest);
    JoinerRun(g, tail);
    var k := Run(Joiner, g);
    if StartsIn(Arabic, (g + tail)[k..]) {
      assert g[k..] + tail == tail;
      SuffixAtWord(stems, t, rest);
    } else {
      SuffixesAreWords();
      AlternativeNeedsLetter(SUFFIXES, (g + tail)[k..]);
    }
  }

  lemma {:induction false} NoMatchInside(before: string, g: string, i: nat, rest: string)
    requires All(Separator, g) && 0 < i <= |g|
    ensures MatchAt(SuffixSpaced, before + g[..i], rest).NoMatch?
  {
    var b := before + g[..i];
    assert b[|b| - 1] == g[i - 1] && InClass(Separator, g[i - 1]);
  }

  lemma {:induction false} SuffixSpacedSep(before: string, g: string, tail: string)
    requires All(Separator, g) && MatchAt(SuffixSpaced, before, g + tail).NoMatch?
    ensures var m := Rewriter(SuffixSpaced); Sub(m, before, g + tail) == g + Sub(m, before + g, tail)
  {
    var m := Rewriter(SuffixSpaced);
    forall i | 0 <= i < |g| ensures m(before + g[..i], g[i..] + tail).NoMatch? {
      if i == 0 {
        assert before + g[..0] == before && g[0..] == g;
      } else {
        NoMatchInside(before, g, i, g[i..] + tail);
      }
    }
    Copy(m, before, g, tail);
  }

  lemma {:induction false} AlternativeNeedsLetter(words: seq<string>, s: string)
    requires ArabicWords(words) && !StartsIn(Arabic, s)
    ensures Alternative(words, s) == ""
  {
    if words != [] {
      AlternativeNeedsLetter(words[1..], s);
      assert InClass(Arabic, words[0][0]);
    }
  }

  /** A suffix at the head of a word is all of that word. */
  lemma {:induction false} SuffixAtWord(stems: seq<string>, prev: Token, ts: seq<Token>)
    requires Canonical(prev, ts) && First(ts).Word?
    ensures var a := Alternative(SUFFIXES, Flow(PartedBy(stems), prev, ts));
      a == if ts[0].text in SUFFIXES then ts[0].text else ""
  {
    PartedHead(stems, ts[0], ts[1..]);
    SuffixAtPiece(stems, ts[0].text, Flow(PartedBy(stems), ts[0], ts[1..]));
  }

  lemma {:induction false} SuffixAtPiece(stems: seq<string>, w: string, tail: string)
    requires Proper(Word(w)) && !StartsIn(Arabic, tail)
    ensures Alternative(SUFFIXES, SplitWord(stems, w) + tail) == if w in SUFFIXES then w else ""
  {
    if IsSplit(stems, w) {
      SuffixAtSplit(stems, w, tail);
    } else {
      SuffixesAreWords();
      AlternativeIsWord(SUFFIXES, w, tail);
    }
  }

  lemma {:induction false} SuffixAtSplit(stems: seq<string>, w: string, tail: string)
    requires Proper(Word(w)) && IsSplit(stems, w)
    ensures Alternative(SUFFIXES, SplitWord(stems, w) + tail) == "" && w !in SUFFIXES
  {
    var p := PrefixLength(w);
    var rest := [ZWNJ] + (w[p..] + tail);
    SuffixAtPrefix(w, rest);
    Text.Assoc(w[..p] + [ZWNJ], w[p..], tail);
    Text.Assoc(w[..p], [ZWNJ], w[p..] + tail);
  }

  lemma {:induction false} SuffixAtPrefix(w: string, tail: string)
    requires Proper(Word(w)) && PrefixLength(w) > 0 && !StartsIn(Arabic, tail)
    ensures Alternative(SUFFIXES, w[..PrefixLength(w)] + tail) == ""
    ensures w !in SUFFIXES
  {
    var head := w[..PrefixLength(w)];
    SuffixesAreWords();
    SuffixesHaveNoPrefix();
    WholePrefix(head);
    AlternativeIsWord(SUFFIXES, head, tail);
  }

  lemma {:induction false} SuffixSpacedMatch(before: string, x: string, v: string, tail: string)
    requires All(Joiner, x) && x != "" && EndsInTwoArabic(before)
    requires StartsIn(Arabic, v + tail) && Alternative(SUFFIXES, v + tail) == v && v != ""
    ensures MatchAt(SuffixSpaced, before, x + v + tail) == Match(|x + v|, [ZWNJ] + v)
  {
    RunOver(Joiner, x, v + tail);
    assert x + v + tail == x + (v + tail);
  }

  lemma {:induction false} SuffixSpacedHit(stems: seq<string>, before: string, prev: Token, x: string, ts: seq<Token>)
    requires GoodStems(stems) && All(Joiner, x) && x != "" && EndsInTwoArabic(before)
    requires Canonical(prev, ts) && First(ts).Word? && ts[0].text in SUFFIXES
    ensures var m, p := Rewriter(SuffixSpaced), PartedBy(stems);
      Sub(m, before, x + Flow(p, prev, ts))
      == [ZWNJ] + (ts[0].text + Sub(m, before + x + ts[0].text, Flow(p, ts[0], ts[1..])))
  {
    var m, p, v := Rewriter(SuffixSpaced), PartedBy(stems), ts[0].text;
    var tail := Flow(p, ts[0], ts[1..]);
    SuffixesHaveNoPrefix();
    assert Flow(p, prev, ts) == v + tail;
    PartedHead(stems, prev, ts);
    SuffixAtWord(stems, prev, ts);
    SuffixSpacedMatch(before, x, v, tail);
    HitPair(m, before, x, v, tail, [ZWNJ], v);
  }

  lemma {:induction false} SuffixSpacedCopy(stems: seq<string>, before: string, prev: Token, t: Token, rest: seq<Token>)
    requires GoodStems(stems) && Proper(t) && Canonical(t, rest) && Apart(prev, t) && Fits(before, prev)
    requires t.Sep? ==> !(SuffixJoin(prev, First(rest)) && AllJoiner(t.text))
    ensures var m, p := Rewriter(SuffixSpaced), PartedBy(stems);
      var x, tail := p(prev, t, First(rest)), Flow(p, t, rest);
      Sub(m, before, x + tail) == x + Sub(m, before + x, tail)
  {
    var m, p := Rewriter(SuffixSpaced), PartedBy(stems);
    var x, tail := p(prev, t, First(rest)), Flow(p, t, rest);
    PartedHead(stems, t, rest);
    match t
    case Word(w) => SuffixSpacedWord(stems, before, w, tail);
    case Other(c) =>
      NoJoiner(before, x + tail);
      assert before + x[..0] == before && x[0..] == x;
      Copy(m, before, x, tail);
    case Sep(g) =>
      PrefixedSep(prev, g, First(rest));
      SuffixSpacedMiss(stems, before, prev, t, x, rest);
      SuffixSpacedSep(before, x, tail);
  }

  lemma {:induction false} PrefixedSep(prev: Token, g: string, next: Token)
    requires Proper(Sep(g))
    ensures Proper(Sep(Prefixed(prev, Sep(g), next)))
    ensures AllJoiner(Prefixed(prev, Sep(g), next)) ==> AllJoiner(g)
  {
  }

  lemma {:induction false} SuffixJoined(stems: seq<string>, prev: Token, ts: seq<Token>)
    requires SuffixAhead(prev, ts) && Proper(ts[0])
    ensures var g, v, x := ts[0], ts[1], Prefixed(prev, ts[0], First(ts[1..]));
      && All(Joiner, x) && x != ""
      && Flow(PartedBy(stems), prev, ts) == x + Flow(PartedBy(stems), g, ts[1..])
      && Flow(SuffixedBy(stems), prev, ts) == [ZWNJ] + (v.text + Flow(SuffixedBy(stems), v, ts[2..]))
  {
    AllJoinerClass(ts[0].text);
    var v, rest := ts[1], ts[1..];
    assert rest[0] == v && rest[1..] == ts[2..];
    FlowWithStep(stems, Joined, prev, ts);
    FlowWithStep(stems, Joined, ts[0], rest);
    assert SplitWord(stems, v.text) == v.text by { SuffixesHaveNoPrefix(); }
  }

  lemma {:induction false} FlowWithStep(stems: seq<string>, gap: Gaps, prev: Token, ts: seq<Token>)
    requires ts != []
    ensures var t, rest := ts[0], ts[1..];
      Flow(With(stems, gap), prev, ts)
      == (if t.Sep? then gap(prev, t.text, First(rest)) else Body(stems, t)) + Flow(With(stems, gap), t, rest)
  {
  }

  predicate SuffixAhead(prev: Token, ts: seq<Token>) {
    ts != [] && ts[0].Sep? && SuffixJoin(prev, First(ts[1..])) && AllJoiner(ts[0].text)
  }

  lemma {:induction false} SuffixSpacedJoined(stems: seq<string>, before: string, prev: Token, ts: seq<Token>)
    requires GoodStems(stems) && Canonical(prev, ts) && SuffixAhead(prev, ts) && Fits(before, prev)
    requires var m, x, v := Rewriter(SuffixSpaced), Prefixed(prev, ts[0], First(ts[1..])), ts[1];
      Sub(m, before + x + v.text, Flow(PartedBy(stems), v, ts[2..])) == Flow(SuffixedBy(stems), v, ts[2..])
    ensures Sub(Rewriter(SuffixSpaced), before, Flow(PartedBy(stems), prev, ts)) == Flow(SuffixedBy(stems), prev, ts)
  {
    var x := Prefixed(prev, ts[0], First(ts[1..]));
    SuffixJoined(stems, prev, ts);
    SuffixSpacedHit(stems, before, ts[0], x, ts[1..]);
    assert ts[1..][1..] == ts[2..];
  }

  lemma {:induction false} SuffixSpacedPlain(stems: seq<string>, before: string, prev: Token, ts: seq<Token>)
    requires GoodStems(stems) && Canonical(prev, ts) && ts != [] && !SuffixAhead(prev, ts) && Fits(before, prev)
    requires var m, x := Rewriter(SuffixSpaced), Parted(stems, prev, ts[0], First(ts[1..]));
      Sub(m, before + x, Flow(PartedBy(stems), ts[0], ts[1..])) == Flow(SuffixedBy(stems), ts[0], ts[1..])
    ensures Sub(Rewriter(SuffixSpaced), before, Flow(PartedBy(stems), prev, ts)) == Flow(SuffixedBy(stems), prev, ts)
  {
    FlowWithStep(stems, Joined, prev, ts);
    assert Parted(stems, prev, ts[0], First(ts[1..]))
        == if ts[0].Sep? then Joined(prev, ts[0].text, First(ts[1..])) else Body(stems, ts[0]);
    SuffixSpacedCopy(stems, before, prev, ts[0], ts[1..]);
  }

  lemma {:induction false} SuffixSpacedPass(stems: seq<string>, before: string, prev: Token, ts: seq<Token>)
    requires GoodStems(stems) && Canonical(prev, ts) && Fits(before, prev)
    ensures Sub(Rewriter(SuffixSpaced), before, Flow(PartedBy(stems), prev, ts)) == Flow(SuffixedBy(stems), prev, ts)
    decreases |ts|
  {
    if ts != [] {
      var t, rest := ts[0], ts[1..];
      var x := Parted(stems, prev, t, First(rest));
      FitsParted(stems, before, prev, t, First(rest));
      if SuffixAhead(prev, ts) {
        FitsWord(before + x, t, ts[1].text);
        SuffixSpacedPass(stems, before + x + ts[1].text, ts[1], ts[2..]);
        SuffixSpacedJoined(stems, before, prev, ts);
      } else {
        SuffixSpacedPass(stems, before + x, t, rest);
        SuffixSpacedPlain(stems, before, prev, ts);
      }
    }
  }

  lemma {:induction false} FitsParted(stems: seq<string>, before: string, prev: Token, t: Token, next: Token)
    requires GoodStems(stems) && Proper(t) && Apart(prev, t) && Fits(before, prev)
    ensures Fits(before + Parted(stems, prev, t, next), t)
  {
    var x := Parted(stems, prev, t, next);
    match t
    case Word(w) =>
      if IsSplit(stems, w) {
        var stem := w[PrefixLength(w)..];
        assert |stem| >= 2;
        var s := before + x;
        assert s[|s| - 1] == stem[|stem| - 1] && s[|s| - 2] == stem[|stem| - 2];
      } else {
        FitsWord(before, prev, w);
      }
    case Sep(g) =>
      PrefixedSep(prev, g, next);
      assert InClass(Separator, x[|x| - 1]);
      FitsRest(before, t, x);
    case Other(c) => FitsRest(before, t, x);
  }
}
