/** The passes that clean separators: runs of half-spaces, half-spaces at the edge
    of a word, runs of blanks, blank lines, and stripping. */
module Spacing {
  import opened Text
  import opened Rewriting
  import opened Tokens
  import opened Stages

  /** The text without its half-spaces. */
  function Visible(s: string): string {
    if s == "" then "" else (if s[0] == ZWNJ then "" else [s[0]]) + Visible(s[1..])
  }

  function NewlinesOf(s: string): string {
    if s == "" then "" else (if s[0] == '\n' then "\n" else "") + NewlinesOf(s[1..])
  }

  /** `text.replace("\t", " ")`. */
  function Untab(s: string): string {
    if s == "" then "" else [if s[0] == '\t' then ' ' else s[0]] + Untab(s[1..])
  }

  function StripEach(lines: seq<string>): (r: seq<string>)
    ensures |r| == |lines|
  {
    if lines == [] then [] else [Strip(lines[0])] + StripEach(lines[1..])
  }

  /** `"\n".join(line.strip() for line in text.split("\n"))`. */
  function StripLines(s: string): string {
    Join("\n", StripEach(Split(s)))
  }

  // ---- passes over runs --------------------------------------------------

  /** A pass over runs of one class acts on both sides of a boundary separately,
      as long as no run crosses it. */
  lemma {:induction false} LocalSub(k: Class, least: nat, r: string, before: string, b2: string, x: string,
          tail: string)
    requires !(EndsIn(k, x) && StartsIn(k, tail))
    ensures var m := Rewriter(Runs(k, least, r));
      Sub(m, before, x + tail) == Sub(m, b2, x) + Sub(m, before + x, tail)
    decreases |x|
  {
    var m := Rewriter(Runs(k, least, r));
    if x == "" {
      Unit(tail);
      Unit(before);
    } else {
      var y, z, r' := LocalStep(k, least, r, before, b2, x, tail);
      LocalSub(k, least, r, before + y, b2 + y, z, tail);
      Assoc(before, y, z);
      Assoc(r', Sub(m, b2 + y, z), Sub(m, before + x, tail));
      Unit(Sub(m, before + x, tail));
    }
  }

  /** The match of such a pass does not depend on where the text ends. */
  lemma {:induction false} RunMatch(k: Class, least: nat, r: string, before: string, x: string, tail: string)
    returns (hit: Match)
    requires x != "" && !(EndsIn(k, x) && StartsIn(k, tail))
    ensures hit == RunAt(k, least, r, x) && (hit.Match? ==> 0 < hit.len <= |x|)
    ensures Rewriter(Runs(k, least, r))(before, x + tail) == hit
  {
    RunAcross(k, x, tail);
    hit := RunAt(k, least, r, x);
  }

  /** One step of a scan that consumes part of `x`. */
  lemma {:induction false} ScanStep(m: Matcher, before: string, x: string, tail: string)
    returns (y: string, z: string, r: string)
    requires x != ""
    requires var hit := m(before, x + tail); hit.Match? ==> 0 < hit.len <= |x|
    ensures x == y + z && y != ""
    ensures m(before, x + tail).NoMatch? ==> y == x[..1] && r == x[..1]
    ensures m(before, x + tail).Match? ==> y == x[..m(before, x + tail).len] && r == m(before, x + tail).replacement
    ensures Sub(m, before, x + tail) == r + Sub(m, before + y, z + tail)
  {
    var hit := m(before, x + tail);
    var n := if hit.Match? then hit.len else 1;
    y, z := x[..n], x[n..];
    assert y + (z + tail) == x + tail;
    match hit
    case Match(_, replacement) =>
      r := replacement;
      Hit(m, before, y, z + tail, r);
    case NoMatch =>
      r := y;
      CopyOne(m, before, y, z + tail);
  }

  lemma {:induction false} SameStep(m: Matcher, before: string, b2: string, x: string, tail: string)
    returns (y: string, z: string, r: string)
    requires x != "" && m(before, x + tail) == m(b2, x + "")
    requires var hit := m(b2, x + ""); hit.Match? ==> 0 < hit.len <= |x|
    ensures x == y + z && y != ""
    ensures Sub(m, before, x + tail) == r + Sub(m, before + y, z + tail)
    ensures Sub(m, b2, x) == r + Sub(m, b2 + y, z)
    ensures m(b2, x + "") == if y == r == x[..1] && m(b2, x + "").NoMatch? then NoMatch else Match(|y|, r)
  {
    y, z, r := ScanStep(m, before, x, tail);
    var y', z', r' := ScanStep(m, b2, x, "");
    assert y == y' && z == x[|y|..] == z' && x + "" == x && z + "" == z;
  }

  lemma {:induction false} LocalStep(k: Class, least: nat, r: string, before: string, b2: string, x: string,
          tail: string)
    returns (y: string, z: string, r': string)
    requires x != "" && !(EndsIn(k, x) && StartsIn(k, tail))
    ensures x == y + z && y != ""
    ensures Sub(Rewriter(Runs(k, least, r)), before, x + tail)
         == r' + Sub(Rewriter(Runs(k, least, r)), before + y, z + tail)
    ensures Sub(Rewriter(Runs(k, least, r)), b2, x) == r' + Sub(Rewriter(Runs(k, least, r)), b2 + y, z)
    ensures (r' == y && |y| == 1) || r' == r
  {
    var _ := RunMatch(k, least, r, before, x, tail);
    var _ := RunMatch(k, least, r, b2, x, "");
    y, z, r' := SameStep(Rewriter(Runs(k, least, r)), before, b2, x, tail);
  }

  lemma {:induction false} RunAcross(k: Class, x: string, tail: string)
    requires x != "" && !(EndsIn(k, x) && StartsIn(k, tail))
    ensures Run(k, x + tail) == Run(k, x)
  {
    var n := Run(k, x);
    assert x + tail == x[..n] + (x[n..] + tail);
    if n < |x| { assert (x[n..] + tail)[0] == x[n]; } else { assert x[..n] == x && x[n..] + tail == tail; }
    RunOver(k, x[..n], x[n..] + tail);
  }

  // ---- the gap after each pass -------------------------------------------

  function Squeezed(prev: Token, g: string, next: Token): string {
    Apply(HALF_SPACE_RUN, Joined(prev, g, next))
  }

  function Edged(prev: Token, g: string, next: Token): string {
    var x := Squeezed(prev, g, next);
    if x == [ZWNJ] && prev.Word? && next.Word? then x else Visible(x)
  }

  function Spaced(prev: Token, g: string, next: Token): string {
    Apply(SPACES, Edged(prev, g, next))
  }

  function Collapsed(prev: Token, g: string, next: Token): string {
    Apply(BLANK_LINES, Spaced(prev, g, next))
  }

  function LineStripped(prev: Token, g: string, next: Token): string {
    var x := Collapsed(prev, g, next);
    if prev.Edge? || next.Edge? || '\n' in x then NewlinesOf(x) else x
  }

  /** What a separator becomes in the end, between its two neighbours. */
  function Settled(prev: Token, g: string, next: Token): string {
    if prev.Edge? || next.Edge? then "" else LineStripped(prev, g, next)
  }

  // ---- run passes over the flow ------------------------------------------

  ghost predicate Spares(k: Class, least: nat) {
    k == Inline || k == Newline || (k == HalfSpace && least >= 2)
  }

  lemma {:induction false} BodyFacts(stems: seq<string>, t: Token)
    requires GoodStems(stems) && Proper(t) && !t.Sep?
    ensures var x := Body(stems, t);
      && x != "" && !StartsIn(Separator, x) && !EndsIn(Separator, x)
      && (StartsIn(Arabic, x) <==> t.Word?) && (EndsIn(Arabic, x) <==> t.Word?)
  {
    var x := Body(stems, t);
    if t.Word? {
      if IsSplit(stems, t.text) { assert |t.text[PrefixLength(t.text)..]| >= 2; }
      assert InClass(Arabic, t.text[0]) && InClass(Arabic, t.text[|t.text| - 1]);
      assert x[0] == t.text[0] && x[|x| - 1] == t.text[|t.text| - 1];
    }
  }

  /** The only separator inside such a piece is a half-space between two letters. */
  lemma {:induction false} BodyInside(stems: seq<string>, t: Token)
    requires GoodStems(stems) && Proper(t) && !t.Sep?
    ensures Held(Body(stems, t))
  {
    match t
    case Word(w) =>
      if IsSplit(stems, w) { SplitInside(stems, w); } else { WordInside(w); }
    case _ =>
  }

  lemma {:induction false} SplitInside(stems: seq<string>, w: string)
    requires GoodStems(stems) && Proper(Word(w)) && IsSplit(stems, w)
    ensures Held(SplitWord(stems, w))
  {
    var p := PrefixLength(w);
    assert w[p..] in stems;
    AllParts(Arabic, w[..p], w[p..]);
    assert w[..p] + w[p..] == w;
    HeldAround(w[..p], w[p..]);
  }

  lemma {:induction false} WordInside(w: string)
    requires All(Arabic, w)
    ensures Held(w)
  {
    assert forall i | 0 <= i < |w| :: InClass(Arabic, w[i]);
  }

  lemma {:induction false} HeldAround(a: string, b: string)
    requires a != "" && b != "" && All(Arabic, a) && All(Arabic, b)
    ensures Held(a + [ZWNJ] + b)
  {
    var x := a + [ZWNJ] + b;
    forall i | 0 <= i < |x| && i != |a| ensures IsArabic(x[i]) {
      if i < |a| { assert InClass(Arabic, a[i]); } else { assert InClass(Arabic, b[i - |a| - 1]); }
    }
  }

  /** Every separator of `x` is a half-space between two letters. */
  ghost predicate Held(x: string) {
    forall i | 0 <= i < |x| && InClass(Separator, x[i]) ::
      x[i] == ZWNJ && 0 < i < |x| - 1 && IsArabic(x[i - 1]) && IsArabic(x[i + 1])
  }

  /** A pass over runs finds none in a word or another character. */
  lemma {:induction false} NoRun(k: Class, least: nat, r: string, before: string, x: string)
    requires Spares(k, least)
    requires Held(x)
    ensures Sub(Rewriter(Runs(k, least, r)), before, x) == x
  {
    var m := Rewriter(Runs(k, least, r));
    forall i | 0 <= i < |x| ensures m(before + x[..i], x[i..] + "").NoMatch? {
      var s := x[i..] + "";
      assert s == x[i..];
      if InClass(k, s[0]) {
        assert s[1..] == x[i + 1..];
        assert InClass(k, x[i]) ==> InClass(Separator, x[i]);
        assert Run(k, s[1..]) == 0;
      }
    }
    Copy(m, before, x, "");
    assert x + "" == x && Sub(m, before + x, "") == "";
  }

  /** After a separator comes a word, another character, or nothing. */
  lemma {:induction false} AfterSep(stems: seq<string>, gap: Gaps, t: Token, ts: seq<Token>)
    requires GoodStems(stems) && t.Sep? && Canonical(t, ts)
    ensures var s := Flow(With(stems, gap), t, ts);
      && !StartsIn(Separator, s) && (ts == [] <==> s == "") && (First(ts).Word? <==> StartsIn(Arabic, s))
  {
    if ts != [] { BodyFacts(stems, ts[0]); }
  }

  lemma {:induction false} RunPassStep(k: Class, least: nat, r: string, stems: seq<string>, gap: Gaps,
          before: string, prev: Token, ts: seq<Token>)
    requires GoodStems(stems) && Spares(k, least) && Canonical(prev, ts) && ts != []
    ensures var m, p := Rewriter(Runs(k, least, r)), With(stems, gap);
      var x := p(prev, ts[0], First(ts[1..]));
      var x' := if ts[0].Sep? then Apply(Runs(k, least, r), x) else x;
      Sub(m, before, Flow(p, prev, ts)) == x' + Sub(m, before + x, Flow(p, ts[0], ts[1..]))
  {
    var m, p, t, rest := Rewriter(Runs(k, least, r)), With(stems, gap), ts[0], ts[1..];
    var x, tail := p(prev, t, First(rest)), Flow(p, t, rest);
    if t.Sep? {
      AfterSep(stems, gap, t, rest);
      assert StartsIn(k, tail) ==> StartsIn(Separator, tail);
      LocalSub(k, least, r, before, "", x, tail);
    } else {
      BodyFacts(stems, t);
      assert EndsIn(k, x) ==> EndsIn(Separator, x);
      LocalSub(k, least, r, before, before, x, tail);
      BodyInside(stems, t);
      NoRun(k, least, r, before, x);
    }
  }

  lemma {:induction false} RunPass(k: Class, least: nat, r: string, stems: seq<string>, gap: Gaps, gap': Gaps,
          before: string, prev: Token, ts: seq<Token>)
    requires GoodStems(stems) && Spares(k, least) && Canonical(prev, ts)
    requires forall a, g, b :: gap'(a, g, b) == Apply(Runs(k, least, r), gap(a, g, b))
    ensures Sub(Rewriter(Runs(k, least, r)), before, Flow(With(stems, gap), prev, ts))
         == Flow(With(stems, gap'), prev, ts)
    decreases |ts|
  {
    if ts != [] {
      var x := With(stems, gap)(prev, ts[0], First(ts[1..]));
      RunPassStep(k, least, r, stems, gap, before, prev, ts);
      RunPass(k, least, r, stems, gap, gap', before + x, ts[0], ts[1..]);
    }
  }
}
