/** Stripping every line, and then the whole text, at the level of tokens. */
module Lines {
  import opened Text
  import opened Rewriting
  import opened Tokens
  import opened Stages
  import opened Spacing
  import Edges

  // ---- stripping lines is a scan -----------------------------------------

  ghost predicate AtLineStart(before: string) { before == "" || EndsIn(Newline, before) }

  ghost predicate AtLineEnd(rest: string) { rest == "" || rest[0] == '\n' }

  lemma {:induction false} BlankRun(before: string, x: string, tail: string)
    requires All(Inline, x) && x != "" && !StartsIn(Inline, tail)
    requires AtLineStart(before) || AtLineEnd(tail)
    ensures var m := Rewriter(LineEdges); Sub(m, before, x + tail) == Sub(m, before + x, tail)
  {
    RunOver(Inline, x, tail);
    Hit(Rewriter(LineEdges), before, x, tail, "");
  }

  /** The trimmed middle of a line is copied. */
  lemma {:induction false} CopyMiddle(before: string, mid: string, tail: string)
    requires OneLine(mid) && mid != "" && !IsSpace(mid[0]) && !IsSpace(mid[|mid| - 1])
    ensures var m := Rewriter(LineEdges); Sub(m, before, mid + tail) == mid + Sub(m, before + mid, tail)
  {
    var m := Rewriter(LineEdges);
    forall i | 0 <= i < |mid| ensures m(before + mid[..i], mid[i..] + tail).NoMatch? {
      MiddleAt(before, mid, tail, i);
    }
    Copy(m, before, mid, tail);
  }

  lemma {:induction false} MiddleAt(before: string, mid: string, tail: string, i: nat)
    requires OneLine(mid) && mid != "" && !IsSpace(mid[0]) && !IsSpace(mid[|mid| - 1]) && i < |mid|
    ensures LineEdgeAt(before + mid[..i], mid[i..] + tail).NoMatch?
  {
    var b, r := before + mid[..i], mid[i..] + tail;
    var k := Run(Inline, r);
    assert r[|mid| - 1 - i] == mid[|mid| - 1];
    RunStops(Inline, r, |mid| - 1 - i);
    assert r[k] == mid[i + k];
    if i == 0 {
      assert r[0] == mid[0];
    } else {
      assert b[|b| - 1] == mid[i - 1];
    }
  }

  lemma {:induction false} InlineBlank(a: string)
    requires Blank(a) && OneLine(a)
    ensures All(Inline, a)
  {
  }

  lemma {:induction false} LineParts(line: string) returns (a: string, b: string)
    requires OneLine(line)
    ensures line == a + Strip(line) + b && All(Inline, a) && All(Inline, b) && OneLine(Strip(line))
        && Trimmed(Strip(line))
  {
    a, b := StripParts(line);
    var mid := Strip(line);
    assert forall i | 0 <= i < |a| :: a[i] == line[i];
    assert forall i | 0 <= i < |mid| :: mid[i] == line[|a| + i];
    assert forall i | 0 <= i < |b| :: b[i] == line[|a + mid| + i];
    InlineBlank(a);
    InlineBlank(b);
  }

  lemma {:induction false} StripLine(before: string, line: string, tail: string)
    requires OneLine(line) && AtLineStart(before) && AtLineEnd(tail)
    ensures var m := Rewriter(LineEdges); Sub(m, before, line + tail) == Strip(line) + Sub(m, before + line, tail)
  {
    var a, b := LineParts(line);
    if Strip(line) == "" {
      AllParts(Inline, a, b);
      assert line == a + b;
      MaybeRun(before, line, tail);
    } else {
      ThreeSteps(before, a, Strip(line), b, tail);
    }
  }

  lemma {:induction false} ThreeSteps(before: string, a: string, mid: string, b: string, tail: string)
    requires All(Inline, a) && All(Inline, b) && OneLine(mid) && AtLineStart(before) && AtLineEnd(tail)
    requires mid != "" && !IsSpace(mid[0]) && !IsSpace(mid[|mid| - 1])
    ensures var m, line := Rewriter(LineEdges), a + mid + b;
      Sub(m, before, line + tail) == mid + Sub(m, before + line, tail)
  {
    var m := Rewriter(LineEdges);
    MaybeRun(before, a, mid + (b + tail));
    CopyMiddle(before + a, mid, b + tail);
    Chain(m, before, a, mid, b + tail, "", mid);
    MaybeRun(before + (a + mid), b, tail);
    Chain(m, before, a + mid, b, tail, "" + mid, "");
    assert "" + mid + "" == mid;
  }

  lemma {:induction false} MaybeRun(before: string, x: string, tail: string)
    requires All(Inline, x) && !StartsIn(Inline, tail) && (AtLineStart(before) || AtLineEnd(tail))
    ensures var m := Rewriter(LineEdges); Sub(m, before, x + tail) == "" + Sub(m, before + x, tail)
  {
    if x == "" {
      assert x + tail == tail && before + x == before;
    } else {
      BlankRun(before, x, tail);
    }
  }

  lemma {:induction false} StripJoin(before: string, lines: seq<string>)
    requires OneLiners(lines) && lines != [] && AtLineStart(before)
    ensures Sub(Rewriter(LineEdges), before, Join("\n", lines)) == Join("\n", StripEach(lines))
    decreases |lines|
  {
    var m, line := Rewriter(LineEdges), lines[0];
    if |lines| == 1 {
      StripLine(before, line, "");
      assert line + "" == line && Sub(m, before + line, "") == "";
    } else {
      StripFirst(before, line, Join("\n", lines[1..]));
      StripJoin(before + (line + "\n"), lines[1..]);
      assert StripEach(lines)[1..] == StripEach(lines[1..]);
    }
  }

  lemma {:induction false} StripFirst(before: string, line: string, rest: string)
    requires OneLine(line) && AtLineStart(before)
    ensures var m := Rewriter(LineEdges);
      Sub(m, before, line + "\n" + rest) == Strip(line) + "\n" + Sub(m, before + (line + "\n"), rest)
  {
    var m := Rewriter(LineEdges);
    StripLine(before, line, "\n" + rest);
    CopyOne(m, before + line, "\n", rest);
    Chain(m, before, line, "\n", rest, Strip(line), "\n");
  }

  /** `LineEdges` is what its name says. */
  lemma {:induction false} LineEdgesStripLines(s: string)
    ensures Apply(LineEdges, s) == StripLines(s)
  {
    JoinSplit(s);
    StripJoin("", Split(s));
  }

  // ---- what a gap holds before the lines are stripped --------------------

  lemma {:induction false} VisibleIsSpace(x: string)
    requires All(Separator, x)
    ensures All(Space, Visible(x))
  {
    if x != "" {
      AllParts(Separator, x[..1], x[1..]);
      assert x == x[..1] + x[1..] && InClass(Separator, x[0]);
      VisibleIsSpace(x[1..]);
    }
  }

  lemma {:induction false} HalfSpaceStays(k: Class, least: nat, r: string)
    requires k == Inline || k == Newline
    ensures Apply(Runs(k, least, r), [ZWNJ]) == [ZWNJ]
  {
    var m := Rewriter(Runs(k, least, r));
    assert [ZWNJ] + "" == [ZWNJ];
    CopyOne(m, "", [ZWNJ], "");
  }

  /** A single half-space between words, or white space only. */
  ghost predicate Shaped(prev: Token, x: string, next: Token) {
    (x == [ZWNJ] && prev.Word? && next.Word?) || All(Space, x)
  }

  lemma {:induction false} CollapsedShape(prev: Token, g: string, next: Token)
    requires Proper(Sep(g))
    ensures Shaped(prev, Collapsed(prev, g, next), next)
  {
    Edges.SqueezedIsSeparator(prev, g, next);
    var x := Edged(prev, g, next);
    if x == [ZWNJ] && prev.Word? && next.Word? {
      HalfSpaceStays(Inline, 1, " ");
      HalfSpaceStays(Newline, 3, "\n\n");
    } else {
      VisibleIsSpace(Squeezed(prev, g, next));
      Edges.RunsKeepClass(Space, Inline, 1, " ", "", x);
      Edges.RunsKeepClass(Space, Newline, 3, "\n\n", "", Spaced(prev, g, next));
    }
  }

  // ---- the scan over the flow --------------------------------------------

  lemma {:induction false} NewlinesOfConcat(a: string, b: string)
    ensures NewlinesOf(a + b) == NewlinesOf(a) + NewlinesOf(b)
  {
    if a == "" {
      assert a + b == b;
    } else {
      var h := if a[0] == '\n' then "\n" else "";
      assert (a + b)[1..] == a[1..] + b;
      NewlinesOfConcat(a[1..], b);
      Assoc(h, NewlinesOf(a[1..]), NewlinesOf(b));
    }
  }

  lemma {:induction false} InlineHasNoNewline(x: string)
    requires All(Inline, x)
    ensures NewlinesOf(x) == ""
  {
    if x != "" {
      assert x == x[..1] + x[1..] && InClass(Inline, x[0]);
      AllParts(Inline, x[..1], x[1..]);
      InlineHasNoNewline(x[1..]);
    }
  }

  /** White space that meets the end of a line or of the text keeps only its newlines. */
  lemma {:induction false} DropBlanks(before: string, x: string, tail: string)
    requires All(Space, x) && !StartsIn(Separator, tail)
    requires AtLineStart(before) || '\n' in x || tail == ""
    ensures var m := Rewriter(LineEdges); Sub(m, before, x + tail) == NewlinesOf(x) + Sub(m, before + x, tail)
    decreases |x|
  {
    if Run(Inline, x) == |x| {
      assert x[..|x|] == x;
      assert forall i | 0 <= i < |x| :: InClass(Inline, x[i]);
      InlineHasNoNewline(x);
      MaybeRun(before, x, tail);
    } else {
      var a, z := FirstLine(x);
      DropToNewline(before, a, z + tail);
      assert AtLineStart(before + (a + "\n"));
      DropBlanks(before + (a + "\n"), z, tail);
      Chain(Rewriter(LineEdges), before, a + "\n", z, tail, "\n", NewlinesOf(z));
    }
  }

  lemma {:induction false} FirstLine(x: string) returns (a: string, z: string)
    requires All(Space, x) && Run(Inline, x) < |x|
    ensures x == a + "\n" + z && All(Inline, a) && All(Space, z) && NewlinesOf(x) == "\n" + NewlinesOf(z)
  {
    var n := Run(Inline, x);
    a, z := x[..n], x[n + 1..];
    assert InClass(Space, x[n]) && x[n] == '\n';
    assert x == a + "\n" + z && a + "\n" + z == a + ("\n" + z);
    AllParts(Space, a + "\n", z);
    InlineHasNoNewline(a);
    NewlinesOfConcat(a, "\n" + z);
    assert ("\n" + z)[1..] == z;
  }

  lemma {:induction false} DropToNewline(before: string, a: string, rest: string)
    requires All(Inline, a)
    ensures var m := Rewriter(LineEdges); Sub(m, before, a + "\n" + rest) == "\n" + Sub(m, before + (a + "\n"), rest)
  {
    var m := Rewriter(LineEdges);
    MaybeRun(before, a, "\n" + rest);
    CopyOne(m, before + a, "\n", rest);
    Chain(m, before, a, "\n", rest, "", "\n");
    assert "" + "\n" == "\n";
  }

  /** White space within a line, between other characters, is copied. */
  lemma {:induction false} KeepBlanks(before: string, x: string, tail: string)
    requires All(Inline, x) && before != "" && !EndsIn(Newline, before) && tail != "" && !StartsIn(Separator, tail)
    ensures var m := Rewriter(LineEdges); Sub(m, before, x + tail) == x + Sub(m, before + x, tail)
  {
    var m := Rewriter(LineEdges);
    forall i | 0 <= i < |x| ensures m(before + x[..i], x[i..] + tail).NoMatch? {
      KeepBlankAt(before, x, tail, i);
    }
    Copy(m, before, x, tail);
  }

  lemma {:induction false} KeepBlankAt(before: string, x: string, tail: string, i: nat)
    requires All(Inline, x) && before != "" && !EndsIn(Newline, before) && tail != "" && !StartsIn(Separator, tail)
    requires i < |x|
    ensures LineEdgeAt(before + x[..i], x[i..] + tail).NoMatch?
  {
    var b, y := before + x[..i], x[i..];
    assert x == x[..i] + y;
    AllParts(Inline, x[..i], y);
    assert Run(Inline, y + tail) == |y| && (y + tail)[|y|] == tail[0] by { RunOver(Inline, y, tail); }
    assert b[|b| - 1] == if i == 0 then before[|before| - 1] else x[i - 1];
    assert i > 0 ==> InClass(Inline, x[i - 1]);
  }

  lemma {:induction false} KeepBody(stems: seq<string>, before: string, t: Token, tail: string)
    requires GoodStems(stems) && Proper(t) && !t.Sep?
    ensures var m, x := Rewriter(LineEdges), Body(stems, t);
      && Sub(m, before, x + tail) == x + Sub(m, before + x, tail)
      && before + x != "" && !EndsIn(Newline, before + x)
  {
    var x := Body(stems, t);
    BodyFacts(stems, t);
    BodyInside(stems, t);
    CopyHeld(before, x, tail);
    assert (before + x)[|before + x| - 1] == x[|x| - 1];
    assert !InClass(Separator, x[|x| - 1]);
  }

  lemma {:induction false} CopyHeld(before: string, x: string, tail: string)
    requires Held(x)
    ensures var m := Rewriter(LineEdges); Sub(m, before, x + tail) == x + Sub(m, before + x, tail)
  {
    var m := Rewriter(LineEdges);
    forall i | 0 <= i < |x| ensures m(before + x[..i], x[i..] + tail).NoMatch? {
      assert (x[i..] + tail)[0] == x[i];
      assert InClass(Inline, x[i]) ==> InClass(Separator, x[i]);
      NoBlankHere(before + x[..i], x[i..] + tail);
    }
    Copy(m, before, x, tail);
  }

  lemma {:induction false} NoBlankHere(b: string, r: string)
    requires !StartsIn(Inline, r)
    ensures LineEdgeAt(b, r).NoMatch?
  {
  }

  lemma {:induction false} KeepHalfSpace(before: string, tail: string)
    ensures var m := Rewriter(LineEdges); Sub(m, before, [ZWNJ] + tail) == [ZWNJ] + Sub(m, before + [ZWNJ], tail)
  {
    NoBlankHere(before, [ZWNJ] + tail);
    CopyOne(Rewriter(LineEdges), before, [ZWNJ], tail);
  }

  lemma {:induction false} KeepGap(before: string, prev: Token, g: string, next: Token, tail: string)
    requires Proper(Sep(g)) && !prev.Sep? && !StartsIn(Separator, tail) && (tail == "" <==> next.Edge?)
    requires if prev.Edge? then before == "" else before != "" && !EndsIn(Newline, before)
    ensures var m, x := Rewriter(LineEdges), Collapsed(prev, g, next);
      Sub(m, before, x + tail) == LineStripped(prev, g, next) + Sub(m, before + x, tail)
  {
    var m, x := Rewriter(LineEdges), Collapsed(prev, g, next);
    CollapsedShape(prev, g, next);
    if x == [ZWNJ] {
      KeepHalfSpace(before, tail);
    } else if prev.Edge? || next.Edge? || '\n' in x {
      DropBlanks(before, x, tail);
    } else {
      assert forall i | 0 <= i < |x| :: InClass(Space, x[i]);
      KeepBlanks(before, x, tail);
    }
  }

  lemma {:induction false} LineEdgePass(stems: seq<string>, before: string, prev: Token, ts: seq<Token>)
    requires GoodStems(stems) && Canonical(prev, ts)
    requires prev.Edge? ==> before == ""
    requires prev.Word? || prev.Other? ==> before != "" && !EndsIn(Newline, before)
    ensures Sub(Rewriter(LineEdges), before, Flow(With(stems, Collapsed), prev, ts))
         == Flow(With(stems, LineStripped), prev, ts)
    decreases |ts|
  {
    if ts != [] {
      var t, rest := ts[0], ts[1..];
      var tail := Flow(With(stems, Collapsed), t, rest);
      FlowWithStep(stems, Collapsed, prev, ts);
      FlowWithStep(stems, LineStripped, prev, ts);
      if t.Sep? {
        AfterSep(stems, Collapsed, t, rest);
        FirstEdge(t, rest);
        KeepGap(before, prev, t.text, First(rest), tail);
        LineEdgePass(stems, before + Collapsed(prev, t.text, First(rest)), t, rest);
      } else {
        KeepBody(stems, before, t, tail);
        LineEdgePass(stems, before + Body(stems, t), t, rest);
      }
    }
  }

  lemma {:induction false} FirstEdge(prev: Token, ts: seq<Token>)
    requires Canonical(prev, ts)
    ensures First(ts).Edge? <==> ts == []
  {
  }

  // ---- the final strip ---------------------------------------------------

  /** Past the first token, the text is its final form and trailing newlines. */
  lemma {:induction false} TrailingBlanks(stems: seq<string>, prev: Token, ts: seq<Token>) returns (b: string)
    requires GoodStems(stems) && Canonical(prev, ts) && !prev.Edge?
    ensures var s := Flow(With(stems, Settled), prev, ts);
      && Flow(With(stems, LineStripped), prev, ts) == s + b
      && All(Space, b) && !EndsIn(Separator, s)
      && (ts != [] && !ts[0].Sep? ==> s != "" && !StartsIn(Separator, s))
    decreases |ts|
  {
    if ts == [] {
      b := "";
    } else {
      var t, rest := ts[0], ts[1..];
      FlowWithStep(stems, Settled, prev, ts);
      FlowWithStep(stems, LineStripped, prev, ts);
      b := TrailingBlanks(stems, t, rest);
      var s := Flow(With(stems, Settled), t, rest);
      if t.Sep? {
        FirstEdge(t, rest);
        if rest == [] {
          b := LineStripped(prev, t.text, Edge);
          NewlinesAreSpace(Collapsed(prev, t.text, Edge));
        } else {
          Lengthened(Settled(prev, t.text, First(rest)), s, b);
        }
      } else {
        BodyFacts(stems, t);
        Lengthened(Body(stems, t), s, b);
        assert (Body(stems, t) + s)[0] == Body(stems, t)[0];
      }
    }
  }

  lemma {:induction false} Lengthened(x: string, s: string, b: string)
    requires !EndsIn(Separator, s) && (s == "" ==> !EndsIn(Separator, x))
    ensures !EndsIn(Separator, x + s) && x + (s + b) == x + s + b
  {
    Assoc(x, s, b);
    assert x + s != "" ==> (x + s)[|x + s| - 1] == if s == "" then x[|x| - 1] else s[|s| - 1];
  }

  lemma {:induction false} NewlinesAreSpace(x: string)
    ensures All(Space, NewlinesOf(x))
  {
    if x != "" { NewlinesAreSpace(x[1..]); }
  }

  lemma {:induction false} FinalStrip(stems: seq<string>, ts: seq<Token>)
    requires GoodStems(stems) && Canonical(Edge, ts)
    ensures Strip(Flow(With(stems, LineStripped), Edge, ts)) == Flow(With(stems, Settled), Edge, ts)
  {
    if ts != [] {
      var t, rest := ts[0], ts[1..];
      FlowWithStep(stems, Settled, Edge, ts);
      FlowWithStep(stems, LineStripped, Edge, ts);
      var b := TrailingBlanks(stems, t, rest);
      var s := Flow(With(stems, Settled), t, rest);
      if t.Sep? {
        NewlinesAreSpace(Collapsed(Edge, t.text, First(rest)));
        StripEnds(LineStripped(Edge, t.text, First(rest)), s, b);
      } else {
        BodyFacts(stems, t);
        StripAfterBody(Body(stems, t), s, b);
      }
    }
  }

  lemma {:induction false} StripAfterBody(x: string, s: string, b: string)
    requires x != "" && !StartsIn(Separator, x) && !EndsIn(Separator, x) && !EndsIn(Separator, s) && All(Space, b)
    ensures Strip(x + (s + b)) == x + s
  {
    assert (x + s)[|x + s| - 1] == if s == "" then x[|x| - 1] else s[|s| - 1];
    StripEnds("", x + s, b);
    assert "" + (x + s + b) == x + (s + b);
  }

  lemma {:induction false} StripEnds(a: string, s: string, b: string)
    requires All(Space, a) && All(Space, b) && !StartsIn(Separator, s) && !EndsIn(Separator, s)
    ensures Strip(a + (s + b)) == s
  {
    forall i | 0 <= i < |a| ensures IsSpace(a[i]) { assert InClass(Space, a[i]); }
    forall i | 0 <= i < |b| ensures IsSpace(b[i]) { assert InClass(Space, b[i]); }
    assert a + (s + b) == a + s + b;
    StripUnique(a, s, b);
  }

  // ---- tabs --------------------------------------------------------------

  /** Replacing tabs before the blanks are shortened changes nothing. */
  lemma {:induction false} UntabRedundant(before: string, b2: string, s: string)
    ensures Sub(Rewriter(SPACES), before, Untab(s)) == Sub(Rewriter(SPACES), b2, s)
    decreases |s|
  {
    if s != "" {
      var m, t := Rewriter(SPACES), Untab(s);
      UntabRun(s);
      var hit := RunMatch(Inline, 1, " ", b2, s, "");
      var hit' := RunMatch(Inline, 1, " ", before, t, "");
      assert hit == hit';
      assert hit.NoMatch? ==> s[0] == t[0];
      var j, r := TwinStep(m, b2, s, before, t);
      UntabDrop(s, j);
      UntabRedundant(before + t[..j], b2 + s[..j], s[j..]);
    }
  }

  lemma {:induction false} TwinStep(m: Matcher, b1: string, s: string, b2: string, t: string)
    returns (j: nat, r: string)
    requires s != "" && |s| == |t| && m(b1, s + "") == m(b2, t + "")
    requires var hit := m(b1, s + ""); if hit.Match? then 0 < hit.len <= |s| else s[0] == t[0]
    ensures 0 < j <= |s|
    ensures Sub(m, b1, s) == r + Sub(m, b1 + s[..j], s[j..])
    ensures Sub(m, b2, t) == r + Sub(m, b2 + t[..j], t[j..])
  {
    var y, z, x := ScanStep(m, b1, s, "");
    var y', z', x' := ScanStep(m, b2, t, "");
    j, r := |y|, x;
    assert s[j..] == z && t[j..] == z' && s + "" == s && t + "" == t && z + "" == z && z' + "" == z';
  }

  lemma {:induction false} UntabRun(s: string)
    ensures |Untab(s)| == |s| && Run(Inline, Untab(s)) == Run(Inline, s)
  {
    if s != "" { UntabRun(s[1..]); }
  }

  lemma {:induction false} UntabDrop(s: string, j: nat)
    requires j <= |s|
    ensures |Untab(s)| == |s| && Untab(s)[j..] == Untab(s[j..])
  {
    UntabRun(s);
    if j > 0 {
      UntabDrop(s[1..], j - 1);
      assert s[1..][j - 1..] == s[j..] && Untab(s)[1..][j - 1..] == Untab(s)[j..];
    }
  }
}
