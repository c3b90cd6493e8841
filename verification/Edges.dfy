/** The passes that look at the edges of words, lines and the text. */
module Edges {
  import opened Rewriting
  import opened Tokens
  import opened Stages
  import opened Spacing

  // ---- `_ZWNJ_AT_EDGE` ---------------------------------------------------

  /** Half-spaces go wherever one of their sides is no letter. */
  lemma {:induction false} DropHalfSpaces(before: string, x: string, tail: string)
    requires All(Separator, x)
    requires !EndsIn(Arabic, before) || !StartsIn(Arabic, tail) || |x| >= 2 || !StartsIn(HalfSpace, x)
    ensures var m := Rewriter(HalfSpaceAtEdge); Sub(m, before, x + tail) == Visible(x) + Sub(m, before + x, tail)
    decreases |x|
  {
    var m := Rewriter(HalfSpaceAtEdge);
    if x == "" {
      assert x + tail == tail && before + x == before;
    } else {
      var a, z := [x[0]], x[1..];
      assert x + tail == a + (z + tail) && x == a + z;
      EdgeMatch(before, x, tail);
      var r := if x[0] == ZWNJ then "" else a;
      if x[0] == ZWNJ {
        Hit(m, before, a, z + tail, "");
      } else {
        CopyOne(m, before, a, z + tail);
      }
      assert InClass(Separator, x[0]) && (before + a)[|before|] == x[0];
      DropHalfSpaces(before + a, z, tail);
      Chain(m, before, a, z, tail, r, Visible(z));
    }
  }

  lemma {:induction false} EdgeMatch(before: string, x: string, tail: string)
    requires All(Separator, x) && x != ""
    requires !EndsIn(Arabic, before) || !StartsIn(Arabic, tail) || |x| >= 2 || !StartsIn(HalfSpace, x)
    ensures HalfSpaceAtEdgeAt(before, x + tail) == if x[0] == ZWNJ then Match(1, "") else NoMatch
  {
    var rest := (x + tail)[1..];
    assert rest == x[1..] + tail;
    if |x| >= 2 {
      assert rest[0] == x[1] && InClass(Separator, x[1]);
    } else {
      assert rest == tail;
    }
  }

  /** A half-space between two letters stays. */
  lemma {:induction false} KeepHeld(before: string, x: string, tail: string)
    requires Held(x)
    ensures var m := Rewriter(HalfSpaceAtEdge); Sub(m, before, x + tail) == x + Sub(m, before + x, tail)
  {
    var m := Rewriter(HalfSpaceAtEdge);
    forall i | 0 <= i < |x| ensures m(before + x[..i], x[i..] + tail).NoMatch? {
      KeepOne(before, x, tail, i);
    }
    Copy(m, before, x, tail);
  }

  lemma {:induction false} KeepOne(before: string, x: string, tail: string, i: nat)
    requires Held(x) && i < |x|
    ensures HalfSpaceAtEdgeAt(before + x[..i], x[i..] + tail).NoMatch?
  {
    var b, r := before + x[..i], x[i..] + tail;
    assert r[0] == x[i];
    if x[i] == ZWNJ {
      assert InClass(Separator, x[i]);
      assert b[|b| - 1] == x[i - 1] && r[1..][0] == x[i + 1];
    }
  }

  lemma {:induction false} EdgePassSep(before: string, prev: Token, g: string, next: Token, tail: string)
    requires Proper(Sep(g)) && (EndsIn(Arabic, before) <==> prev.Word?) && (StartsIn(Arabic, tail) <==> next.Word?)
    ensures var m, x := Rewriter(HalfSpaceAtEdge), Squeezed(prev, g, next);
      Sub(m, before, x + tail) == Edged(prev, g, next) + Sub(m, before + x, tail) && !EndsIn(Arabic, before + x)
  {
    var x := Squeezed(prev, g, next);
    SqueezedIsSeparator(prev, g, next);
    SeparatorEnds(before, x);
    if x == [ZWNJ] && prev.Word? && next.Word? {
      KeepJoint(before, tail);
    } else {
      assert |x| == 1 ==> x == [x[0]];
      DropHalfSpaces(before, x, tail);
    }
  }

  lemma {:induction false} SeparatorEnds(before: string, x: string)
    requires x != "" && All(Separator, x)
    ensures !EndsIn(Arabic, before + x)
  {
    assert InClass(Separator, x[|x| - 1]) && (before + x)[|before + x| - 1] == x[|x| - 1];
  }

  lemma {:induction false} EdgePassBody(stems: seq<string>, before: string, t: Token, tail: string)
    requires GoodStems(stems) && Proper(t) && !t.Sep?
    ensures var m, x := Rewriter(HalfSpaceAtEdge), Body(stems, t);
      Sub(m, before, x + tail) == x + Sub(m, before + x, tail) && (EndsIn(Arabic, before + x) <==> t.Word?)
  {
    var x := Body(stems, t);
    BodyFacts(stems, t);
    BodyInside(stems, t);
    KeepHeld(before, x, tail);
    assert (before + x)[|before + x| - 1] == x[|x| - 1];
  }

  lemma {:induction false} KeepJoint(before: string, tail: string)
    requires EndsIn(Arabic, before) && StartsIn(Arabic, tail)
    ensures var m := Rewriter(HalfSpaceAtEdge); Sub(m, before, [ZWNJ] + tail) == [ZWNJ] + Sub(m, before + [ZWNJ], tail)
  {
    assert ([ZWNJ] + tail)[1..] == tail;
    CopyOne(Rewriter(HalfSpaceAtEdge), before, [ZWNJ], tail);
  }

  lemma {:induction false} SqueezedIsSeparator(prev: Token, g: string, next: Token)
    requires Proper(Sep(g))
    ensures Proper(Sep(Squeezed(prev, g, next)))
  {
    RunsKeepClass(Separator, HalfSpace, 2, [ZWNJ], "", Joined(prev, g, next));
  }

  /** Shortening runs of separators yields separators. */
  lemma {:induction false} RunsKeepClass(c: Class, k: Class, least: nat, r: string, before: string, x: string)
    requires All(c, x) && All(c, r) && r != ""
    ensures var y := Sub(Rewriter(Runs(k, least, r)), before, x); All(c, y) && (x != "" ==> y != "")
    decreases |x|
  {
    if x != "" {
      var y, z, r' := LocalStep(k, least, r, before, before, x, "");
      AllParts(c, y, z);
      RunsKeepClass(c, k, least, r, before + y, z);
      AllParts(c, r', Sub(Rewriter(Runs(k, least, r)), before + y, z));
    }
  }

  lemma {:induction false} EdgePass(stems: seq<string>, before: string, prev: Token, ts: seq<Token>)
    requires GoodStems(stems) && Canonical(prev, ts)
    requires EndsIn(Arabic, before) <==> prev.Word?
    ensures Sub(Rewriter(HalfSpaceAtEdge), before, Flow(With(stems, Squeezed), prev, ts))
         == Flow(With(stems, Edged), prev, ts)
    decreases |ts|
  {
    if ts != [] {
      var t, rest := ts[0], ts[1..];
      FlowWithStep(stems, Squeezed, prev, ts);
      FlowWithStep(stems, Edged, prev, ts);
      if t.Sep? {
        AfterSep(stems, Squeezed, t, rest);
        EdgePassSep(before, prev, t.text, First(rest), Flow(With(stems, Squeezed), t, rest));
        EdgePass(stems, before + Squeezed(prev, t.text, First(rest)), t, rest);
      } else {
        EdgePassBody(stems, before, t, Flow(With(stems, Squeezed), t, rest));
        EdgePass(stems, before + Body(stems, t), t, rest);
      }
    }
  }
}
