/** What a separator settles to, said directly: a half-space, one blank, some
    newlines, or nothing. */
module Gaps {
  import Text
  import opened Rewriting
  import opened Tokens
  import opened Stages
  import opened Spacing
  import opened Lines

  /** Newlines left by the collapse: a third newline in a row does not count.
      `c` newlines have just been counted. */
  function Weight(c: nat, s: string): nat
    decreases |s|
  {
    if s == "" then 0
    else if s[0] != '\n' then Weight(0, s[1..])
    else if c < 2 then 1 + Weight(c + 1, s[1..])
    else Weight(c, s[1..])
  }

  predicate AllHalfSpaces(g: string) { Run(HalfSpace, g) == |g| }

  /** The settled form of a separator between two tokens. */
  function Gap(prev: Token, g: string, next: Token): string {
    if prev.Edge? || next.Edge? then ""
    else if Joins(prev, next) && AllJoiner(g) then [ZWNJ]
    else if AllHalfSpaces(g) then (if prev.Word? && next.Word? then [ZWNJ] else "")
    else if '\n' in g then Text.Newlines(Weight(0, Visible(g)))
    else " "
  }

  // ---- shortening runs ---------------------------------------------------

  lemma {:induction false} WeightOfSpaces(before: string, c: nat, x: string)
    ensures Weight(c, Sub(Rewriter(SPACES), before, x)) == Weight(c, x)
    decreases |x|
  {
    if x != "" {
      var m := Rewriter(SPACES);
      var n := Run(Inline, x);
      var hit := RunMatch(Inline, 1, " ", before, x, "");
      var y, z, r := ScanStep(m, before, x, "");
      assert x + "" == x && z + "" == z;
      if n > 0 {
        WeightAfterInline(c, y, z);
        WeightOfSpaces(before + y, 0, z);
        WeightCons(c, " ", Sub(m, before + y, z));
      } else {
        var c' := if x[0] != '\n' then 0 else if c < 2 then c + 1 else c;
        WeightOfSpaces(before + y, c', z);
        WeightCons(c, y, Sub(m, before + y, z));
        WeightCons(c, y, z);
      }
    }
  }

  lemma {:induction false} WeightCons(c: nat, a: string, s: string)
    requires |a| == 1
    ensures Weight(c, a + s)
         == if a[0] != '\n' then Weight(0, s) else if c < 2 then 1 + Weight(c + 1, s) else Weight(c, s)
  {
    assert (a + s)[1..] == s;
  }

  lemma {:induction false} WeightAfterInline(c: nat, a: string, s: string)
    requires a != "" && All(Inline, a)
    ensures Weight(c, a + s) == Weight(0, s)
    decreases |a|
  {
    assert a == a[..1] + a[1..] && InClass(Inline, a[0]);
    AllParts(Inline, a[..1], a[1..]);
    assert a + s == a[..1] + (a[1..] + s);
    WeightCons(c, a[..1], a[1..] + s);
    if |a| > 1 { WeightAfterInline(0, a[1..], s); } else { assert a[1..] + s == s; }
  }

  lemma {:induction false} NewlinesOfCount(x: string)
    ensures NewlinesOf(x) == Text.Newlines(|NewlinesOf(x)|)
    ensures '\n' in x <==> NewlinesOf(x) != ""
  {
    if x != "" {
      NewlinesOfCount(x[1..]);
      assert '\n' in x <==> x[0] == '\n' || '\n' in x[1..];
    }
  }

  /** What the collapse leaves of blocks of newlines. */
  lemma {:induction false} NewlinesCollapsed(before: string, c: nat, x: string)
    requires c == 0 || c + Run(Newline, x) <= 2
    ensures |NewlinesOf(Sub(Rewriter(BLANK_LINES), before, x))| == Weight(c, x)
    decreases |x|
  {
    if x != "" {
      var y, z, r, c' := CollapseStep(before, c, x);
      NewlinesOfConcat(r, Sub(Rewriter(BLANK_LINES), before + y, z));
      NewlinesCollapsed(before + y, c', z);
    }
  }

  lemma {:induction false} CollapseStep(before: string, c: nat, x: string)
    returns (y: string, z: string, r: string, c': nat)
    requires x != "" && (c == 0 || c + Run(Newline, x) <= 2)
    ensures |z| < |x| && (c' == 0 || c' + Run(Newline, z) <= 2)
    ensures Sub(Rewriter(BLANK_LINES), before, x) == r + Sub(Rewriter(BLANK_LINES), before + y, z)
    ensures Weight(c, x) == |NewlinesOf(r)| + Weight(c', z)
  {
    var m, n := Rewriter(BLANK_LINES), Run(Newline, x);
    var hit := RunMatch(Newline, 3, "\n\n", before, x, "");
    y, z, r := ScanStep(m, before, x, "");
    Text.Unit(x);
    Text.Unit(z);
    if n >= 3 {
      c' := 0;
      BlockCollapsed(x);
    } else {
      c' := if x[0] == '\n' then c + 1 else 0;
      CharKept(c, x);
    }
  }

  lemma {:induction false} BlockCollapsed(x: string)
    requires Run(Newline, x) >= 3
    ensures Weight(0, x) == |NewlinesOf("\n\n")| + Weight(0, x[Run(Newline, x)..])
  {
    var n := Run(Newline, x);
    assert NewlinesOf("\n\n") == "\n\n" by { NewlinesOfConcat("\n", "\n"); }
    assert x == x[..n] + x[n..];
    WeightOfBlock(0, x[..n], x[n..]);
  }

  lemma {:induction false} CharKept(c: nat, x: string)
    requires x != "" && Run(Newline, x) <= 2 && (c == 0 || c + Run(Newline, x) <= 2)
    ensures var c' := if x[0] == '\n' then c + 1 else 0;
      Weight(c, x) == |NewlinesOf(x[..1])| + Weight(c', x[1..]) && (c' == 0 || c' + Run(Newline, x[1..]) <= 2)
  {
    assert x[..1] == [x[0]] && x[..1][1..] == "";
    RunTail(Newline, x);
  }

  lemma {:induction false} RunTail(k: Class, x: string)
    requires x != ""
    ensures InClass(k, x[0]) ==> Run(k, x[1..]) == Run(k, x) - 1
  {
  }

  lemma {:induction false} WeightOfBlock(c: nat, y: string, z: string)
    requires All(Newline, y) && !StartsIn(Newline, z) && c <= 2
    ensures Weight(c, y + z) == (if c + |y| > 2 then 2 - c else |y|) + Weight(0, z)
    decreases |y|
  {
    if y == "" {
      assert y + z == z;
    } else {
      assert y == y[..1] + y[1..] && InClass(Newline, y[0]) && y + z == y[..1] + (y[1..] + z);
      AllParts(Newline, y[..1], y[1..]);
      WeightCons(c, y[..1], y[1..] + z);
      WeightOfBlock(if c < 2 then c + 1 else c, y[1..], z);
    }
  }

  lemma {:induction false} VisibleConcat(a: string, b: string)
    ensures Visible(a + b) == Visible(a) + Visible(b)
  {
    if a == "" {
      assert a + b == b;
    } else {
      var h := if a[0] == ZWNJ then "" else [a[0]];
      assert (a + b)[1..] == a[1..] + b;
      VisibleConcat(a[1..], b);
      Text.Assoc(h, Visible(a[1..]), Visible(b));
    }
  }

  lemma {:induction false} VisibleOfHalfSpaces(a: string)
    requires All(HalfSpace, a)
    ensures Visible(a) == ""
  {
    if a != "" {
      assert a == a[..1] + a[1..] && InClass(HalfSpace, a[0]);
      AllParts(HalfSpace, a[..1], a[1..]);
      VisibleOfHalfSpaces(a[1..]);
    }
  }

  lemma {:induction false} VisibleSqueezed(before: string, x: string)
    ensures Visible(Sub(Rewriter(HALF_SPACE_RUN), before, x)) == Visible(x)
    decreases |x|
  {
    if x != "" {
      var y, z, r := SqueezeStep(before, x);
      VisibleSqueezed(before + y, z);
      VisibleConcat(y, z);
      VisibleConcat(r, Sub(Rewriter(HALF_SPACE_RUN), before + y, z));
    }
  }

  lemma {:induction false} SqueezeStep(before: string, x: string) returns (y: string, z: string, r: string)
    requires x != ""
    ensures x == y + z && y != "" && Visible(r) == Visible(y)
    ensures Sub(Rewriter(HALF_SPACE_RUN), before, x) == r + Sub(Rewriter(HALF_SPACE_RUN), before + y, z)
  {
    var m := Rewriter(HALF_SPACE_RUN);
    var hit := RunMatch(HalfSpace, 2, [ZWNJ], before, x, "");
    y, z, r := ScanStep(m, before, x, "");
    Text.Unit(x);
    Text.Unit(z);
    if hit.Match? {
      VisibleOfHalfSpaces(y);
      VisibleOfHalfSpaces([ZWNJ]);
    }
  }

  lemma {:induction false} SqueezeHalfSpaces(x: string)
    requires x != "" && AllHalfSpaces(x)
    ensures Apply(HALF_SPACE_RUN, x) == [ZWNJ]
  {
    var m := Rewriter(HALF_SPACE_RUN);
    assert x[..|x|] == x && InClass(HalfSpace, x[0]) && x + "" == x;
    var hit := RunMatch(HalfSpace, 2, [ZWNJ], "", x, "");
    var y, z, r := ScanStep(m, "", x, "");
    assert z == "" && Sub(m, "" + y, z + "") == "";
    assert |x| == 1 ==> x == [ZWNJ];
  }

  lemma {:induction false} VisibleEmpty(x: string)
    ensures Visible(x) == "" <==> AllHalfSpaces(x)
    ensures '\n' in Visible(x) <==> '\n' in x
  {
    if x != "" {
      VisibleEmpty(x[1..]);
      assert '\n' in x <==> x[0] == '\n' || '\n' in x[1..];
    }
  }

  lemma {:induction false} SpacesOfInline(x: string)
    requires x != "" && All(Inline, x)
    ensures Apply(SPACES, x) == " "
  {
    assert x + "" == x;
    RunOver(Inline, x, "");
    Hit(Rewriter(SPACES), "", x, "", " ");
    assert " " + "" == " ";
  }

  lemma {:induction false} BlankStays()
    ensures Apply(BLANK_LINES, " ") == " "
  {
    assert " " + "" == " ";
    CopyOne(Rewriter(BLANK_LINES), "", " ", "");
  }

  lemma {:induction false} SpacesKeepNewline(before: string, x: string)
    ensures '\n' in Sub(Rewriter(SPACES), before, x) <==> '\n' in x
    decreases |x|
  {
    if x != "" {
      var m := Rewriter(SPACES);
      var hit := RunMatch(Inline, 1, " ", before, x, "");
      var y, z, r := ScanStep(m, before, x, "");
      assert x + "" == x && z + "" == z;
      SpacesKeepNewline(before + y, z);
      var rest := Sub(m, before + y, z);
      assert '\n' in r + rest <==> '\n' in r || '\n' in rest;
      assert '\n' in y + z <==> '\n' in y || '\n' in z;
      if hit.Match? { assert forall i | 0 <= i < |y| :: InClass(Inline, y[i]); }
    }
  }

  // ---- the passes over one separator -------------------------------------

  lemma {:induction false} SettledIsGap(prev: Token, g: string, next: Token)
    requires Proper(Sep(g))
    ensures Settled(prev, g, next) == Gap(prev, g, next)
  {
    var x := Joined(prev, g, next);
    if prev.Edge? || next.Edge? {
    } else if Joins(prev, next) && AllJoiner(g) {
      HalfSpaceSettles(prev, g, next);
    } else if AllHalfSpaces(g) {
      SqueezeHalfSpaces(g);
      HalfSpacesSettle(prev, g, next);
    } else {
      VisibleSqueezed("", g);
      VisibleEmpty(g);
      VisibleIsSpace(g);
      WhiteSpaceSettles(prev, g, next);
    }
  }

  lemma {:induction false} HalfSpaceSettles(prev: Token, g: string, next: Token)
    requires Joins(prev, next) && AllJoiner(g)
    ensures Settled(prev, g, next) == [ZWNJ]
  {
    SqueezeHalfSpaces([ZWNJ]);
    HalfSpaceStays(Inline, 1, " ");
    HalfSpaceStays(Newline, 3, "\n\n");
  }

  lemma {:induction false} HalfSpacesSettle(prev: Token, g: string, next: Token)
    requires Squeezed(prev, g, next) == [ZWNJ] && !prev.Edge? && !next.Edge?
    ensures Settled(prev, g, next) == if prev.Word? && next.Word? then [ZWNJ] else ""
  {
    HalfSpaceStays(Inline, 1, " ");
    HalfSpaceStays(Newline, 3, "\n\n");
    VisibleOfHalfSpaces([ZWNJ]);
  }

  lemma {:induction false} WhiteSpaceSettles(prev: Token, g: string, next: Token)
    requires !prev.Edge? && !next.Edge? && Squeezed(prev, g, next) == Apply(HALF_SPACE_RUN, g)
    requires Visible(Apply(HALF_SPACE_RUN, g)) == Visible(g) && Visible(g) != "" && All(Space, Visible(g))
    requires '\n' in Visible(g) <==> '\n' in g
    ensures Settled(prev, g, next) == if '\n' in g then Text.Newlines(Weight(0, Visible(g))) else " "
  {
    var v := Visible(g);
    VisibleOfHalfSpaces([ZWNJ]);
    assert Edged(prev, g, next) == v;
    if '\n' in g {
      SpacesKeepNewline("", v);
      WeightOfSpaces("", 0, v);
      var x := Apply(SPACES, v);
      NewlinesCollapsed("", 0, x);
      NewlinesOfCount(Apply(BLANK_LINES, x));
      WeightPositive(x);
    } else {
      assert forall i | 0 <= i < |v| :: InClass(Space, v[i]) && v[i] != '\n';
      SpacesOfInline(v);
      BlankStays();
    }
  }

  lemma {:induction false} WeightPositive(x: string)
    ensures Weight(0, x) > 0 <==> '\n' in x
  {
    if x != "" {
      WeightPositive(x[1..]);
      assert '\n' in x <==> x[0] == '\n' || '\n' in x[1..];
    }
  }
}
