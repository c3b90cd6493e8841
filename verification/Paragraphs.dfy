/** Splitting a text into paragraphs at blank lines. */
module Paragraphs {
  import opened Text
  import opened Rewriting

  /** `re.split(r"\n{2,}", s)`. */
  function SplitRuns(s: string): (parts: seq<string>)
    ensures |parts| > 0
    decreases |s|
  {
    if s == "" then [""]
    else
      var n := Run(Newline, s);
      if n >= 2 then [""] + SplitRuns(s[n..])
      else var rest := SplitRuns(s[1..]); [[s[0]] + rest[0]] + rest[1..]
  }

  /** The stripped parts that are not blank. */
  function Kept(parts: seq<string>): seq<string> {
    if parts == [] then []
    else (if Strip(parts[0]) == "" then [] else [Strip(parts[0])]) + Kept(parts[1..])
  }

  /** `_split_paragraphs`. */
  function SplitParagraphs(s: string): seq<string> {
    Kept(SplitRuns(s))
  }

  ghost predicate NoBlankLine(s: string) {
    forall i | 0 <= i < |s| - 1 :: !(s[i] == '\n' && s[i + 1] == '\n')
  }

  ghost predicate IsParagraph(p: string) {
    p != "" && Trimmed(p) && NoBlankLine(p)
  }

  ghost predicate AllParagraphs(ps: seq<string>) {
    forall i | 0 <= i < |ps| :: IsParagraph(ps[i])
  }

  // ---- splitting yields paragraphs ---------------------------------------

  lemma {:induction false} RunsApart(s: string)
    ensures var parts := SplitRuns(s);
      && (forall i | 0 <= i < |parts| :: NoBlankLine(parts[i]))
      && (Run(Newline, s) != 1 ==> !StartsIn(Newline, parts[0]))
      && (Run(Newline, s) == 1 ==> parts[0] != "" && parts[0][0] == '\n' && !StartsIn(Newline, parts[0][1..]))
    decreases |s|
  {
    if s != "" {
      var n := Run(Newline, s);
      if n >= 2 {
        RunsApart(s[n..]);
      } else {
        RunsApart(s[1..]);
        var rest := SplitRuns(s[1..]);
        var first := [s[0]] + rest[0];
        assert first[1..] == rest[0];
        assert Run(Newline, s) == if s[0] == '\n' then 1 + Run(Newline, s[1..]) else 0;
        NoBlankLineCons(s[0], rest[0]);
      }
    }
  }

  lemma {:induction false} NoBlankLineCons(c: char, s: string)
    requires NoBlankLine(s) && (c == '\n' ==> !StartsIn(Newline, s))
    ensures NoBlankLine([c] + s)
  {
    var t := [c] + s;
    forall i | 0 <= i < |t| - 1 ensures !(t[i] == '\n' && t[i + 1] == '\n') {
      if i > 0 { assert t[i] == s[i - 1] && t[i + 1] == s[i]; }
    }
  }

  lemma {:induction false} NoBlankLineInside(a: string, p: string, b: string)
    requires NoBlankLine(a + p + b)
    ensures NoBlankLine(p)
  {
    var t := a + p + b;
    forall i | 0 <= i < |p| - 1 ensures !(p[i] == '\n' && p[i + 1] == '\n') {
      assert t[|a| + i] == p[i] && t[|a| + i + 1] == p[i + 1];
    }
  }

  lemma {:induction false} KeptAreParagraphs(parts: seq<string>)
    requires forall i | 0 <= i < |parts| :: NoBlankLine(parts[i])
    ensures AllParagraphs(Kept(parts))
  {
    if parts != [] {
      KeptAreParagraphs(parts[1..]);
      var a, b := StripParts(parts[0]);
      NoBlankLineInside(a, Strip(parts[0]), b);
    }
  }

  /** Every paragraph is non-empty, trimmed and free of blank lines. */
  lemma {:induction false} SplitYieldsParagraphs(s: string)
    ensures AllParagraphs(SplitParagraphs(s))
  {
    RunsApart(s);
    KeptAreParagraphs(SplitRuns(s));
  }

  // ---- joining and splitting again ---------------------------------------

  /** A paragraph in front of a break, or of the end, is one part. */
  lemma {:induction false} SplitAtBreak(p: string, tail: string)
    requires NoBlankLine(p) && !EndsIn(Newline, p)
    requires tail == "" || (Run(Newline, tail) == 2)
    ensures SplitRuns(p + tail) == if tail == "" then [p] else [p] + SplitRuns(tail[2..])
    decreases |p|
  {
    if p == "" {
      assert p + tail == tail;
    } else {
      var s := p + tail;
      assert s[1..] == p[1..] + tail && s[0] == p[0];
      NoBlankLineInside([p[0]], p[1..], "");
      assert [p[0]] + p[1..] + "" == p;
      SplitAtBreak(p[1..], tail);
      assert |p| > 1 ==> p[1..][|p| - 2] == p[|p| - 1];
      ShortRun(p, tail);
      assert [p[0]] + p[1..] == p;
    }
  }

  lemma {:induction false} ShortRun(p: string, tail: string)
    requires p != "" && NoBlankLine(p) && !EndsIn(Newline, p)
    ensures Run(Newline, p + tail) < 2
  {
    var s := p + tail;
    if s[0] == '\n' {
      assert |p| > 1 && s[1] == p[1] && s[1..][0] == p[1];
    }
  }

  /** Splitting what was joined gives the paragraphs back. */
  lemma {:induction false} ParagraphRoundTrip(ps: seq<string>)
    requires AllParagraphs(ps)
    ensures SplitParagraphs(Join("\n\n", ps)) == ps
  {
    if |ps| == 1 {
      SplitAtBreak(ps[0], "");
      assert ps[0] + "" == ps[0];
      KeptParagraph(ps[0], []);
    } else if |ps| > 1 {
      var rest := Join("\n\n", ps[1..]);
      ParagraphRoundTrip(ps[1..]);
      FirstOfJoin(ps[1..]);
      BreakRun(rest);
      SplitAtBreak(ps[0], "\n\n" + rest);
      assert ("\n\n" + rest)[2..] == rest && ps[0] + "\n\n" + rest == ps[0] + ("\n\n" + rest);
      KeptParagraph(ps[0], SplitRuns(rest));
      assert [ps[0]] + ps[1..] == ps;
    }
  }

  lemma {:induction false} FirstOfJoin(ps: seq<string>)
    requires AllParagraphs(ps) && ps != []
    ensures !StartsIn(Newline, Join("\n\n", ps))
  {
    assert Join("\n\n", ps)[0] == ps[0][0];
  }

  lemma {:induction false} BreakRun(s: string)
    requires !StartsIn(Newline, s)
    ensures Run(Newline, "\n\n" + s) == 2
  {
    RunOver(Newline, "\n\n", s);
  }

  lemma {:induction false} KeptParagraph(p: string, parts: seq<string>)
    requires IsParagraph(p)
    ensures Kept([p] + parts) == [p] + Kept(parts)
  {
    StripUnique("", p, "");
    assert "" + p + "" == p && ([p] + parts)[1..] == parts;
  }

  // ---- nothing is lost ---------------------------------------------------

  /** The characters that are not white space. */
  function Ink(s: string): string {
    if s == "" then "" else (if IsSpace(s[0]) then "" else [s[0]]) + Ink(s[1..])
  }

  function InkOf(ps: seq<string>): string {
    if ps == [] then "" else Ink(ps[0]) + InkOf(ps[1..])
  }

  lemma {:induction false} InkConcat(a: string, b: string)
    ensures Ink(a + b) == Ink(a) + Ink(b)
  {
    if a == "" {
      assert a + b == b;
    } else {
      var h := if IsSpace(a[0]) then "" else [a[0]];
      assert (a + b)[1..] == a[1..] + b;
      InkConcat(a[1..], b);
      assert h + (Ink(a[1..]) + Ink(b)) == h + Ink(a[1..]) + Ink(b);
    }
  }

  lemma {:induction false} InkOfBlank(s: string)
    ensures Blank(s) <==> Ink(s) == ""
  {
    if s != "" {
      InkOfBlank(s[1..]);
      assert Blank(s) <==> IsSpace(s[0]) && Blank(s[1..]) by {
        assert forall i | 0 <= i < |s[1..]| :: s[1..][i] == s[i + 1];
        if IsSpace(s[0]) && Blank(s[1..]) {
          forall i | 0 <= i < |s| ensures IsSpace(s[i]) { if i > 0 { assert s[i] == s[1..][i - 1]; } }
        }
      }
    }
  }

  lemma {:induction false} InkOfStrip(s: string)
    ensures Ink(Strip(s)) == Ink(s)
  {
    var a, b := StripParts(s);
    InkOfBlank(a);
    InkOfBlank(b);
    InkConcat(a + Strip(s), b);
    InkConcat(a, Strip(s));
  }

  lemma {:induction false} InkOfKept(parts: seq<string>)
    ensures InkOf(Kept(parts)) == InkOf(parts)
  {
    if parts != [] {
      InkOfKept(parts[1..]);
      InkOfStrip(parts[0]);
      var p, rest := Strip(parts[0]), Kept(parts[1..]);
      if p == "" {
        assert [] + rest == rest;
      } else {
        assert ([p] + rest)[1..] == rest;
      }
    }
  }

  lemma {:induction false} InkOfRuns(s: string)
    ensures InkOf(SplitRuns(s)) == Ink(s)
    decreases |s|
  {
    if s != "" {
      var n := Run(Newline, s);
      if n >= 2 {
        InkOfRuns(s[n..]);
        InkAfterBreak(s, n, SplitRuns(s[n..]));
      } else {
        InkOfRuns(s[1..]);
        InkInPart(s[0], SplitRuns(s[1..]));
      }
    }
  }

  lemma {:induction false} InkAfterBreak(s: string, n: nat, rest: seq<string>)
    requires n <= |s| && All(Newline, s[..n]) && InkOf(rest) == Ink(s[n..])
    ensures InkOf([""] + rest) == Ink(s)
  {
    assert s == s[..n] + s[n..];
    InkConcat(s[..n], s[n..]);
    forall i | 0 <= i < n ensures IsSpace(s[..n][i]) { assert InClass(Newline, s[..n][i]); }
    InkOfBlank(s[..n]);
    assert ([""] + rest)[1..] == rest;
    Unit(Ink(s[n..]));
  }

  lemma {:induction false} InkInPart(c: char, rest: seq<string>)
    requires rest != []
    ensures InkOf([[c] + rest[0]] + rest[1..]) == (if IsSpace(c) then "" else [c]) + InkOf(rest)
  {
    assert ([c] + rest[0])[1..] == rest[0];
    assert ([[c] + rest[0]] + rest[1..])[1..] == rest[1..];
    Assoc(if IsSpace(c) then "" else [c], Ink(rest[0]), InkOf(rest[1..]));
  }

  /** The paragraphs hold every character of the text that is not white space, in order. */
  lemma {:induction false} ParagraphsKeepInk(s: string)
    ensures InkOf(SplitParagraphs(s)) == Ink(s)
  {
    InkOfRuns(s);
    InkOfKept(SplitRuns(s));
  }

  lemma {:induction false} NoParagraphsIffBlank(s: string)
    ensures SplitParagraphs(s) == [] <==> Strip(s) == ""
  {
    ParagraphsKeepInk(s);
    InkOfBlank(s);
    StripEmptyIsBlank(s);
    SplitYieldsParagraphs(s);
    var ps := SplitParagraphs(s);
    if ps != [] {
      assert IsParagraph(ps[0]);
      assert Ink(ps[0])[0] == ps[0][0];
    }
  }
}
