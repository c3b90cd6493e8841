/** The indented lines of cleaned HTML: where no text that begins a line is indented, they
    are the lines of the items of nested lists. */
module HtmlIndent {
  import opened Text
  import opened Rewriting
  import opened Extraction
  import opened Tidying
  import opened LineBreaks
  import Cleaning
  import Indentation
  import TidyIndent

  /** The line starts with the indentation and the marker of an item in a nested list. */
  ghost predicate NestedStart(line: string) {
    exists d: nat, n: nat :: d > 0 && Indent(d) + Indentation.ItemMark(n) <= line
  }

  /** The line is not indented, or by a nested list. */
  ghost predicate Rightful(line: string) {
    TidyIndent.Indented(line) ==> NestedStart(line)
  }

  /** The event is text that will begin a line, and starts with white space. */
  ghost predicate TextDents(es: seq<Event>, k: nat)
    requires k < |es|
  {
    var st := Indentation.Met(es, k);
    Indentation.FromText(st, es[k]) && Indentation.AtLineStart(st.parts)
  }

  // ---- the parts that begin lines ----------------------------------------

  /** The part number `i` begins a line; `start` tells whether the first one does. */
  predicate Begins(start: bool, parts: seq<string>, i: nat)
    requires i < |parts|
  {
    if i == 0 then start else Indentation.AtLineStart([parts[i - 1]])
  }

  /** A part that begins a line is indented only by a nested list. */
  ghost predicate LineStarts(start: bool, parts: seq<string>) {
    forall i | 0 <= i < |parts| && Begins(start, parts, i) :: Indentation.Dented(parts[i]) ==> NestedStart(parts[i])
  }

  lemma {:induction false} MarkedPart(depth: nat, n: nat, part: string)
    requires depth > 0 && part == Indent(depth) + Indentation.ItemMark(n) + " "
    ensures NestedStart(part)
  {
    assert Indent(depth) + Indentation.ItemMark(n) <= part;
  }

  lemma {:induction false} SamePartStart(parts: seq<string>, i: nat)
    requires 0 < i <= |parts|
    ensures Indentation.AtLineStart([parts[i - 1]]) <==> Indentation.AtLineStart(parts[..i])
  {
    assert parts[..i][|parts[..i]| - 1] == parts[i - 1];
  }

  /** The parts before the ones an event emits are those of the state it met. */
  lemma {:induction false} PartsBefore(es: seq<Event>, k: nat)
    requires k <= |es|
    ensures Indentation.Met(es, k).parts <= Feed(INITIAL, es).parts
    decreases |es| - k
  {
    if k == |es| {
      assert es[..k] == es;
    } else {
      Indentation.FeedLast(es, k);
      Indentation.StepGrows(Indentation.Met(es, k), es[k]);
      PartsBefore(es, k + 1);
    }
  }

  lemma {:induction false} TextBegins(es: seq<Event>, k: nat, i: nat)
    requires k < |es| && Indentation.FromText(Indentation.Met(es, k), es[k]) && i == |Indentation.Met(es, k).parts|
    requires i < |Feed(INITIAL, es).parts| && Begins(true, Feed(INITIAL, es).parts, i)
    ensures TextDents(es, k)
  {
    var st, parts := Indentation.Met(es, k), Feed(INITIAL, es).parts;
    PartsBefore(es, k);
    assert st.parts == parts[..i];
    if i > 0 { SamePartStart(parts, i); }
  }

  lemma {:induction false} DocumentStarts(es: seq<Event>)
    requires forall k | 0 <= k < |es| :: !TextDents(es, k)
    ensures LineStarts(true, Feed(INITIAL, es).parts)
  {
    var parts := Feed(INITIAL, es).parts;
    forall i | 0 <= i < |parts| && Begins(true, parts, i) && Indentation.Dented(parts[i])
      ensures NestedStart(parts[i])
    {
      Indentation.IndentSources(es, i);
      var k: nat :| k < |es| && Indentation.Source(es, k, i);
      var st := Indentation.Met(es, k);
      if Indentation.FromText(st, es[k]) && i == |st.parts| {
        TextBegins(es, k, i);
      } else {
        var n: nat :| parts[i] == Indent(|st.listStack| - 1) + Indentation.ItemMark(n) + " ";
        MarkedPart(|st.listStack| - 1, n, parts[i]);
      }
    }
  }

  // ---- from parts to lines -----------------------------------------------

  ghost predicate RightfulLines(start: nat, lines: seq<string>) {
    forall j | start <= j < |lines| :: Rightful(lines[j])
  }

  lemma {:induction false} StartsTail(start: bool, parts: seq<string>)
    requires parts != [] && LineStarts(start, parts)
    ensures LineStarts(Indentation.AtLineStart([parts[0]]), parts[1..])
  {
    var rest, next := parts[1..], Indentation.AtLineStart([parts[0]]);
    forall i | 0 <= i < |rest| && Begins(next, rest, i) ensures Indentation.Dented(rest[i]) ==> NestedStart(rest[i]) {
      assert rest[i] == parts[i + 1] && (i > 0 ==> rest[i - 1] == parts[i]);
      assert Begins(start, parts, i + 1);
    }
  }

  lemma {:induction false} LongerStart(p: string, x: string)
    requires NestedStart(p)
    ensures NestedStart(p + x)
  {
    var d: nat, n: nat :| d > 0 && Indent(d) + Indentation.ItemMark(n) <= p;
    assert Indent(d) + Indentation.ItemMark(n) <= p + x;
  }

  lemma {:induction false} PieceStarts(p: string, x: string)
    requires p != "" && OneLine(p) && (Indentation.Dented(p) ==> NestedStart(p))
    ensures Rightful(p + x)
  {
    assert (p + x)[0] == p[0];
    if Indentation.Dented(p) { LongerStart(p, x); }
  }

  /** Every line of the joined parts is rightful, the one that goes on from before aside. */
  lemma {:induction false} PartLines(start: bool, parts: seq<string>)
    requires Cleaning.GoodParts(parts) && LineStarts(start, parts)
    ensures RightfulLines(if start then 0 else 1, Split(Flatten(parts)))
    decreases |parts|
  {
    if parts != [] {
      var p, rest := parts[0], Flatten(parts[1..]);
      assert Cleaning.GoodPart(p);
      StartsTail(start, parts);
      PartLines(Indentation.AtLineStart([p]), parts[1..]);
      if p == "\n" {
        BreakLines(rest);
      } else if p == "\n\n" {
        BreakLines(rest);
        BreakLines("\n" + rest);
        assert "\n\n" + rest == "\n" + ("\n" + rest);
      } else {
        assert start ==> Begins(start, parts, 0);
        if start { PieceStarts(p, Split(rest)[0]); }
        PieceLines(start, p, rest);
      }
    }
  }

  lemma {:induction false} BreakLines(s: string)
    requires RightfulLines(0, Split(s))
    ensures RightfulLines(0, Split("\n" + s))
  {
    SplitBreak(s);
    ConsLines("", Split(s));
  }

  lemma {:induction false} PieceLines(start: bool, p: string, s: string)
    requires OneLine(p) && RightfulLines(1, Split(s)) && (start ==> Rightful(p + Split(s)[0]))
    ensures RightfulLines(if start then 0 else 1, Split(p + s))
  {
    Cleaning.SplitLine(p, s);
    NewHead(start, p + Split(s)[0], Split(s));
  }

  lemma {:induction false} NewHead(start: bool, line: string, lines: seq<string>)
    requires lines != [] && RightfulLines(1, lines) && (start ==> Rightful(line))
    ensures RightfulLines(if start then 0 else 1, [line] + lines[1..])
  {
    var all := [line] + lines[1..];
    forall j | 1 <= j < |all| ensures Rightful(all[j]) { assert all[j] == lines[j]; }
  }

  lemma {:induction false} ConsLines(line: string, rest: seq<string>)
    requires RightfulLines(0, rest) && Rightful(line)
    ensures RightfulLines(0, [line] + rest)
  {
    var all := [line] + rest;
    forall j | 1 <= j < |all| ensures Rightful(all[j]) { Behind(line, rest, j); }
  }

  lemma {:induction false} Behind(line: string, rest: seq<string>, j: nat)
    requires 1 <= j <= |rest|
    ensures ([line] + rest)[j] == rest[j - 1]
  {
  }

  // ---- through the passes ------------------------------------------------

  lemma {:induction false} MarkEnd(d: nat, n: nat)
    ensures var p := Indent(d) + Indentation.ItemMark(n); p != "" && !IsSpace(p[|p| - 1])
  {
  }

  lemma {:induction false} PrefixStays(p: string, m: string, b: string)
    requires p <= m + b && p != "" && !IsSpace(p[|p| - 1]) && Blank(b)
    ensures p <= m
  {
    assert forall i | |m| <= i < |m + b| :: (m + b)[i] == b[i - |m|];
    assert (m + b)[|p| - 1] == p[|p| - 1];
  }

  /** Cutting off trailing white space leaves a marker alone. */
  lemma {:induction false} RightfulCut(line: string, m: string, b: string)
    requires Rightful(line) && line == m + b && Blank(b)
    ensures Rightful(m)
  {
    if TidyIndent.Indented(m) {
      assert line[0] == m[0];
      var d: nat, n: nat :| d > 0 && Indent(d) + Indentation.ItemMark(n) <= line;
      MarkEnd(d, n);
      PrefixStays(Indent(d) + Indentation.ItemMark(n), m, b);
    }
  }

  lemma {:induction false} PassLines(c: nat, lines: seq<string>)
    requires RightfulLines(0, lines)
    ensures RightfulLines(0, Squash(c, TrimEach(lines)))
    decreases |lines|
  {
    if |lines| > 1 {
      var t, rest := TrimEnd(lines[0]), TrimEach(lines[1..]);
      var b := TrimEndParts(lines[0]);
      assert Rightful(lines[0]);
      RightfulCut(lines[0], t, b);
      SquashStep(c, lines);
      PassLines(1, lines[1..]);
      PassLines(c + 1, lines[1..]);
      ConsLines(t, Squash(1, rest));
      ConsLines("", Squash(c + 1, rest));
      Unit(Squash(c + 1, rest));
    }
  }

  lemma {:induction false} TidyLines(digit: char -> bool, lines: seq<string>)
    requires RightfulLines(0, lines)
    ensures RightfulLines(0, TidyEach(digit, lines))
  {
    forall j | 0 <= j < |lines| ensures Rightful(TidyLine(digit, lines[j])) {
      var a, c := StripParts(lines[j]);
      var b := RStripParts(lines[j]);
      assert Rightful(lines[j]);
      RightfulCut(lines[j], RStrip(lines[j]), b);
    }
  }

  /** Stripping the text touches the first line and the last. */
  lemma {:induction false} LStripLines(s: string)
    requires RightfulLines(1, Split(s))
    ensures RightfulLines(1, Split(LStrip(s)))
  {
    if s != "" && IsSpace(s[0]) {
      var rest := Split(s[1..]);
      if s[0] == '\n' {
        forall j | 1 <= j < |rest| ensures Rightful(rest[j]) { assert Split(s)[j + 1] == rest[j]; }
      } else {
        forall j | 1 <= j < |rest| ensures Rightful(rest[j]) { assert Split(s)[j] == rest[j]; }
      }
      LStripLines(s[1..]);
    }
  }

  lemma {:induction false} RStripLines(s: string)
    requires RightfulLines(1, Split(s))
    ensures RightfulLines(1, Split(RStrip(s)))
  {
    if s != "" && IsSpace(s[|s| - 1]) {
      var c, t := s[|s| - 1], s[..|s| - 1];
      assert s == t + [c];
      SplitSnoc(t, c);
      UnsnocLines(Split(t), c);
      RStripLines(t);
    }
  }

  lemma {:induction false} UnsnocLines(lines: seq<string>, c: char)
    requires lines != [] && RightfulLines(1, Snoc(lines, c)) && IsSpace(c)
    ensures RightfulLines(1, lines)
  {
    var all := Snoc(lines, c);
    forall j | 1 <= j < |lines| ensures Rightful(lines[j]) {
      assert Rightful(all[j]);
      if all[j] != lines[j] { RightfulCut(all[j], lines[j], [c]); }
    }
  }

  lemma {:induction false} StripLines(u: string)
    requires RightfulLines(1, Split(u))
    ensures RightfulLines(0, Split(Strip(u)))
  {
    LStripLines(u);
    RStripLines(LStrip(u));
    var a, b := StripParts(u);
    SplitHead(Strip(u));
  }

  lemma {:induction false} TidyKeepsRightful(digit: char -> bool, s: string)
    requires RightfulLines(0, Split(s))
    ensures RightfulLines(0, Split(Tidy(digit, s)))
  {
    var t := Apply(TrailingBlanks, s);
    var lines := Split(Apply(BLANK_LINES, t));
    TrailingLines("", s);
    CollapseThins("", 0, t);
    ThinLines(0, t);
    PassLines(0, Split(s));
    JoinSplit(Apply(BLANK_LINES, t));
    TidyLines(digit, lines);
    TidyEachOneLiners(digit, lines);
    SplitJoin(TidyEach(digit, lines));
    StripLines(Join("\n", TidyEach(digit, lines)));
  }

  // ---- the result --------------------------------------------------------

  /** If no text that begins a line starts with white space, every indented line of cleaned
      HTML starts with the indented marker of an item in a nested list. */
  lemma {:induction false} NestedItemsOnly(digit: char -> bool, es: seq<Event>)
    requires forall k | 0 <= k < |es| :: !TextDents(es, k)
    ensures forall j | 0 <= j < |Split(Cleaning.HtmlToText(digit, es))| ::
      var line := Split(Cleaning.HtmlToText(digit, es))[j];
      TidyIndent.Indented(line) ==> NestedStart(line)
  {
    var parts := Feed(INITIAL, es).parts;
    Cleaning.FeedIsGood(INITIAL, es);
    DocumentStarts(es);
    PartLines(true, parts);
    TidyKeepsRightful(digit, Flatten(parts));
    var lines := Split(Cleaning.HtmlToText(digit, es));
    forall j | 0 <= j < |lines| && TidyIndent.Indented(lines[j]) ensures NestedStart(lines[j]) {
      assert Rightful(lines[j]);
    }
  }
}
