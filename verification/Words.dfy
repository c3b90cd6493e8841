/** Cleaning a body keeps its words, in their order: it glues no two together and parts none. */
module Words {
  import opened Text
  import opened Rewriting
  import opened Extraction
  import opened Tidying
  import opened LineBreaks
  import Cleaning
  import Bodies
  import Indentation

  /** Where a reader of words stands: before the first, inside one, or behind one. */
  datatype Place = Before | Inside | Behind

  /** `" ".join(s.split())`, read on from a place: the words with one space in between. */
  function Folded(p: Place, s: string): string
    decreases |s|
  {
    if s == "" then ""
    else if IsSpace(s[0]) then Folded(Pause(p), s[1..])
    else (if p.Behind? then " " else "") + [s[0]] + Folded(Inside, s[1..])
  }

  function Pause(p: Place): Place { if p.Inside? then Behind else p }

  function Reached(p: Place, s: string): Place
    decreases |s|
  {
    if s == "" then p else Reached(if IsSpace(s[0]) then Pause(p) else Inside, s[1..])
  }

  /** The words of a text, parted by single spaces. */
  function WordsOf(s: string): string { Folded(Before, s) }

  lemma {:induction false} FoldedConcat(p: Place, a: string, b: string)
    ensures Folded(p, a + b) == Folded(p, a) + Folded(Reached(p, a), b)
    ensures Reached(p, a + b) == Reached(Reached(p, a), b)
    decreases |a|
  {
    if a == "" {
      Unit(b);
      Unit(Folded(p, b));
    } else {
      var q := if IsSpace(a[0]) then Pause(p) else Inside;
      DropFirst(a, b);
      FoldedConcat(q, a[1..], b);
      Assoc((if p.Behind? then " " else "") + [a[0]], Folded(q, a[1..]), Folded(Reached(p, a), b));
    }
  }

  lemma {:induction false} FoldedBlank(p: Place, s: string)
    requires Blank(s)
    ensures Folded(p, s) == "" && Reached(p, s) == if s == "" then p else Pause(p)
    decreases |s|
  {
    if s != "" {
      assert forall i | 0 <= i < |s[1..]| :: s[1..][i] == s[i + 1];
      FoldedBlank(Pause(p), s[1..]);
    }
  }

  /** Blanks at the end of a line, or at its beginning, are no part of a word. */
  lemma {:induction false} FoldedLine(p: Place, a: string, m: string, b: string)
    requires Blank(a) && Blank(b) && (a != "" ==> Pause(p) == p)
    ensures Folded(p, a + m + b) == Folded(p, m)
    ensures Pause(Reached(p, a + m + b)) == Pause(Reached(p, m))
  {
    FoldedConcat(p, a + m, b);
    FoldedConcat(p, a, m);
    FoldedBlank(p, a);
    FoldedBlank(Reached(p, m), b);
    Unit(Folded(p, m));
  }

  // ---- the passes of `_tidy` ---------------------------------------------

  lemma {:induction false} FoldedJoin(p: Place, line: string, rest: seq<string>)
    requires rest != []
    ensures Folded(p, Join("\n", [line] + rest))
         == Folded(p, line) + Folded(Pause(Reached(p, line)), Join("\n", rest))
  {
    var q, s := Reached(p, line), Join("\n", rest);
    assert ([line] + rest)[1..] == rest;
    FoldedConcat(p, line + "\n", s);
    FoldedConcat(p, line, "\n");
    FoldedBlank(q, "\n");
    Unit(Folded(p, line));
  }

  lemma {:induction false} TrimKeeps(p: Place, lines: seq<string>)
    requires lines != []
    ensures Folded(p, Join("\n", TrimEach(lines))) == Folded(p, Join("\n", lines))
    decreases |lines|
  {
    if |lines| > 1 {
      var t := TrimEnd(lines[0]);
      var b := TrimEndParts(lines[0]);
      Unit(t);
      FoldedLine(p, "", t, b);
      TrimKeeps(Pause(Reached(p, t)), lines[1..]);
      FoldedJoin(p, t, TrimEach(lines[1..]));
      FoldedJoin(p, lines[0], lines[1..]);
      assert [lines[0]] + lines[1..] == lines;
    }
  }

  lemma {:induction false} SquashKeeps(p: Place, c: nat, lines: seq<string>)
    requires lines != [] && Pause(p) == p
    ensures Folded(p, Join("\n", Squash(c, lines))) == Folded(p, Join("\n", lines))
    decreases |lines|
  {
    if |lines| > 1 {
      var line, rest := lines[0], lines[1..];
      var next := if line != "" then 1 else c + 1;
      SquashKeeps(Pause(Reached(p, line)), next, rest);
      FoldedJoin(p, line, rest);
      FoldedJoin(p, line, Squash(next, rest));
      Unit(Squash(next, rest));
      Unit(Folded(p, Join("\n", rest)));
      assert [line] + rest == lines;
    }
  }

  lemma {:induction false} TidyLineKeeps(digit: char -> bool, p: Place, line: string)
    requires Pause(p) == p
    ensures Folded(p, TidyLine(digit, line)) == Folded(p, line)
    ensures Pause(Reached(p, TidyLine(digit, line))) == Pause(Reached(p, line))
  {
    if IsListItem(digit, line) {
      var b := RStripParts(line);
      Unit(RStrip(line));
      FoldedLine(p, "", RStrip(line), b);
    } else {
      var a, b := StripParts(line);
      FoldedLine(p, a, Strip(line), b);
    }
  }

  lemma {:induction false} TidyEachKeeps(digit: char -> bool, p: Place, lines: seq<string>)
    requires lines != [] && Pause(p) == p
    ensures Folded(p, Join("\n", TidyEach(digit, lines))) == Folded(p, Join("\n", lines))
    decreases |lines|
  {
    TidyLineKeeps(digit, p, lines[0]);
    assert [lines[0]] + lines[1..] == lines;
    if |lines| > 1 {
      var t := TidyLine(digit, lines[0]);
      TidyEachKeeps(digit, Pause(Reached(p, t)), lines[1..]);
      FoldedJoin(p, t, TidyEach(digit, lines[1..]));
      FoldedJoin(p, lines[0], lines[1..]);
    }
  }

  /** Tidying a text keeps its words. */
  lemma {:induction false} TidyKeepsWords(digit: char -> bool, s: string)
    ensures WordsOf(Tidy(digit, s)) == WordsOf(s)
  {
    var t := Apply(TrailingBlanks, s);
    var u := Apply(BLANK_LINES, t);
    TrailingLines("", s);
    CollapseThins("", 0, t);
    ThinLines(0, t);
    JoinSplit(s);
    JoinSplit(t);
    JoinSplit(u);
    TrimKeeps(Before, Split(s));
    SquashKeeps(Before, 0, Split(t));
    TidyEachKeeps(digit, Before, Split(u));
    StripKeeps(Join("\n", TidyEach(digit, Split(u))));
  }

  lemma {:induction false} StripKeeps(s: string)
    ensures WordsOf(Strip(s)) == WordsOf(s)
  {
    var a, b := StripParts(s);
    FoldedLine(Before, a, Strip(s), b);
  }

  // ---- plain bodies ------------------------------------------------------

  lemma {:induction false} UnixKeeps(p: Place, body: string)
    ensures Folded(p, Cleaning.UnixLines(body)) == Folded(p, body)
    decreases |body|
  {
    if body != "" {
      if |body| > 1 && body[0] == '\r' && body[1] == '\n' {
        UnixKeeps(Pause(p), body[2..]);
        assert body[1..][1..] == body[2..] && body[1..][0] == '\n';
        DropFirst("\n", Cleaning.UnixLines(body[2..]));
      } else {
        UnixKeeps(if IsSpace(body[0]) then Pause(p) else Inside, body[1..]);
        DropFirst([body[0]], Cleaning.UnixLines(body[1..]));
        assert [body[0]][1..] == "" && "" + Cleaning.UnixLines(body[1..]) == Cleaning.UnixLines(body[1..]);
      }
    }
  }

  /** A body without a tag is cleaned to a text with exactly its words. */
  lemma {:induction false} PlainKeepsWords(digit: char -> bool, tokenize: Cleaning.Tokenizer, body: string)
    requires !Bodies.HoldsTag(body)
    ensures WordsOf(Cleaning.Clean(digit, tokenize, body)) == WordsOf(body)
  {
    Bodies.LooksLikeHtmlIff(body);
    if body != "" {
      TidyKeepsWords(digit, Cleaning.UnixLines(body));
      UnixKeeps(Before, body);
    }
  }

  // ---- HTML bodies -------------------------------------------------------

  /** What an event brings to the text: its data as it stands outside skipped regions, or
      the line breaks and the marker of its tag. */
  function Brings(st: State, e: Event): string
    requires Valid(st)
  {
    if e.Data? then (if st.skipDepth > 0 then "" else e.data)
    else
      Indentation.StepGrows(st, e);
      Flatten(Step(st, e).parts[|st.parts|..])
  }

  function Verbatim(st: State, es: seq<Event>): string
    requires Valid(st)
    decreases |es|
  {
    if es == [] then "" else StepValid(st, es[0]); Brings(st, es[0]) + Verbatim(Step(st, es[0]), es[1..])
  }

  /** The same words, and the same place behind them. */
  predicate Alike(a: string, b: string) {
    Folded(Before, a) == Folded(Before, b) && Reached(Before, a) == Reached(Before, b)
  }

  lemma {:induction false} AlikeAppend(a: string, b: string, x: string, y: string)
    requires Alike(a, b) && Folded(Reached(Before, a), x) == Folded(Reached(Before, a), y)
    requires Reached(Reached(Before, a), x) == Reached(Reached(Before, a), y)
    ensures Alike(a + x, b + y)
  {
    FoldedConcat(Before, a, x);
    FoldedConcat(Before, b, y);
  }

  lemma {:induction false} LayoutFolds(p: Place, before: string, s: string)
    ensures var text := Sub(Rewriter(LAYOUT), before, s);
      Folded(p, text) == Folded(p, s) && Reached(p, text) == Reached(p, s)
    decreases |s|
  {
    if s != "" {
      var y, z, r := Indentation.LayoutScan(before, s);
      var rest := Sub(Rewriter(LAYOUT), before + y, z);
      SameStep(p, s[0], y, r);
      LayoutFolds(Reached(p, y), before + y, z);
      FoldedConcat(p, y, z);
      FoldedConcat(p, r, rest);
    }
  }

  /** The text without spaces, tabs and line ends. */
  function Solid(s: string): string {
    if s == "" then ""
    else (if s[0] == ' ' || s[0] == '\t' || s[0] == '\r' || s[0] == '\n' then "" else [s[0]]) + Solid(s[1..])
  }

  lemma {:induction false} SolidConcat(a: string, b: string)
    ensures Solid(a + b) == Solid(a) + Solid(b)
  {
    if a == "" {
      Unit(b);
      Unit(Solid(b));
    } else {
      var h := if a[0] == ' ' || a[0] == '\t' || a[0] == '\r' || a[0] == '\n' then "" else [a[0]];
      DropFirst(a, b);
      SolidConcat(a[1..], b);
      Assoc(h, Solid(a[1..]), Solid(b));
    }
  }

  lemma {:induction false} SolidOfLayout(s: string)
    requires All(Layout, s)
    ensures Solid(s) == ""
  {
    if s != "" {
      assert InClass(Layout, s[0]) && s == [s[0]] + s[1..];
      AllParts(Layout, [s[0]], s[1..]);
      SolidOfLayout(s[1..]);
    }
  }

  /** Single spaces, and no tabs or line ends. */
  ghost predicate Collapsed(t: string) {
    && (forall i | 0 <= i < |t| :: t[i] != '\t' && t[i] != '\r' && t[i] != '\n')
    && forall i | 0 <= i < |t| - 1 :: !(t[i] == ' ' && t[i + 1] == ' ')
  }

  /** What data is emitted as: every run of spaces, tabs and line ends is one space, and
      all other characters are kept in order. */
  lemma {:induction false} LayoutCollapses(s: string)
    ensures var t := Apply(LAYOUT, s);
      && Collapsed(t) && Solid(t) == Solid(s)
      && (s != "" ==> t != "" && (t[0] == ' ' <==> s[0] == ' ' || s[0] == '\t' || s[0] == '\r' || s[0] == '\n'))
  {
    CollapsesFrom("", s);
  }

  lemma {:induction false} CollapsesFrom(before: string, s: string)
    ensures var t := Sub(Rewriter(LAYOUT), before, s);
      && Collapsed(t) && Solid(t) == Solid(s)
      && (s != "" ==> t != "" && (t[0] == ' ' <==> s[0] == ' ' || s[0] == '\t' || s[0] == '\r' || s[0] == '\n'))
    decreases |s|
  {
    if s != "" {
      var y, z, r := Indentation.LayoutScan(before, s);
      var rest := Sub(Rewriter(LAYOUT), before + y, z);
      CollapsesFrom(before + y, z);
      SolidConcat(y, z);
      SolidConcat(r, rest);
      if InClass(Layout, s[0]) {
        SolidOfLayout(y);
        SolidOfLayout(r);
      } else {
        assert y == r;
      }
      CollapsedCons(r, rest);
    }
  }

  lemma {:induction false} CollapsedCons(r: string, rest: string)
    requires |r| == 1 && Collapsed(r) && Collapsed(rest) && (r == " " && rest != "" ==> rest[0] != ' ')
    ensures Collapsed(r + rest)
  {
    var t := r + rest;
    forall i | 0 <= i < |t| - 1 ensures !(t[i] == ' ' && t[i + 1] == ' ') {
      if i > 0 { assert t[i] == rest[i - 1] && t[i + 1] == rest[i]; }
    }
  }

  lemma {:induction false} SameStep(p: Place, c: char, y: string, r: string)
    requires y != "" && c == y[0] && |r| == 1 && ((r[0] == c && |y| == 1) || (All(Layout, y) && r == " "))
    ensures Folded(p, y) == Folded(p, r) && Reached(p, y) == Reached(p, r)
  {
    if |y| == 1 && r[0] == c {
      assert y == r;
    } else {
      forall i | 0 <= i < |y| ensures IsSpace(y[i]) { assert InClass(Layout, y[i]); }
      FoldedBlank(p, y);
      FoldedBlank(p, r);
    }
  }

  lemma {:induction false} FlattenConcat(a: seq<string>, b: seq<string>)
    ensures Flatten(a + b) == Flatten(a) + Flatten(b)
  {
    if a == [] {
      Unit(b);
      Unit(Flatten(b));
    } else {
      DropFirst(a, b);
      FlattenConcat(a[1..], b);
      Assoc(a[0], Flatten(a[1..]), Flatten(b));
    }
  }

  lemma {:induction false} FlattenSnoc(parts: seq<string>, p: string)
    ensures Flatten(parts + [p]) == Flatten(parts) + p
  {
    FlattenConcat(parts, [p]);
    assert [p][1..] == [];
    Unit(p);
  }

  lemma {:induction false} PausedAtEnd(p: Place, s: string)
    requires s != "" && IsSpace(s[|s| - 1])
    ensures Pause(Reached(p, s)) == Reached(p, s)
  {
    var a, c := s[..|s| - 1], s[|s| - 1..];
    assert s == a + c && c[1..] == "" && c[0] == s[|s| - 1];
    FoldedConcat(p, a, c);
  }

  lemma {:induction false} BlankEnd(parts: seq<string>)
    requires parts != [] && EndsBlank(parts[|parts| - 1])
    ensures Pause(Reached(Before, Flatten(parts))) == Reached(Before, Flatten(parts))
  {
    var a, p := parts[..|parts| - 1], parts[|parts| - 1];
    assert parts == a + [p];
    FlattenSnoc(a, p);
    FoldedConcat(Before, Flatten(a), p);
    PausedAtEnd(Reached(Before, Flatten(a)), p);
  }

  /** Data keeps its words, whether its blanks are kept, shortened or dropped. */
  lemma {:induction false} DataKeeps(parts: seq<string>, v: string, data: string)
    requires Alike(Flatten(parts), v)
    ensures Alike(Flatten(WithData(parts, data)), v + data)
  {
    var f, text := Flatten(parts), Apply(LAYOUT, data);
    var p := Reached(Before, f);
    LayoutFolds(p, "", data);
    Indentation.LayoutBlank("", data);
    Indentation.LayoutHead("", data);
    StripEmptyIsBlank(text);
    if Strip(text) == "" {
      FoldedBlank(p, data);
      FoldedBlank(p, " ");
      if parts != [] && EndsBlank(parts[|parts| - 1]) { BlankEnd(parts); }
      BlankKeeps(parts, v, data, text);
    } else {
      InkKeeps(parts, v, data, text);
    }
  }

  lemma {:induction false} InkKeeps(parts: seq<string>, v: string, data: string, text: string)
    requires Alike(Flatten(parts), v)
    requires var p := Reached(Before, Flatten(parts));
      Folded(p, text) == Folded(p, data) && Reached(p, text) == Reached(p, data)
    ensures Alike(Flatten(parts + [if parts != [] then text else LStrip(text)]), v + data)
  {
    var x := if parts != [] then text else LStrip(text);
    FlattenSnoc(parts, x);
    if parts == [] {
      var a := LStripParts(text);
      FoldedConcat(Before, a, x);
      FoldedBlank(Before, a);
      Unit(Folded(Before, x));
    }
    AlikeAppend(Flatten(parts), v, x, data);
  }

  lemma {:induction false} BlankKeeps(parts: seq<string>, v: string, data: string, text: string)
    requires Alike(Flatten(parts), v) && (text == "" <==> data == "")
    requires var p := Reached(Before, Flatten(parts));
      Folded(p, data) == "" && Reached(p, data) == (if data == "" then p else Pause(p))
      && Folded(p, " ") == "" && Reached(p, " ") == Pause(p)
      && (parts != [] && EndsBlank(parts[|parts| - 1]) ==> Pause(p) == p)
    ensures var emits := text != "" && parts != [] && !EndsBlank(parts[|parts| - 1]);
      Alike(Flatten(if emits then parts + [" "] else parts), v + data)
  {
    FlattenSnoc(parts, " ");
    Unit(Flatten(parts));
    if text != "" && parts != [] && !EndsBlank(parts[|parts| - 1]) {
      AlikeAppend(Flatten(parts), v, " ", data);
    } else {
      AlikeAppend(Flatten(parts), v, "", data);
    }
  }

  lemma {:induction false} StepKeeps(st: State, v: string, e: Event)
    requires Valid(st) && Alike(Flatten(st.parts), v)
    ensures Alike(Flatten(Step(st, e).parts), v + Brings(st, e))
  {
    Unit(v);
    if e.Data? {
      if st.skipDepth == 0 { DataKeeps(st.parts, v, e.data); }
    } else {
      Indentation.StepGrows(st, e);
      var parts := Step(st, e).parts;
      var added := parts[|st.parts|..];
      assert parts == st.parts + added;
      FlattenConcat(st.parts, added);
      AlikeAppend(Flatten(st.parts), v, Flatten(added), Flatten(added));
    }
  }

  lemma {:induction false} FeedKeeps(st: State, v: string, es: seq<Event>)
    requires Valid(st) && Alike(Flatten(st.parts), v)
    ensures Alike(Flatten(Feed(st, es).parts), v + Verbatim(st, es))
    decreases |es|
  {
    if es == [] {
      Unit(v);
    } else {
      StepKeeps(st, v, es[0]);
      StepValid(st, es[0]);
      FeedKeeps(Step(st, es[0]), v + Brings(st, es[0]), es[1..]);
      Assoc(v, Brings(st, es[0]), Verbatim(Step(st, es[0]), es[1..]));
    }
  }

  /** Cleaned HTML has exactly the words of its data outside skipped regions and of its
      markers, parted where the data or a line break parts them, and nowhere else. */
  lemma {:induction false} HtmlKeepsWords(digit: char -> bool, es: seq<Event>)
    ensures WordsOf(Cleaning.HtmlToText(digit, es)) == WordsOf(Verbatim(INITIAL, es))
  {
    FeedKeeps(INITIAL, "", es);
    Unit(Verbatim(INITIAL, es));
    TidyKeepsWords(digit, Flatten(Feed(INITIAL, es).parts));
  }
}
