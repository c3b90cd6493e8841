/** Which lines of cleaned HTML are indented: nested items, and text that looks like one. */
module Indentation {
  import opened Text
  import opened Rewriting
  import Spacing
  import opened Extraction
  import opened Tidying
  import opened LineBreaks
  import Cleaning

  /** White space other than a newline at the head of a part. */
  predicate Dented(part: string) {
    part != "" && IsSpace(part[0]) && part[0] != '\n'
  }

  /** What an item starts with: a dash, or its number and a dot; 0 stands for the dash. */
  function ItemMark(number: nat): string {
    if number == 0 then "-" else Decimal(number) + "."
  }

  /** The next text begins a line. */
  predicate AtLineStart(parts: seq<string>) {
    parts == [] || parts[|parts| - 1] == "\n" || parts[|parts| - 1] == "\n\n"
  }

  /** The event opens an item inside a nested list, and `part` is the marker of that item. */
  ghost predicate FromNestedItem(st: State, e: Event, part: string) {
    && e == Start("li") && st.skipDepth == 0 && |st.listStack| > 1
    && exists n: nat :: part == Indent(|st.listStack| - 1) + ItemMark(n) + " "
  }

  /** The event is text that starts with white space; where it begins a line, it is not
      blank and not the first part. */
  predicate FromText(st: State, e: Event) {
    && e.Data? && st.skipDepth == 0 && e.data != "" && IsSpace(e.data[0])
    && (AtLineStart(st.parts) ==> st.parts != [] && Strip(e.data) != "")
  }

  /** Where an indented part comes from, one event at a time. */
  lemma {:induction false} StepSource(st: State, e: Event, i: nat)
    requires Valid(st) && |st.parts| <= i < |Step(st, e).parts| && Dented(Step(st, e).parts[i])
    ensures FromNestedItem(st, e, Step(st, e).parts[i]) || (FromText(st, e) && i == |st.parts|)
  {
    match e
    case Start(tag) =>
      var n, added := StartParts(st, tag);
      assert Step(st, e).parts[i] == added[i - |st.parts|];
      if !IsList(tag) { PlainOpening(tag, |st.listStack|, n, i - |st.parts|); }
    case End(tag) =>
    case Data(data) => DataSource(st, data);
  }

  lemma {:induction false} PlainOpening(tag: string, depth: nat, number: nat, i: nat)
    requires var parts := Opening(tag, depth, number > 0, number); i < |parts| && Dented(parts[i])
    ensures tag == "li" && depth > 1
    ensures Opening(tag, depth, number > 0, number)[i] == Indent(depth - 1) + ItemMark(number) + " "
  {
    Cleaning.DecimalIsInk(number);
    Unit(Decimal(number));
    assert Indent(0) == "";
    assert depth > 1;
    var indent := Indent(depth - 1);
    Assoc(indent, "-", " ");
    Assoc(indent, Decimal(number), ".");
    Assoc(indent + Decimal(number), ".", " ");
    assert "-" + " " == "- " && "." + " " == ". ";
  }

  lemma {:induction false} DataSource(st: State, data: string)
    requires Valid(st) && |st.parts| < |Step(st, Data(data)).parts| && Dented(Step(st, Data(data)).parts[|st.parts|])
    ensures FromText(st, Data(data))
  {
    var text := Apply(LAYOUT, data);
    LayoutHead("", data);
    LayoutBlank("", data);
    StripEmptyIsBlank(data);
    StripEmptyIsBlank(text);
    var a := LStripParts(text);
  }

  lemma {:induction false} LayoutHead(before: string, s: string)
    ensures var text := Sub(Rewriter(LAYOUT), before, s);
      (text == "" <==> s == "") && (s != "" ==> (IsSpace(text[0]) <==> IsSpace(s[0])))
  {
    if s != "" {
      var y, z, r := LayoutScan(before, s);
    }
  }

  lemma {:induction false} LayoutScan(before: string, s: string) returns (y: string, z: string, r: string)
    requires s != ""
    ensures s == y + z && y != "" && |r| == 1
    ensures (r[0] == s[0] && |y| == 1) || (All(Layout, y) && r == " ")
    ensures InClass(Layout, s[0]) ==> All(Layout, y) && r == " " && !StartsIn(Layout, z)
    ensures var m := Rewriter(LAYOUT); Sub(m, before, s) == r + Sub(m, before + y, z)
  {
    var m := Rewriter(LAYOUT);
    var hit := Spacing.RunMatch(Layout, 1, " ", before, s, "");
    y, z, r := Spacing.ScanStep(m, before, s, "");
    Unit(s);
    Unit(z);
  }

  lemma {:induction false} LayoutBlank(before: string, s: string)
    ensures Blank(Sub(Rewriter(LAYOUT), before, s)) <==> Blank(s)
    decreases |s|
  {
    if s != "" {
      var y, z, r := LayoutScan(before, s);
      var rest := Sub(Rewriter(LAYOUT), before + y, z);
      LayoutBlank(before + y, z);
      BlankBoth(y, z);
      BlankBoth(r, rest);
    }
  }

  lemma {:induction false} BlankBoth(a: string, b: string)
    ensures Blank(a + b) <==> Blank(a) && Blank(b)
  {
    AllParts(Space, a, b);
    assert Blank(a + b) <==> All(Space, a + b);
    assert Blank(a) <==> All(Space, a);
    assert Blank(b) <==> All(Space, b);
  }

  /** The state that event number `k` meets. */
  function Met(es: seq<Event>, k: nat): (st: State)
    requires k <= |es|
    ensures Valid(st)
  {
    Feed(INITIAL, es[..k])
  }

  /** The event that emitted the part number `i`, and the state it met. */
  ghost predicate Emitted(es: seq<Event>, k: nat, i: nat)
    requires k < |es|
  {
    |Met(es, k).parts| <= i < |Step(Met(es, k), es[k]).parts|
  }

  lemma {:induction false} StepGrows(st: State, e: Event)
    requires Valid(st)
    ensures st.parts <= Step(st, e).parts
  {
  }

  lemma {:induction false} FeedLast(es: seq<Event>, k: nat)
    requires k < |es|
    ensures Met(es, k + 1) == Step(Met(es, k), es[k])
  {
    var st := Met(es, k);
    assert es[..k + 1] == es[..k] + [es[k]];
    FeedConcat(INITIAL, es[..k], [es[k]]);
    StepValid(st, es[k]);
    assert [es[k]] == [es[k]] + [];
    FeedCons(st, es[k], []);
  }

  /** Every part was emitted by one event. */
  lemma {:induction false} PartHasEvent(es: seq<Event>, n: nat, i: nat) returns (k: nat)
    requires n <= |es| && i < |Met(es, n).parts|
    ensures Made(es, k, n, i)
  {
    NothingMet(es);
    if i < |Met(es, n - 1).parts| {
      k := PartHasEvent(es, n - 1, i);
      MadeEarlier(es, k, n, i);
    } else {
      k := n - 1;
      LastStep(es, n, i);
    }
  }

  lemma {:induction false} MadeEarlier(es: seq<Event>, k: nat, n: nat, i: nat)
    requires 0 < n <= |es| && i < |Met(es, n - 1).parts| && Made(es, k, n - 1, i)
    ensures i < |Met(es, n).parts| && Made(es, k, n, i)
  {
    FeedLast(es, n - 1);
    StepGrows(Met(es, n - 1), es[n - 1]);
  }

  /** Of the first `n` events, the one that emitted the part number `i`. */
  ghost predicate Made(es: seq<Event>, k: nat, n: nat, i: nat)
    requires n <= |es| && i < |Met(es, n).parts|
  {
    k < n && Emitted(es, k, i) && Met(es, n).parts[i] == Step(Met(es, k), es[k]).parts[i]
  }

  lemma {:induction false} NothingMet(es: seq<Event>)
    ensures Met(es, 0) == INITIAL
  {
    assert es[..0] == [];
  }

  /** The last of `n` events, as far as one part is concerned. */
  lemma {:induction false} LastStep(es: seq<Event>, n: nat, i: nat)
    requires 0 < n <= |es| && i < |Met(es, n).parts|
    ensures var st, parts := Met(es, n - 1), Met(es, n).parts;
      parts == Step(st, es[n - 1]).parts && (i < |st.parts| ==> parts[i] == st.parts[i])
  {
    FeedLast(es, n - 1);
    StepGrows(Met(es, n - 1), es[n - 1]);
  }

  /** The event number `k` explains why the part number `i` is indented. */
  ghost predicate Source(es: seq<Event>, k: nat, i: nat)
    requires k < |es| && i < |Feed(INITIAL, es).parts|
  {
    var st := Met(es, k);
    FromNestedItem(st, es[k], Feed(INITIAL, es).parts[i]) || (FromText(st, es[k]) && i == |st.parts|)
  }

  /** Every indented part of a document is the marker of an item in a nested list, or comes
      from text that starts with white space. */
  lemma {:induction false} IndentSources(es: seq<Event>, i: nat)
    requires var parts := Feed(INITIAL, es).parts; i < |parts| && Dented(parts[i])
    ensures exists k | 0 <= k < |es| :: Source(es, k, i)
  {
    assert es[..|es|] == es;
    var k := PartHasEvent(es, |es|, i);
    StepSource(Met(es, k), es[k], i);
    assert Source(es, k, i);
  }

  /** Text of single spaces and ink, which the layout rule leaves alone. */
  ghost predicate SingleSpaced(s: string) {
    forall i | 0 <= i < |s| && InClass(Layout, s[i]) :: s[i] == ' ' && (i + 1 < |s| ==> !InClass(Layout, s[i + 1]))
  }

  lemma {:induction false} LayoutKeeps(before: string, s: string)
    requires SingleSpaced(s)
    ensures Sub(Rewriter(LAYOUT), before, s) == s
    decreases |s|
  {
    if s != "" {
      var y, z, r := LayoutStep(before, s);
      LayoutKeeps(before + y, z);
      assert [s[0]] + z == s;
    }
  }

  lemma {:induction false} SingleRun(s: string)
    requires SingleSpaced(s) && s != ""
    ensures Run(Layout, s) == if InClass(Layout, s[0]) then 1 else 0
    ensures SingleSpaced(s[1..])
  {
    if |s| > 1 && InClass(Layout, s[0]) { RunStops(Layout, s, 1); }
    forall i | 0 <= i < |s[1..]| && InClass(Layout, s[1..][i])
      ensures s[1..][i] == ' ' && (i + 1 < |s[1..]| ==> !InClass(Layout, s[1..][i + 1]))
    {
      assert s[1..][i] == s[i + 1];
    }
  }

  lemma {:induction false} LayoutStep(before: string, s: string) returns (y: string, z: string, r: string)
    requires SingleSpaced(s) && s != ""
    ensures y == s[..1] && z == s[1..] && r == [s[0]] && SingleSpaced(z)
    ensures var m := Rewriter(LAYOUT); Sub(m, before, s) == r + Sub(m, before + y, z)
  {
    var m := Rewriter(LAYOUT);
    LayoutMatch(before, s);
    y, z, r := Spacing.ScanStep(m, before, s, "");
    Unit(s);
    Unit(z);
    assert z == s[1..] && s[..1] == [s[0]];
    SingleRun(s);
  }

  lemma {:induction false} LayoutMatch(before: string, s: string)
    requires SingleSpaced(s) && s != ""
    ensures Rewriter(LAYOUT)(before, s + "") == if InClass(Layout, s[0]) then Match(1, " ") else NoMatch
  {
    SingleRun(s);
    Unit(s);
  }

  lemma {:induction false} TextStep(st: State, data: string)
    requires Valid(st) && st.skipDepth == 0 && SingleSpaced(data) && Strip(data) != ""
        && (st.parts == [] ==> LStrip(data) == data)
    ensures Step(st, Data(data)) == st.(parts := st.parts + [data])
  {
    LayoutKeeps("", data);
  }

  /** Two texts with a break between them are the parts of their document. */
  lemma {:induction false} TwoTexts(a: string, b: string)
    requires SingleSpaced(a) && SingleSpaced(b) && Strip(a) != "" && LStrip(a) == a && Strip(b) != ""
    ensures Feed(INITIAL, [Data(a), Start("br"), Data(b)]).parts == [a] + ["\n"] + [b]
  {
    var x, y, z := Data(a), Start("br"), Data(b);
    TextStep(INITIAL, a);
    var s := Step(INITIAL, x);
    BreakStep(s);
    TextStep(Step(s, y), b);
    FeedThree(INITIAL, x, y, z);
  }

  lemma {:induction false} BreakStep(st: State)
    requires Valid(st) && st.skipDepth == 0
    ensures Step(st, Start("br")) == st.(parts := st.parts + ["\n"])
  {
  }

  lemma {:induction false} FeedThree(st: State, x: Event, y: Event, z: Event)
    requires Valid(st) && Valid(Step(st, x)) && Valid(Step(Step(st, x), y))
    ensures Feed(st, [x, y, z]) == Step(Step(Step(st, x), y), z)
  {
    assert [x, y, z] == [x] + [y, z] && [y, z] == [y] + [z] && [z] == [z] + [];
    FeedCons(st, x, [y, z]);
    FeedCons(Step(st, x), y, [z]);
    FeedCons(Step(Step(st, x), y), z, []);
  }

  lemma {:induction false} FeedCons(st: State, e: Event, es: seq<Event>)
    requires Valid(st)
    ensures Valid(Step(st, e)) && Feed(st, [e] + es) == Feed(Step(st, e), es)
  {
    assert ([e] + es)[1..] == es;
    StepValid(st, e);
  }

  /** Two tidy lines pass the substitutions as they are, ... */
  lemma {:induction false} TwoLinesPass(a: string, b: string)
    requires OneLine(a) && OneLine(b) && a != "" && TrimEnd(a) == a
    ensures Split(Apply(BLANK_LINES, Apply(TrailingBlanks, a + "\n" + b))) == [a, b]
  {
    var s := a + "\n" + b;
    var t := Apply(TrailingBlanks, s);
    SplitCons(a, b);
    SplitCons(b, "");
    assert Split(s) == [a, b] && [a, b][1..] == [b];
    TrailingLines("", s);
    CollapseThins("", 0, t);
    ThinLines(0, t);
    assert TrimEach([a, b]) == [a, b] && Squash(0, [a, b]) == [a, b];
  }

  /** ... and the text stays as it is. */
  lemma {:induction false} TwoLines(digit: char -> bool, a: string, b: string)
    requires OneLine(a) && OneLine(b) && a != "" && TrimEnd(a) == a
    requires TidyLine(digit, a) == a && TidyLine(digit, b) == b && Trimmed(a + "\n" + b)
    ensures Tidy(digit, a + "\n" + b) == a + "\n" + b
  {
    TwoLinesPass(a, b);
    TidyTwo(digit, a, b);
  }

  lemma {:induction false} TidyTwo(digit: char -> bool, a: string, b: string)
    requires TidyLine(digit, a) == a && TidyLine(digit, b) == b && Trimmed(a + "\n" + b)
    ensures Strip(Join("\n", TidyEach(digit, [a, b]))) == a + "\n" + b
  {
    assert [a, b][1..] == [b] && TidyEach(digit, [a, b]) == [a, b];
    StripUnique("", a + "\n" + b, "");
    Unit(a + "\n" + b);
  }

  lemma {:induction false} FlattenThree(a: string, b: string, c: string)
    ensures Flatten([a] + [b] + [c]) == a + b + c
  {
    assert [a] + [b] + [c] == [a] + ([b] + ([c] + []));
    FlattenCons(a, [b] + ([c] + []));
    FlattenCons(b, [c] + []);
    FlattenCons(c, []);
    Unit(c);
    Assoc(a, b, c);
  }

  lemma {:induction false} FlattenCons(a: string, rest: seq<string>)
    ensures Flatten([a] + rest) == a + Flatten(rest)
  {
    assert ([a] + rest)[1..] == rest;
  }

  /** A line that looks like an item keeps its indentation without any list. */
  lemma {:induction false} DashSurvives(digit: char -> bool, a: string, rest: string)
    requires |a| == 1 && !IsSpace(a[0]) && SingleSpaced(" " + rest) && OneLine(rest)
    requires |rest| > 2 && rest[0] == '-' && rest[1] == ' ' && !IsSpace(rest[|rest| - 1])
    ensures Cleaning.HtmlToText(digit, [Data(a), Start("br"), Data(" " + rest)]) == a + "\n" + (" " + rest)
  {
    var line := " " + rest;
    StripOfLine(a);
    StripOfDash(rest);
    TwoTexts(a, line);
    FlattenThree(a, "\n", line);
    DashLines(digit, a, rest);
  }

  lemma {:induction false} DashLines(digit: char -> bool, a: string, rest: string)
    requires |a| == 1 && !IsSpace(a[0]) && OneLine(rest)
    requires |rest| > 2 && rest[0] == '-' && rest[1] == ' ' && !IsSpace(rest[|rest| - 1])
    ensures Tidy(digit, a + "\n" + (" " + rest)) == a + "\n" + (" " + rest)
  {
    StripOfLine(a);
    DashIsItem(digit, " " + rest, rest);
    TwoLines(digit, a, " " + rest);
  }

  lemma {:induction false} StripOfDash(rest: string)
    requires rest != "" && Trimmed(rest)
    ensures Strip(" " + rest) != ""
  {
    StripUnique(" ", rest, "");
    Unit(" " + rest);
  }

  lemma {:induction false} StripOfLine(a: string)
    requires |a| == 1 && !IsSpace(a[0])
    ensures Strip(a) == a && LStrip(a) == a && Run(Space, a) == 0 && TrimEnd(a) == a && SingleSpaced(a) && OneLine(a)
  {
    StripUnique("", a, "");
    Unit(a);
    assert a[1..] == "" && [a[0]] + "" == a;
  }

  /** The text of `x<br> - b` keeps the space before the dash. */
  lemma {:induction false} TextCanBeIndented(digit: char -> bool, rest: string)
    requires rest == "- b"
    ensures Cleaning.HtmlToText(digit, [Data("x"), Start("br"), Data(" " + rest)]) == "x" + "\n" + (" " + rest)
  {
    DashSurvives(digit, "x", rest);
  }

  lemma {:induction false} DashIsItem(digit: char -> bool, line: string, rest: string)
    requires |rest| > 2 && rest[0] == '-' && rest[1] == ' ' && !IsSpace(rest[|rest| - 1]) && line == " " + rest
    ensures TidyLine(digit, line) == line
  {
    assert line[1..] == rest && rest[1..][0] == ' ';
    assert Run(Space, rest) == 0 && Run(Space, line) == 1;
    assert MarkerLength(digit, rest) == 1;
    assert line[|line| - 1] == rest[|rest| - 1];
  }
}
