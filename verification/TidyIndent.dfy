/** Which lines of a tidied text are indented: exactly the lines that look like list items
    behind a line with ink. */
module TidyIndent {
  import opened Text
  import opened Rewriting
  import opened Tidying
  import opened LineBreaks

  /** The line starts with white space. */
  predicate Indented(line: string) {
    line != "" && IsSpace(line[0])
  }

  /** Is there, behind a line with ink, a line that looks like an item once its trailing
      spaces and tabs are gone? The last line keeps them. */
  predicate ItemBehind(digit: char -> bool, inked: bool, lines: seq<string>)
    decreases |lines|
  {
    lines != [] &&
    ((inked && IsListItem(digit, if |lines| > 1 then TrimEnd(lines[0]) else lines[0]))
     || ItemBehind(digit, inked || Strip(lines[0]) != "", lines[1..]))
  }

  // ---- what an item looks like -------------------------------------------

  /** A dash, a star, or digits and a dot. */
  ghost predicate IsMark(digit: char -> bool, mark: string) {
    || mark == "-" || mark == "*"
    || (|mark| > 1 && mark[|mark| - 1] == '.' && forall i | 0 <= i < |mark| - 1 :: digit(mark[i]))
  }

  /** White space, a mark, and white space behind it. */
  ghost predicate ItemForm(digit: char -> bool, line: string, a: string, mark: string, c: char, rest: string) {
    line == a + (mark + ([c] + rest)) && a != "" && Blank(a) && IsMark(digit, mark) && IsSpace(c)
  }

  lemma {:induction false} DigitsRun(digit: char -> bool, s: string)
    ensures var d := DigitRun(digit, s);
      (forall i | 0 <= i < d :: digit(s[i])) && (d < |s| ==> !digit(s[d]))
  {
    if s != "" && digit(s[0]) {
      DigitsRun(digit, s[1..]);
      assert forall i | 0 < i < DigitRun(digit, s) :: s[i] == s[1..][i - 1];
    }
  }

  lemma {:induction false} RunOfDigits(digit: char -> bool, n: string, c: char, rest: string)
    requires (forall i | 0 <= i < |n| :: digit(n[i])) && !digit(c)
    ensures DigitRun(digit, n + ([c] + rest)) == |n|
  {
    if n == "" {
      Unit([c] + rest);
    } else {
      DropFirst(n, [c] + rest);
      RunOfDigits(digit, n[1..], c, rest);
    }
  }

  lemma {:induction false} MarkRuns(digit: char -> bool, mark: string, tail: string)
    requires Digits(digit) && !digit('-') && !digit('*') && !digit('.') && IsMark(digit, mark)
    ensures MarkerLength(digit, mark + tail) == |mark| && !IsSpace(mark[0])
  {
    assert (mark + tail)[0] == mark[0];
    if mark != "-" && mark != "*" {
      var n := mark[..|mark| - 1];
      assert mark == n + ['.'] && n[0] == mark[0];
      RunOfDigits(digit, n, '.', tail);
      Assoc(n, ['.'], tail);
    }
  }

  /** The lines that keep their indentation are exactly those of that form. */
  lemma {:induction false} IsListItemIff(digit: char -> bool, line: string)
    requires Digits(digit) && !digit('-') && !digit('*') && !digit('.')
    ensures IsListItem(digit, line)
       <==> exists a: string, mark: string, c: char, rest: string :: ItemForm(digit, line, a, mark, c, rest)
  {
    if IsListItem(digit, line) {
      ItemHasForm(digit, line);
    } else if a: string, mark: string, c: char, rest: string :| ItemForm(digit, line, a, mark, c, rest) {
      FormIsItem(digit, line, a, mark, c, rest);
    }
  }

  lemma {:induction false} FormIsItem(digit: char -> bool, line: string, a: string, mark: string, c: char, rest: string)
    requires Digits(digit) && !digit('-') && !digit('*') && !digit('.') && ItemForm(digit, line, a, mark, c, rest)
    ensures IsListItem(digit, line)
  {
    var tail := mark + ([c] + rest);
    MarkRuns(digit, mark, [c] + rest);
    assert All(Space, a) && tail[0] == mark[0];
    RunOver(Space, a, tail);
    assert Run(Space, tail) == 0;
    assert line[|a|..] == tail && tail[|mark|..] == [c] + rest;
  }

  lemma {:induction false} ItemHasForm(digit: char -> bool, line: string)
    requires IsListItem(digit, line)
    ensures exists a: string, mark: string, c: char, rest: string :: ItemForm(digit, line, a, mark, c, rest)
  {
    var k := Run(Space, line);
    var s := line[k..];
    var n := MarkerLength(digit, s);
    var a, mark, c, rest := line[..k], s[..n], s[n], s[n + 1..];
    MarkFound(digit, s);
    assert s[n..][0] == c;
    assert forall i | 0 <= i < |a| :: InClass(Space, a[i]);
    CutAt(line, k, n);
    assert ItemForm(digit, line, a, mark, c, rest);
  }

  lemma {:induction false} MarkFound(digit: char -> bool, s: string)
    requires MarkerLength(digit, s) > 0
    ensures IsMark(digit, s[..MarkerLength(digit, s)])
  {
    DigitsRun(digit, s);
    var mark := s[..MarkerLength(digit, s)];
    assert |mark| == 1 ==> mark == [s[0]];
  }

  lemma {:induction false} CutAt(line: string, k: nat, n: nat)
    requires k + n < |line|
    ensures var s := line[k..]; line == line[..k] + (s[..n] + ([s[n]] + s[n + 1..]))
  {
  }

  // ---- through the two substitutions -------------------------------------

  /** The same of lines as they are. */
  predicate ItemLines(digit: char -> bool, inked: bool, lines: seq<string>)
    decreases |lines|
  {
    lines != [] &&
    ((inked && IsListItem(digit, lines[0])) || ItemLines(digit, inked || Strip(lines[0]) != "", lines[1..]))
  }

  lemma {:induction false} ItemLinesCons(digit: char -> bool, inked: bool, line: string, rest: seq<string>)
    ensures ItemLines(digit, inked, [line] + rest)
       <==> (inked && IsListItem(digit, line)) || ItemLines(digit, inked || Strip(line) != "", rest)
  {
    assert ([line] + rest)[1..] == rest;
  }

  lemma {:induction false} EmptyIsNoItem(digit: char -> bool)
    ensures !IsListItem(digit, "") && Strip("") == ""
  {
  }

  /** Only empty lines are dropped, and trimming turns no line into a blank one. */
  lemma {:induction false} ItemsPass(digit: char -> bool, inked: bool, c: nat, lines: seq<string>)
    ensures ItemLines(digit, inked, Squash(c, TrimEach(lines))) <==> ItemBehind(digit, inked, lines)
    decreases |lines|
  {
    if |lines| == 1 {
      assert lines[1..] == [];
    } else if |lines| > 1 {
      var t, rest := TrimEnd(lines[0]), TrimEach(lines[1..]);
      TrimEndInk(lines[0]);
      SquashStep(c, lines);
      EmptyIsNoItem(digit);
      if t != "" {
        ItemsPass(digit, inked || Strip(lines[0]) != "", 1, lines[1..]);
        ItemLinesCons(digit, inked, t, Squash(1, rest));
      } else {
        ItemsPass(digit, inked, c + 1, lines[1..]);
        ItemLinesCons(digit, inked, "", Squash(c + 1, rest));
        Unit(Squash(c + 1, rest));
      }
    }
  }

  // ---- through the tidying of lines --------------------------------------

  /** Is there an indented line behind a line with ink? */
  predicate IndentBehind(inked: bool, lines: seq<string>)
    decreases |lines|
  {
    lines != [] && ((inked && Indented(lines[0])) || IndentBehind(inked || Strip(lines[0]) != "", lines[1..]))
  }

  lemma {:induction false} ItemHasInk(digit: char -> bool, line: string)
    requires Digits(digit) && IsListItem(digit, line)
    ensures !Blank(line) && IsSpace(line[0])
  {
    var k := Run(Space, line);
    assert line[k..][0] == line[k] && !IsSpace(line[k]);
    assert line[..k][0] == line[0] && InClass(Space, line[..k][0]);
  }

  /** A tidied line is indented exactly when it was an item. */
  lemma {:induction false} TidiedIndent(digit: char -> bool, line: string)
    requires Digits(digit)
    ensures Indented(TidyLine(digit, line)) <==> IsListItem(digit, line)
    ensures Strip(TidyLine(digit, line)) == "" <==> Strip(line) == ""
  {
    TidyLineBlank(digit, line);
    if IsListItem(digit, line) {
      ItemHasInk(digit, line);
      RStripKeepsHead(line);
    } else {
      var a, b := StripParts(line);
    }
  }

  lemma {:induction false} RStripKeepsHead(line: string)
    requires !Blank(line)
    ensures RStrip(line) != "" && RStrip(line)[0] == line[0]
  {
    var b := RStripParts(line);
    Unit(b);
  }

  lemma {:induction false} TidiedItems(digit: char -> bool, inked: bool, lines: seq<string>)
    requires Digits(digit)
    ensures IndentBehind(inked, TidyEach(digit, lines)) <==> ItemLines(digit, inked, lines)
    decreases |lines|
  {
    if lines != [] {
      TidiedIndent(digit, lines[0]);
      TidiedItems(digit, inked || Strip(lines[0]) != "", lines[1..]);
      assert TidyEach(digit, lines)[1..] == TidyEach(digit, lines[1..]);
    }
  }

  // ---- from lines to characters ------------------------------------------

  /** Reading characters: `start` tells whether a line has just begun, `dented` whether the
      line began with white space behind a line with ink. Does such a line have ink? */
  predicate Dented(inked: bool, start: bool, dented: bool, s: string)
    decreases |s|
  {
    s != "" &&
    if s[0] == '\n' then Dented(inked, true, false, s[1..])
    else if IsSpace(s[0]) then Dented(inked, false, dented || (inked && start), s[1..])
    else dented || Dented(true, false, false, s[1..])
  }

  /** Within a line: what is left of it matters only by its ink. */
  lemma {:induction false} RestDented(inked: bool, dented: bool, line: string, tail: string)
    requires OneLine(line)
    ensures Dented(inked, false, dented, line + "\n" + tail)
       <==> (dented && !Blank(line)) || Dented(inked || !Blank(line), true, false, tail)
    ensures Dented(inked, false, dented, line) <==> dented && !Blank(line)
    decreases |line|
  {
    if line == "" {
      assert line + "\n" + tail == "\n" + tail && ("\n" + tail)[1..] == tail;
    } else {
      assert line == [line[0]] + line[1..];
      BlankCons(line[0], line[1..]);
      assert (line + "\n" + tail)[1..] == line[1..] + "\n" + tail;
      if IsSpace(line[0]) {
        RestDented(inked, dented, line[1..], tail);
      } else {
        RestDented(true, false, line[1..], tail);
      }
    }
  }

  lemma {:induction false} LineDented(inked: bool, line: string, tail: string)
    requires OneLine(line)
    ensures Dented(inked, true, false, line + "\n" + tail)
       <==> (inked && Indented(line) && !Blank(line)) || Dented(inked || !Blank(line), true, false, tail)
    ensures Dented(inked, true, false, line) <==> inked && Indented(line) && !Blank(line)
  {
    if line == "" {
      assert line + "\n" + tail == "\n" + tail && ("\n" + tail)[1..] == tail;
    } else {
      assert line == [line[0]] + line[1..];
      BlankCons(line[0], line[1..]);
      assert (line + "\n" + tail)[1..] == line[1..] + "\n" + tail;
      if IsSpace(line[0]) {
        RestDented(inked, inked, line[1..], tail);
      } else {
        RestDented(true, false, line[1..], tail);
      }
    }
  }

  /** No blank line but the empty one. */
  ghost predicate BlanksAreEmpty(lines: seq<string>) {
    forall i | 0 <= i < |lines| :: Strip(lines[i]) == "" ==> lines[i] == ""
  }

  lemma {:induction false} JoinDented(inked: bool, lines: seq<string>)
    requires OneLiners(lines) && BlanksAreEmpty(lines)
    ensures Dented(inked, true, false, Join("\n", lines)) <==> IndentBehind(inked, lines)
    decreases |lines|
  {
    if lines != [] {
      StripEmptyIsBlank(lines[0]);
      LineDented(inked, lines[0], Join("\n", lines[1..]));
      JoinDented(inked || Strip(lines[0]) != "", lines[1..]);
    }
  }

  lemma {:induction false} LeadingDents(start: bool, a: string, m: string)
    requires Blank(a) && (m == "" || !IsSpace(m[0]))
    ensures Dented(false, start, false, a + m) <==> Dented(false, true, false, m)
    decreases |a|
  {
    if a == "" {
      Unit(m);
    } else {
      DropFirst(a, m);
      LeadingDents(a[0] == '\n', a[1..], m);
    }
  }

  lemma {:induction false} EndingDents(inked: bool, start: bool, dented: bool, m: string, b: string)
    requires Blank(b)
    ensures Dented(inked, start, dented, m + b) <==> Dented(inked, start, dented, m)
    decreases |m|, |b|
  {
    if m != "" {
      DropFirst(m, b);
      if m[0] == '\n' {
        EndingDents(inked, true, false, m[1..], b);
      } else if IsSpace(m[0]) {
        EndingDents(inked, false, dented || (inked && start), m[1..], b);
      } else {
        EndingDents(true, false, false, m[1..], b);
      }
    } else if b != "" {
      Unit(b);
      Unit(b[1..]);
      var space := b[0] != '\n';
      EndingDents(inked, !space, space && (dented || (inked && start)), "", b[1..]);
    }
  }

  // ---- the lines of the stripped text ------------------------------------

  ghost predicate SomeIndented(lines: seq<string>) {
    exists i :: 0 <= i < |lines| && Indented(lines[i])
  }

  lemma {:induction false} SomeCons(line: string, rest: seq<string>)
    ensures SomeIndented([line] + rest) <==> Indented(line) || SomeIndented(rest)
  {
    var all := [line] + rest;
    if Indented(line) { assert Indented(all[0]); }
    if i :| 0 <= i < |rest| && Indented(rest[i]) { assert Indented(all[i + 1]); }
    if i :| 0 <= i < |all| && Indented(all[i]) && i > 0 { assert Indented(rest[i - 1]); }
  }

  lemma {:induction false} BehindInk(lines: seq<string>)
    ensures IndentBehind(true, lines) <==> SomeIndented(lines)
    decreases |lines|
  {
    if lines != [] {
      BehindInk(lines[1..]);
      SomeCons(lines[0], lines[1..]);
      assert [lines[0]] + lines[1..] == lines;
    }
  }

  /** In a trimmed text every indented line is behind a line with ink. */
  lemma {:induction false} TrimmedIndent(m: string)
    requires Trimmed(m)
    ensures IndentBehind(false, Split(m)) <==> SomeIndented(Split(m))
  {
    var lines := Split(m);
    if m == "" {
      StripBlank("");
    } else {
      SplitHead(m);
      assert lines[0] != "" && lines[0][0] == m[0];
      StripEmptyIsBlank(lines[0]);
      BehindInk(lines[1..]);
      SomeCons(lines[0], lines[1..]);
      assert [lines[0]] + lines[1..] == lines;
    }
  }

  lemma {:induction false} ShapelyBlanks(digit: char -> bool, s: string)
    requires Digits(digit) && AllShapely(digit, s)
    ensures BlanksAreEmpty(Split(s))
  {
    forall i | 0 <= i < |Split(s)| && Strip(Split(s)[i]) == "" ensures Split(s)[i] == "" {
      var line := Split(s)[i];
      assert Shapely(digit, line);
      StripEmptyIsBlank(line);
    }
  }

  /** Stripping the joined lines keeps the indented lines behind ink. */
  lemma {:induction false} StrippedIndent(digit: char -> bool, lines: seq<string>)
    requires Digits(digit) && lines != [] && OneLiners(lines) && BlanksAreEmpty(lines)
    requires AllShapely(digit, Strip(Join("\n", lines)))
    ensures SomeIndented(Split(Strip(Join("\n", lines)))) <==> IndentBehind(false, lines)
  {
    var u := Join("\n", lines);
    var a, b := StripParts(u);
    var m := Strip(u);
    JoinDented(false, lines);
    EndingDents(false, true, false, a + m, b);
    LeadingDents(true, a, m);
    JoinSplit(m);
    ShapelyBlanks(digit, m);
    JoinDented(false, Split(m));
    TrimmedIndent(m);
  }

  // ---- the result --------------------------------------------------------

  lemma {:induction false} TidiedBlanks(digit: char -> bool, lines: seq<string>)
    ensures BlanksAreEmpty(TidyEach(digit, lines))
  {
    forall i | 0 <= i < |lines| ensures Strip(TidyEach(digit, lines)[i]) == "" ==> TidyEach(digit, lines)[i] == "" {
      TidyLineBlank(digit, lines[i]);
    }
  }

  /** A tidied text has an indented line exactly when some line behind a line with ink
      looks like an item, its trailing spaces and tabs aside. */
  lemma {:induction false} TidyIndentIff(digit: char -> bool, s: string)
    requires Digits(digit)
    ensures (exists i :: 0 <= i < |Split(Tidy(digit, s))| && Indented(Split(Tidy(digit, s))[i]))
       <==> ItemBehind(digit, false, Split(s))
  {
    var t := Apply(TrailingBlanks, s);
    var lines := Split(Apply(BLANK_LINES, t));
    TrailingLines("", s);
    CollapseThins("", 0, t);
    ThinLines(0, t);
    JoinSplit(Apply(BLANK_LINES, t));
    TidyEachOneLiners(digit, lines);
    TidiedBlanks(digit, lines);
    TidyIsShapely(digit, s);
    StrippedIndent(digit, TidyEach(digit, lines));
    TidiedItems(digit, false, lines);
    ItemsPass(digit, false, 0, Split(s));
  }
}
