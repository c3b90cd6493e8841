/** When a tidied text has two blank lines in a row: exactly when the text has a run of
    blank lines, not the first and not the last, that has two lines or more and in it
    white space other than spaces and tabs. */
module LineBreaks {
  import opened Text
  import opened Rewriting
  import Spacing
  import opened Tidying

  /** No three consecutive newlines. */
  ghost predicate NoTriple(s: string) {
    forall i | 0 <= i < |s| - 2 :: !(s[i] == '\n' && s[i + 1] == '\n' && s[i + 2] == '\n')
  }

  /** The line without its trailing spaces and tabs. */
  function TrimEnd(line: string): string {
    if line == "" then ""
    else
      var rest := TrimEnd(line[1..]);
      if rest == "" && InClass(Trailing, line[0]) then "" else [line[0]] + rest
  }

  /** Reading lines after `blanks` blank ones, of which some are `exotic`; `inked` tells
      whether any line before them had ink. Is there, between two lines with ink, a run
      of two or more blank lines, one of them with more than spaces and tabs? */
  predicate Crowded(inked: bool, blanks: nat, exotic: bool, lines: seq<string>)
    decreases |lines|
  {
    lines != [] &&
    if Strip(lines[0]) == "" then Crowded(inked, blanks + 1, exotic || TrimEnd(lines[0]) != "", lines[1..])
    else (inked && blanks >= 2 && exotic) || Crowded(true, 0, false, lines[1..])
  }

  // ---- trailing blanks, line by line -------------------------------------

  function TrimEach(lines: seq<string>): (r: seq<string>)
    ensures lines != [] ==> r != []
  {
    if |lines| <= 1 then lines else [TrimEnd(lines[0])] + TrimEach(lines[1..])
  }

  lemma {:induction false} TrimEndBlank(line: string)
    ensures TrimEnd(line) == "" <==> All(Trailing, line)
  {
    if line != "" {
      TrimEndBlank(line[1..]);
      assert line == [line[0]] + line[1..];
      AllParts(Trailing, [line[0]], line[1..]);
      assert All(Trailing, [line[0]]) <==> InClass(Trailing, line[0]);
    }
  }

  /** What is trimmed is spaces and tabs, and all that stand at the end. */
  lemma {:induction false} TrimEndExactly(line: string)
    ensures var m := TrimEnd(line);
      && m <= line && (forall i | |m| <= i < |line| :: line[i] == ' ' || line[i] == '\t')
      && (m != "" ==> m[|m| - 1] != ' ' && m[|m| - 1] != '\t')
  {
    if line != "" {
      TrimEndExactly(line[1..]);
      assert line == [line[0]] + line[1..];
    }
  }

  lemma {:induction false} TrimEndParts(line: string) returns (b: string)
    ensures line == TrimEnd(line) + b && Blank(b)
  {
    b := "";
    if line != "" {
      var t := TrimEndParts(line[1..]);
      assert line == [line[0]] + line[1..];
      BlankCons(line[0], t);
      b := if TrimEnd(line) == "" then [line[0]] + t else t;
    }
  }

  lemma {:induction false} SplitHead(s: string)
    ensures var lines := Split(s);
      OneLine(lines[0]) && s == if |lines| == 1 then lines[0] else lines[0] + "\n" + Join("\n", lines[1..])
  {
    JoinSplit(s);
  }

  lemma {:induction false} SplitBreak(s: string)
    ensures Split("\n" + s) == [""] + Split(s)
  {
    assert ("\n" + s)[1..] == s;
  }

  lemma {:induction false} SplitChar(c: char, s: string)
    requires c != '\n'
    ensures Split([c] + s) == [[c] + Split(s)[0]] + Split(s)[1..]
  {
    assert ([c] + s)[1..] == s;
  }

  /** A line of blanks in front of a newline matches. */
  lemma {:induction false} BlankLineMatches(s: string)
    requires s != "" && InClass(Trailing, s[0]) && |Split(s)| > 1 && All(Trailing, Split(s)[0])
    ensures TrailingAt(s).Match?
  {
    SplitHead(s);
    var line, rest := Split(s)[0], Join("\n", Split(s)[1..]);
    Assoc(line, "\n", rest);
    RunToBreak(s, line, "\n" + rest);
  }

  lemma {:induction false} RunToBreak(s: string, line: string, rest: string)
    requires s == line + rest && All(Trailing, line) && StartsIn(Newline, rest)
    requires s != "" && InClass(Trailing, s[0])
    ensures TrailingAt(s).Match?
  {
    RunOver(Trailing, line, rest);
    assert s[|line|] == rest[0];
  }

  lemma {:induction false} MatchIsBlankLine(s: string, k: nat)
    requires TrailingAt(s).Match? && k == Run(Trailing, s)
    ensures k < |s| && Split(s) == [s[..k]] + Split(s[k + 1..]) && TrimEnd(s[..k]) == ""
  {
    BlankThenBreak(s[..k], s[k + 1..]);
    BreakAt(s, k);
  }

  lemma {:induction false} BreakAt(s: string, k: nat)
    requires k < |s| && s[k] == '\n'
    ensures s == s[..k] + "\n" + s[k + 1..]
  {
  }

  lemma {:induction false} BlankThenBreak(line: string, rest: string)
    requires All(Trailing, line)
    ensures Split(line + "\n" + rest) == [line] + Split(rest) && TrimEnd(line) == ""
  {
    forall i | 0 <= i < |line| ensures line[i] != '\n' { assert InClass(Trailing, line[i]); }
    SplitCons(line, rest);
    TrimEndBlank(line);
  }

  /** The first pass trims every line that a newline ends. */
  lemma {:induction false} TrailingLines(before: string, s: string)
    ensures Split(Sub(Rewriter(TrailingBlanks), before, s)) == TrimEach(Split(s))
    decreases |s|
  {
    if s != "" {
      var y, z, c := TrailingStep(before, s);
      var out := Sub(Rewriter(TrailingBlanks), before + y, z);
      TrailingLines(before + y, z);
      if TrailingAt(s).Match? {
        var k := Run(Trailing, s);
        MatchIsBlankLine(s, k);
        SplitBreak(out);
        TrimBlank(s[..k], Split(z));
      } else if s[0] == '\n' {
        SplitBreak(out);
        TrimBlank("", Split(z));
      } else {
        SplitChar(c, out);
        TrimChar(s);
      }
    }
  }

  lemma {:induction false} TrimBlank(line: string, rest: seq<string>)
    requires TrimEnd(line) == "" && rest != []
    ensures TrimEach([line] + rest) == [""] + TrimEach(rest)
  {
    assert ([line] + rest)[1..] == rest;
  }

  lemma {:induction false} TrimChar(s: string)
    requires s != "" && s[0] != '\n' && TrailingAt(s).NoMatch?
    ensures var rest := TrimEach(Split(s[1..])); TrimEach(Split(s)) == [[s[0]] + rest[0]] + rest[1..]
  {
    var lines, first := Split(s[1..]), [s[0]] + Split(s[1..])[0];
    assert Split(s) == [first] + lines[1..] && first[1..] == lines[0] && ([first] + lines[1..])[1..] == lines[1..];
    if |lines| > 1 {
      TrimEndBlank(first);
      if TrimEnd(first) == "" { BlankLineMatches(s); }
    }
  }

  /** One step of the scan for `[ \t]+\n`: it writes one character. */
  lemma {:induction false} TrailingStep(before: string, s: string) returns (y: string, z: string, c: char)
    requires s != ""
    ensures var n := if TrailingAt(s).Match? then TrailingAt(s).len else 1;
      1 <= n <= |s| && y == s[..n] && z == s[n..] && c == if TrailingAt(s).Match? then '\n' else s[0]
    ensures var m := Rewriter(TrailingBlanks); Sub(m, before, s) == [c] + Sub(m, before + y, z)
  {
    var n := if TrailingAt(s).Match? then TrailingAt(s).len else 1;
    y, z, c := s[..n], s[n..], if TrailingAt(s).Match? then '\n' else s[0];
    var m := Rewriter(TrailingBlanks);
    assert m(before, s) == TrailingAt(s) && s[..1] == [s[0]];
  }

  // ---- the collapse, line by line ----------------------------------------

  /** Runs of newlines cut down to two, `c` having just been written. */
  function Thin(c: nat, s: string): string
    decreases |s|
  {
    if s == "" then ""
    else if s[0] == '\n' then (if c >= 2 then "" else "\n") + Thin(c + 1, s[1..])
    else [s[0]] + Thin(0, s[1..])
  }

  function Squash(c: nat, lines: seq<string>): (r: seq<string>)
    ensures lines != [] ==> r != []
    decreases |lines|
  {
    if |lines| <= 1 then lines
    else if lines[0] != "" then [lines[0]] + Squash(1, lines[1..])
    else (if c >= 2 then [] else [""]) + Squash(c + 1, lines[1..])
  }

  lemma {:induction false} ThinBlock(c: nat, y: string, z: string)
    requires All(Newline, y) && !StartsIn(Newline, z)
    ensures Thin(c, y + z)
         == (if c + |y| <= 2 then y else if c == 0 then "\n\n" else if c == 1 then "\n" else "") + Thin(0, z)
    decreases |y|
  {
    if y == "" {
      Unit(z);
      Unit(Thin(0, z));
    } else {
      assert InClass(Newline, y[0]) && y == ['\n'] + y[1..];
      AllParts(Newline, ['\n'], y[1..]);
      DropFirst(y, z);
      ThinBlock(c + 1, y[1..], z);
      Assoc("\n", y[1..], Thin(0, z));
      Assoc("\n", "\n", Thin(0, z));
      assert "\n" + "\n" == "\n\n" && "\n" + "" == "\n" && "" + Thin(c + 1, y[1..] + z) == Thin(c + 1, y[1..] + z);
    }
  }

  lemma {:induction false} CollapseThins(before: string, c: nat, s: string)
    requires c == 0 || c + Run(Newline, s) <= 2
    ensures Sub(Rewriter(BLANK_LINES), before, s) == Thin(c, s)
    decreases |s|
  {
    if s != "" {
      var m, n := Rewriter(BLANK_LINES), Run(Newline, s);
      var hit := Spacing.RunMatch(Newline, 3, "\n\n", before, s, "");
      var y, z, r := Spacing.ScanStep(m, before, s, "");
      Unit(s);
      Unit(z);
      if n >= 3 {
        CollapseThins(before + y, 0, z);
        ThinBlock(0, s[..n], s[n..]);
        assert s == s[..n] + s[n..];
      } else {
        RunDown(s);
        CollapseThins(before + y, if s[0] == '\n' then c + 1 else 0, s[1..]);
        ThinChar(c, s);
      }
    }
  }

  lemma {:induction false} ThinChar(c: nat, s: string)
    requires s != "" && (s[0] == '\n' ==> c < 2)
    ensures Thin(c, s) == s[..1] + Thin(if s[0] == '\n' then c + 1 else 0, s[1..])
  {
    assert s[..1] == [s[0]];
  }

  lemma {:induction false} RunDown(s: string)
    requires s != ""
    ensures s[0] == '\n' ==> Run(Newline, s[1..]) == Run(Newline, s) - 1
  {
  }

  lemma {:induction false} ThinLines(c: nat, s: string)
    ensures Split(Thin(c, s)) == Squash(c, Split(s))
    decreases |s|
  {
    if s != "" {
      if s[0] == '\n' {
        ThinLines(c + 1, s[1..]);
        SplitBreak(Thin(c + 1, s[1..]));
        assert ([""] + Split(s[1..]))[1..] == Split(s[1..]);
        Unit(Thin(c + 1, s[1..]));
        Unit(Squash(c + 1, Split(s[1..])));
      } else {
        ThinLines(0, s[1..]);
        SplitChar(s[0], Thin(0, s[1..]));
        SquashChar(c, s[0], Split(s[1..]));
      }
    }
  }

  lemma {:induction false} SquashChar(c: nat, x: char, lines: seq<string>)
    requires lines != []
    ensures var rest := Squash(0, lines); Squash(c, [[x] + lines[0]] + lines[1..]) == [[x] + rest[0]] + rest[1..]
  {
    assert ([[x] + lines[0]] + lines[1..])[1..] == lines[1..];
  }

  // ---- counting blank lines ----------------------------------------------

  /** Is there a run of two or more blank lines between two lines with ink? */
  predicate TwoBlank(inked: bool, blanks: nat, lines: seq<string>)
    decreases |lines|
  {
    lines != [] &&
    if Strip(lines[0]) == "" then TwoBlank(inked, blanks + 1, lines[1..])
    else (inked && blanks >= 2) || TwoBlank(true, 0, lines[1..])
  }

  /** How the run of blank lines looks after the passes: `c` newlines stand before the
      next line, and `kept` of its `blanks` lines are left. */
  predicate Tally(c: nat, kept: nat, blanks: nat, exotic: bool) {
    if blanks == 0 then c == 1 && kept == 0 && !exotic
    else if !exotic then c >= 2 && kept == 1
    else if blanks == 1 then c == 1 && kept == 1
    else c >= 1 && kept >= 2
  }

  lemma {:induction false} TrimEndInk(line: string)
    ensures Strip(TrimEnd(line)) == "" <==> Strip(line) == ""
  {
    StripEmptyIsBlank(line);
    StripEmptyIsBlank(TrimEnd(line));
    BlankTrimEnd(line);
  }

  lemma {:induction false} BlankTrimEnd(line: string)
    ensures Blank(TrimEnd(line)) <==> Blank(line)
  {
    if line != "" {
      BlankTrimEnd(line[1..]);
      BlankCons(line[0], line[1..]);
      BlankCons(line[0], TrimEnd(line[1..]));
      assert line == [line[0]] + line[1..];
    }
  }

  lemma {:induction false} BlankCons(c: char, s: string)
    ensures Blank([c] + s) <==> IsSpace(c) && Blank(s)
  {
    var t := [c] + s;
    assert t[0] == c && forall i | 0 <= i < |s| :: t[i + 1] == s[i];
    if IsSpace(c) && Blank(s) {
      forall i | 0 <= i < |t| ensures IsSpace(t[i]) { if i > 0 { assert t[i] == s[i - 1]; } }
    }
  }

  /** After both passes two blank lines are left in a run exactly when it was crowded. */
  lemma {:induction false} PassesCount(inked: bool, c: nat, kept: nat, blanks: nat, exotic: bool, lines: seq<string>)
    requires inked ==> Tally(c, kept, blanks, exotic)
    ensures TwoBlank(inked, kept, Squash(c, TrimEach(lines))) <==> Crowded(inked, blanks, exotic, lines)
    decreases |lines|
  {
    if |lines| > 1 {
      var line, rest := lines[0], lines[1..];
      if Strip(line) != "" {
        PassesCount(true, 1, 0, 0, false, rest);
        InkCounts(inked, c, kept, blanks, exotic, lines);
      } else if TrimEnd(line) != "" {
        if inked { TallyExotic(c, kept, blanks, exotic); }
        PassesCount(inked, 1, kept + 1, blanks + 1, true, rest);
        ExoticCounts(inked, c, kept, blanks, exotic, lines);
      } else {
        if inked { TallyPlain(c, kept, blanks, exotic); }
        PassesCount(inked, c + 1, if c >= 2 then kept else kept + 1, blanks + 1, exotic, rest);
        PlainCounts(inked, c, kept, blanks, exotic, lines);
      }
    }
  }

  lemma {:induction false} TallyExotic(c: nat, kept: nat, blanks: nat, exotic: bool)
    requires Tally(c, kept, blanks, exotic)
    ensures Tally(1, kept + 1, blanks + 1, true)
  {
  }

  lemma {:induction false} TallyPlain(c: nat, kept: nat, blanks: nat, exotic: bool)
    requires Tally(c, kept, blanks, exotic)
    ensures Tally(c + 1, if c >= 2 then kept else kept + 1, blanks + 1, exotic)
  {
  }

  lemma {:induction false} InkCounts(inked: bool, c: nat, kept: nat, blanks: nat, exotic: bool, lines: seq<string>)
    requires |lines| > 1 && Strip(lines[0]) != "" && (inked ==> Tally(c, kept, blanks, exotic))
    requires TwoBlank(true, 0, Squash(1, TrimEach(lines[1..]))) <==> Crowded(true, 0, false, lines[1..])
    ensures TwoBlank(inked, kept, Squash(c, TrimEach(lines))) <==> Crowded(inked, blanks, exotic, lines)
  {
    TrimEndInk(lines[0]);
    StripBlank("");
    SquashStep(c, lines);
    TwoBlankCons(inked, kept, TrimEnd(lines[0]), Squash(1, TrimEach(lines[1..])));
  }

  lemma {:induction false} ExoticCounts(inked: bool, c: nat, kept: nat, blanks: nat, exotic: bool, lines: seq<string>)
    requires |lines| > 1 && Strip(lines[0]) == "" && TrimEnd(lines[0]) != ""
    requires TwoBlank(inked, kept + 1, Squash(1, TrimEach(lines[1..])))
         <==> Crowded(inked, blanks + 1, true, lines[1..])
    ensures TwoBlank(inked, kept, Squash(c, TrimEach(lines))) <==> Crowded(inked, blanks, exotic, lines)
  {
    TrimEndInk(lines[0]);
    SquashStep(c, lines);
    TwoBlankCons(inked, kept, TrimEnd(lines[0]), Squash(1, TrimEach(lines[1..])));
  }

  lemma {:induction false} PlainCounts(inked: bool, c: nat, kept: nat, blanks: nat, exotic: bool, lines: seq<string>)
    requires |lines| > 1 && Strip(lines[0]) == "" && TrimEnd(lines[0]) == ""
    requires TwoBlank(inked, if c >= 2 then kept else kept + 1, Squash(c + 1, TrimEach(lines[1..])))
        <==> Crowded(inked, blanks + 1, exotic, lines[1..])
    ensures TwoBlank(inked, kept, Squash(c, TrimEach(lines))) <==> Crowded(inked, blanks, exotic, lines)
  {
    var next := Squash(c + 1, TrimEach(lines[1..]));
    StripBlank("");
    SquashStep(c, lines);
    TwoBlankCons(inked, kept, "", next);
    Unit(next);
  }

  lemma {:induction false} SquashStep(c: nat, lines: seq<string>)
    requires |lines| > 1
    ensures var t, rest := TrimEnd(lines[0]), TrimEach(lines[1..]);
      Squash(c, TrimEach(lines)) == if t != "" then [t] + Squash(1, rest)
                                    else (if c >= 2 then [] else [""]) + Squash(c + 1, rest)
  {
    assert TrimEach(lines)[1..] == TrimEach(lines[1..]);
  }

  lemma {:induction false} TwoBlankCons(inked: bool, blanks: nat, line: string, rest: seq<string>)
    ensures TwoBlank(inked, blanks, [line] + rest)
       <==> if Strip(line) == "" then TwoBlank(inked, blanks + 1, rest)
            else (inked && blanks >= 2) || TwoBlank(true, 0, rest)
  {
    assert ([line] + rest)[1..] == rest;
  }

  lemma {:induction false} TidyLineBlank(digit: char -> bool, line: string)
    ensures Strip(TidyLine(digit, line)) == "" <==> Strip(line) == ""
    ensures Strip(line) == "" ==> TidyLine(digit, line) == ""
  {
    StripIdempotent(line);
    StripEmptyIsBlank(line);
    StripEmptyIsBlank(RStrip(line));
    var b := RStripParts(line);
    if Blank(line) { RStripBlank(line); } else { BlankParts(RStrip(line), b); }
  }

  lemma {:induction false} RStripBlank(line: string)
    requires Blank(line)
    ensures RStrip(line) == ""
  {
    if line != "" { RStripBlank(line[..|line| - 1]); }
  }

  lemma {:induction false} BlankParts(a: string, b: string)
    requires Blank(b)
    ensures Blank(a) ==> Blank(a + b)
  {
  }

  lemma {:induction false} TidyKeepsCount(digit: char -> bool, inked: bool, blanks: nat, lines: seq<string>)
    ensures TwoBlank(inked, blanks, TidyEach(digit, lines)) <==> TwoBlank(inked, blanks, lines)
    decreases |lines|
  {
    if lines != [] {
      TidyLineBlank(digit, lines[0]);
      TidyKeepsCount(digit, inked, blanks + 1, lines[1..]);
      TidyKeepsCount(digit, true, 0, lines[1..]);
      assert TidyEach(digit, lines)[1..] == TidyEach(digit, lines[1..]);
    }
  }

  // ---- from lines to characters ------------------------------------------

  /** The same count on characters: `n` newlines have just been read, `triple` tells
      whether three came since the last ink. */
  predicate Gaping(inked: bool, n: nat, triple: bool, s: string)
    decreases |s|
  {
    s != "" &&
    if s[0] == '\n' then Gaping(inked, n + 1, triple || n >= 2, s[1..])
    else if IsSpace(s[0]) then Gaping(inked, 0, triple, s[1..])
    else (inked && triple) || Gaping(true, 0, false, s[1..])
  }

  lemma {:induction false} RestOfLine(line: string, tail: string)
    requires OneLine(line)
    ensures Gaping(true, 0, false, line + "\n" + tail) <==> Gaping(true, 1, false, tail)
    ensures !Gaping(true, 0, false, line)
    decreases |line|
  {
    if line == "" {
      assert line + "\n" + tail == "\n" + tail && ("\n" + tail)[1..] == tail;
    } else {
      assert (line + "\n" + tail)[1..] == line[1..] + "\n" + tail;
      RestOfLine(line[1..], tail);
    }
  }

  lemma {:induction false} InkLine(inked: bool, n: nat, triple: bool, line: string, tail: string)
    requires OneLine(line) && !Blank(line)
    ensures Gaping(inked, n, triple, line + "\n" + tail) <==> (inked && triple) || Gaping(true, 1, false, tail)
    ensures Gaping(inked, n, triple, line) <==> inked && triple
    decreases |line|
  {
    assert line != "" && line == [line[0]] + line[1..];
    BlankCons(line[0], line[1..]);
    assert (line + "\n" + tail)[1..] == line[1..] + "\n" + tail;
    if IsSpace(line[0]) { InkLine(inked, 0, triple, line[1..], tail); } else { RestOfLine(line[1..], tail); }
  }

  ghost predicate BlanksEmpty(lines: seq<string>) {
    forall i | 0 <= i < |lines| :: OneLine(lines[i]) && (Strip(lines[i]) == "" ==> lines[i] == "")
  }

  lemma {:induction false} JoinedCount(inked: bool, n: nat, triple: bool, blanks: nat, lines: seq<string>)
    requires BlanksEmpty(lines) && (inked ==> n == blanks + 1 && (triple <==> blanks >= 2))
    ensures Gaping(inked, n, triple, Join("\n", lines)) <==> TwoBlank(inked, blanks, lines)
    decreases |lines|
  {
    if lines != [] {
      var line, rest := lines[0], lines[1..];
      var tail := Join("\n", rest);
      StripEmptyIsBlank(line);
      if line == "" {
        JoinedCount(inked, n + 1, triple || n >= 2, blanks + 1, rest);
        assert "" + "\n" + tail == "\n" + tail && ("\n" + tail)[1..] == tail;
      } else {
        InkLine(inked, n, triple, line, tail);
        JoinedCount(true, 1, false, 0, rest);
      }
    }
  }

  lemma {:induction false} LeadingBlanks(n: nat, triple: bool, a: string, m: string)
    requires Blank(a) && (m == "" || !IsSpace(m[0]))
    ensures Gaping(false, n, triple, a + m) <==> Gaping(false, 0, false, m)
    decreases |a|
  {
    if a == "" {
      Unit(m);
    } else {
      DropFirst(a, m);
      LeadingBlanks(if a[0] == '\n' then n + 1 else 0, triple || (a[0] == '\n' && n >= 2), a[1..], m);
    }
  }

  lemma {:induction false} EndingBlanks(inked: bool, n: nat, triple: bool, m: string, b: string)
    requires Blank(b)
    ensures Gaping(inked, n, triple, m + b) <==> Gaping(inked, n, triple, m)
    decreases |m|, |b|
  {
    if m != "" {
      DropFirst(m, b);
      var n' := if m[0] == '\n' then n + 1 else 0;
      EndingBlanks(inked, n', triple || (m[0] == '\n' && n >= 2), m[1..], b);
      EndingBlanks(true, 0, false, m[1..], b);
    } else if b != "" {
      Unit(b);
      Unit(b[1..]);
      EndingBlanks(inked, if b[0] == '\n' then n + 1 else 0, triple || (b[0] == '\n' && n >= 2), "", b[1..]);
    }
  }

  /** At most two newlines in a row, `c` having just been read. */
  predicate AtMostTwo(c: nat, s: string)
    decreases |s|
  {
    s == "" || (if s[0] == '\n' then c < 2 && AtMostTwo(c + 1, s[1..]) else AtMostTwo(0, s[1..]))
  }

  lemma {:induction false} InkIsReached(n: nat, triple: bool, s: string)
    requires s != "" && !IsSpace(s[|s| - 1]) && (triple || n <= 2)
    ensures Gaping(true, n, triple, s) <==> triple || !AtMostTwo(n, s)
    decreases |s|
  {
    if |s| > 1 {
      assert s[1..][|s| - 2] == s[|s| - 1];
      if s[0] == '\n' {
        InkIsReached(n + 1, triple || n >= 2, s[1..]);
      } else {
        InkIsReached(0, triple && IsSpace(s[0]), s[1..]);
      }
      if triple && s[0] == '\n' { InkIsReached(n + 1, true, s[1..]); }
    } else {
      assert s[1..] == "";
    }
  }

  lemma {:induction false} AtMostTwoAt(c: nat, s: string, i: nat)
    requires AtMostTwo(c, s) && i + 2 < |s|
    ensures !(s[i] == '\n' && s[i + 1] == '\n' && s[i + 2] == '\n')
    decreases |s|
  {
    if i > 0 {
      AtMostTwoAt(if s[0] == '\n' then c + 1 else 0, s[1..], i - 1);
    } else {
      var t := s[1..];
      assert t[0] == s[1] && t[1..][0] == s[2];
      if s[0] == '\n' && t[0] == '\n' { assert AtMostTwo(c + 1, t) && AtMostTwo(c + 2, t[1..]); }
    }
  }

  /** `c` newlines right before the text, and no three in a row in all. */
  ghost predicate NoTripleAfter(c: nat, s: string) {
    && NoTriple(s) && c <= 2
    && (c >= 2 ==> !StartsIn(Newline, s))
    && (c >= 1 && |s| >= 2 ==> !(s[0] == '\n' && s[1] == '\n'))
  }

  lemma {:induction false} NoTripleAtMostTwo(c: nat, s: string)
    requires NoTripleAfter(c, s)
    ensures AtMostTwo(c, s)
    decreases |s|
  {
    if s != "" {
      var t := s[1..];
      forall i | 0 <= i < |t| - 2 ensures !(t[i] == '\n' && t[i + 1] == '\n' && t[i + 2] == '\n') {
        assert t[i] == s[i + 1] && t[i + 1] == s[i + 2] && t[i + 2] == s[i + 3];
      }
      assert |t| >= 2 ==> t[0] == s[1] && t[1] == s[2];
      assert |t| >= 1 ==> t[0] == s[1];
      NoTripleAtMostTwo(if s[0] == '\n' then c + 1 else 0, t);
    }
  }

  lemma {:induction false} NoTripleIff(s: string)
    ensures NoTriple(s) <==> AtMostTwo(0, s)
  {
    if AtMostTwo(0, s) {
      forall i | 0 <= i < |s| - 2 ensures !(s[i] == '\n' && s[i + 1] == '\n' && s[i + 2] == '\n') {
        AtMostTwoAt(0, s, i);
      }
    } else if NoTriple(s) {
      NoTripleAtMostTwo(0, s);
    }
  }

  /** Stripped text has three newlines in a row exactly where the whole had them between ink. */
  lemma {:induction false} StrippedCount(u: string)
    ensures NoTriple(Strip(u)) <==> !Gaping(false, 0, false, u)
  {
    var a, b := StripParts(u);
    var m := Strip(u);
    NoTripleIff(m);
    EndingBlanks(false, 0, false, a + m, b);
    LeadingBlanks(0, false, a, m);
    if |m| > 1 {
      assert m[1..][|m| - 2] == m[|m| - 1];
      InkIsReached(0, false, m[1..]);
    } else if m != "" {
      assert m[1..] == "";
    }
  }

  // ---- the result --------------------------------------------------------

  lemma {:induction false} TidiedCount(digit: char -> bool, lines: seq<string>)
    requires lines != [] && OneLiners(lines)
    ensures NoTriple(Strip(Join("\n", TidyEach(digit, lines)))) <==> !TwoBlank(false, 0, lines)
  {
    var tidied := TidyEach(digit, lines);
    TidyEachOneLiners(digit, lines);
    forall i | 0 <= i < |tidied| ensures OneLine(tidied[i]) && (Strip(tidied[i]) == "" ==> tidied[i] == "") {
      TidyLineBlank(digit, lines[i]);
    }
    StrippedCount(Join("\n", tidied));
    JoinedCount(false, 0, false, 0, tidied);
    TidyKeepsCount(digit, false, 0, lines);
  }

  /** A tidied text has no two blank lines in a row exactly when the lines of the text are
      not crowded. */
  lemma {:induction false} TidyNoTripleIff(digit: char -> bool, s: string)
    ensures NoTriple(Tidy(digit, s)) <==> !Crowded(false, 0, false, Split(s))
  {
    var t := Apply(TrailingBlanks, s);
    var u := Apply(BLANK_LINES, t);
    TrailingLines("", s);
    CollapseThins("", 0, t);
    ThinLines(0, t);
    JoinSplit(u);
    TidiedCount(digit, Split(u));
    PassesCount(false, 0, 0, 0, false, Split(s));
  }

  /** In particular, blank lines of spaces and tabs alone are never crowded. */
  lemma {:induction false} PlainIsNotCrowded(inked: bool, blanks: nat, lines: seq<string>)
    requires forall i | 0 <= i < |lines| - 1 :: Strip(lines[i]) == "" ==> TrimEnd(lines[i]) == ""
    ensures !Crowded(inked, blanks, false, lines)
    decreases |lines|
  {
    if |lines| == 1 {
      assert lines[1..] == [];
    } else if |lines| > 1 {
      PlainIsNotCrowded(inked, blanks + 1, lines[1..]);
      PlainIsNotCrowded(true, 0, lines[1..]);
    }
  }

  lemma {:induction false} FourLines(a: string, b: string, c: string, d: string)
    requires OneLine(a) && OneLine(b) && OneLine(c) && OneLine(d)
    ensures Split(a + "\n" + (b + "\n" + (c + "\n" + d))) == [a, b, c, d]
  {
    SplitCons(a, b + "\n" + (c + "\n" + d));
    SplitCons(b, c + "\n" + d);
    SplitCons(c, d);
    SplitCons(d, "");
  }

  lemma {:induction false} CrowdedFour(a: string, b: string, c: string, d: string)
    requires Strip(a) != "" && Strip(b) == "" && Strip(c) == "" && Strip(d) != "" && TrimEnd(b) != ""
    ensures Crowded(false, 0, false, [a, b, c, d])
  {
    var lines := [a, b, c, d];
    assert lines[1..] == [b, c, d] && [b, c, d][1..] == [c, d] && [c, d][1..] == [d];
    assert Crowded(true, 2, true, [d]);
    assert Crowded(true, 1, true, [c, d]);
    assert Crowded(true, 0, false, [b, c, d]);
  }

  /** A vertical tab on a line of its own next to an empty line: the collapse does not see
      two blank lines, and three newlines are left. */
  lemma {:induction false} TidyCanLeaveTriple(digit: char -> bool)
    ensures !NoTriple(Tidy(digit, "a\n\U{0B}\n\nb"))
  {
    var s := "a\n\U{0B}\n\nb";
    TidyNoTripleIff(digit, s);
    FourLines("a", "\U{0B}", "", "b");
    Sample();
    SampleIsCrowded();
  }

  lemma {:induction false} SampleIsCrowded()
    ensures Crowded(false, 0, false, ["a", "\U{0B}", "", "b"])
  {
    InkStays('a');
    InkStays('b');
    StripBlank("\U{0B}");
    StripBlank("");
    Sample();
    CrowdedFour("a", "\U{0B}", "", "b");
  }

  lemma {:induction false} Sample()
    ensures "a\n\U{0B}\n\nb" == "a" + "\n" + ("\U{0B}" + "\n" + ("" + "\n" + "b"))
    ensures TrimEnd("\U{0B}") != ""
  {
  }

  lemma {:induction false} InkStays(c: char)
    requires !IsSpace(c)
    ensures Strip([c]) == [c]
  {
    StripUnique("", [c], "");
    assert "" + [c] + "" == [c];
  }
}
