/** `_tidy`: trailing blanks, blank lines, and the leading white space of lines. */
module Tidying {
  import opened Text
  import opened Rewriting

  /** `[-*]` or digits and a dot, at the head of `s`: its length, or 0. `digit` is the
      class `\d`. */
  function MarkerLength(digit: char -> bool, s: string): (n: nat)
    ensures n <= |s|
  {
    if s != "" && (s[0] == '-' || s[0] == '*') then 1
    else
      var d := DigitRun(digit, s);
      if d > 0 && d < |s| && s[d] == '.' then d + 1 else 0
  }

  function DigitRun(digit: char -> bool, s: string): (n: nat)
    ensures n <= |s|
  {
    if s != "" && digit(s[0]) then 1 + DigitRun(digit, s[1..]) else 0
  }

  /** `^\s+(?:[-*]|\d+\.)\s`. */
  predicate IsListItem(digit: char -> bool, line: string) {
    var k := Run(Space, line);
    var n := MarkerLength(digit, line[k..]);
    k > 0 && n > 0 && StartsIn(Space, line[k..][n..])
  }

  function TidyLine(digit: char -> bool, line: string): string {
    if IsListItem(digit, line) then RStrip(line) else Strip(line)
  }

  function TidyEach(digit: char -> bool, lines: seq<string>): (r: seq<string>)
    ensures |r| == |lines| && forall i | 0 <= i < |r| :: r[i] == TidyLine(digit, lines[i])
  {
    if lines == [] then [] else [TidyLine(digit, lines[0])] + TidyEach(digit, lines[1..])
  }

  function Tidy(digit: char -> bool, s: string): string {
    var t := Apply(TrailingBlanks, s);
    var t := Apply(BLANK_LINES, t);
    Strip(Join("\n", TidyEach(digit, Split(t))))
  }

  // ---- the shape of every line -------------------------------------------

  /** No trailing white space, and leading white space only before a list marker. */
  ghost predicate Shapely(digit: char -> bool, line: string) {
    line != "" ==> !IsSpace(line[|line| - 1]) && (IsSpace(line[0]) ==> Marked(digit, line))
  }

  /** White space, a list marker, and then white space or the end of the line. */
  predicate Marked(digit: char -> bool, line: string) {
    var k := Run(Space, line);
    var n := MarkerLength(digit, line[k..]);
    k > 0 && n > 0 && (|line[k..]| == n || IsSpace(line[k..][n]))
  }

  ghost predicate AllShapely(digit: char -> bool, s: string) {
    forall i | 0 <= i < |Split(s)| :: Shapely(digit, Split(s)[i])
  }

  /** What `\d` may be: a class without white space. */
  ghost predicate Digits(digit: char -> bool) {
    forall c :: IsSpace(c) ==> !digit(c)
  }

  lemma {:induction false} DigitRunSnoc(digit: char -> bool, s: string, c: char)
    requires !digit(c)
    ensures DigitRun(digit, s + [c]) == DigitRun(digit, s)
  {
    if s == "" {
      assert s + [c] == [c];
    } else {
      assert (s + [c])[1..] == s[1..] + [c];
      DigitRunSnoc(digit, s[1..], c);
    }
  }

  lemma {:induction false} MarkerSnoc(digit: char -> bool, s: string, c: char)
    requires Digits(digit) && IsSpace(c)
    ensures MarkerLength(digit, s + [c]) == MarkerLength(digit, s)
  {
    DigitRunSnoc(digit, s, c);
    assert s != "" ==> (s + [c])[0] == s[0];
    assert s == "" ==> (s + [c])[0] == c;
  }

  /** Dropping trailing white space leaves the marker alone. */
  lemma {:induction false} MarkedSnoc(digit: char -> bool, line: string, c: char)
    requires Digits(digit) && IsSpace(c) && Marked(digit, line + [c])
    ensures Marked(digit, line)
  {
    var t := line + [c];
    var k := Run(Space, t);
    MarkerNotBlank(digit, t[k..]);
    RunSnoc(Space, line, c);
    assert t[k..] == line[k..] + [c];
    MarkerSnoc(digit, line[k..], c);
  }

  lemma {:induction false} MarkerNotBlank(digit: char -> bool, s: string)
    requires Digits(digit) && MarkerLength(digit, s) > 0
    ensures s != "" && !IsSpace(s[0])
  {
  }

  /** A run that stops before the end of the longer text is the run of the shorter one. */
  lemma {:induction false} RunSnoc(k: Class, s: string, c: char)
    ensures Run(k, s + [c]) <= |s| ==> Run(k, s + [c]) == Run(k, s)
    ensures Run(k, s + [c]) > |s| ==> InClass(k, c)
    ensures Run(k, s) < |s| ==> Run(k, s + [c]) == Run(k, s)
  {
    if s == "" {
      assert s + [c] == [c] && [c][1..] == "";
    } else {
      assert (s + [c])[1..] == s[1..] + [c];
      RunSnoc(k, s[1..], c);
    }
  }

  lemma {:induction false} MarkedRStrip(digit: char -> bool, line: string)
    requires Digits(digit) && Marked(digit, line)
    ensures Marked(digit, RStrip(line))
  {
    if line != "" && IsSpace(line[|line| - 1]) {
      var s, c := line[..|line| - 1], line[|line| - 1];
      assert line == s + [c];
      MarkedSnoc(digit, s, c);
      MarkedRStrip(digit, s);
    }
  }

  lemma {:induction false} TidyLineShapely(digit: char -> bool, line: string)
    requires Digits(digit)
    ensures Shapely(digit, TidyLine(digit, line))
  {
    if IsListItem(digit, line) {
      var k := Run(Space, line);
      assert line[k..][MarkerLength(digit, line[k..])..][0] == line[k..][MarkerLength(digit, line[k..])];
      MarkedRStrip(digit, line);
      var b := RStripParts(line);
    } else {
      var a, b := StripParts(line);
    }
  }

  // ---- the final strip keeps the shape -----------------------------------

  lemma {:induction false} MarkedTail(digit: char -> bool, line: string)
    requires Marked(digit, line) && |line| > 1 && IsSpace(line[1])
    ensures Marked(digit, line[1..])
  {
    assert line[1..][Run(Space, line[1..])..] == line[Run(Space, line)..];
  }

  lemma {:induction false} ShapelyLStrip(digit: char -> bool, s: string)
    requires AllShapely(digit, s)
    ensures AllShapely(digit, LStrip(s))
  {
    if s != "" && IsSpace(s[0]) {
      var r, rest := Split(s), Split(s[1..]);
      forall i | 0 <= i < |rest| ensures Shapely(digit, rest[i]) {
        if s[0] == '\n' {
          assert r[i + 1] == rest[i];
        } else if i == 0 {
          ShapelyTail(digit, r[0]);
          assert r[0][1..] == rest[0];
        } else {
          assert r[i] == rest[i];
        }
      }
      ShapelyLStrip(digit, s[1..]);
    }
  }

  lemma {:induction false} ShapelyTail(digit: char -> bool, line: string)
    requires line != "" && Shapely(digit, line) && IsSpace(line[0])
    ensures Shapely(digit, line[1..])
  {
    if |line| > 1 && IsSpace(line[1]) { MarkedTail(digit, line); }
  }

  lemma {:induction false} ShapelyRStrip(digit: char -> bool, s: string)
    requires AllShapely(digit, s)
    ensures AllShapely(digit, RStrip(s))
  {
    if s != "" && IsSpace(s[|s| - 1]) {
      var c, t := s[|s| - 1], s[..|s| - 1];
      assert s == t + [c];
      SplitSnoc(t, c);
      var r, rest := Split(s), Split(t);
      assert Shapely(digit, r[|r| - 1]);
      forall i | 0 <= i < |rest| ensures Shapely(digit, rest[i]) { assert r[i] == rest[i]; }
      ShapelyRStrip(digit, t);
    }
  }

  lemma {:induction false} TidyEachOneLiners(digit: char -> bool, lines: seq<string>)
    requires OneLiners(lines)
    ensures OneLiners(TidyEach(digit, lines))
  {
    forall i | 0 <= i < |lines| ensures OneLine(TidyLine(digit, lines[i])) {
      var a, b := StripParts(lines[i]);
      var c := RStripParts(lines[i]);
      var x, y := Strip(lines[i]), RStrip(lines[i]);
      assert forall k | 0 <= k < |x| :: x[k] == lines[i][|a| + k];
      assert forall k | 0 <= k < |y| :: y[k] == lines[i][k];
    }
  }

  /** Every line of a tidied text has no trailing white space, and leading white space
      only before a list marker; the text itself is trimmed. */
  lemma {:induction false} TidyIsShapely(digit: char -> bool, s: string)
    requires Digits(digit)
    ensures AllShapely(digit, Tidy(digit, s)) && Trimmed(Tidy(digit, s))
  {
    var t := Apply(BLANK_LINES, Apply(TrailingBlanks, s));
    var lines := TidyEach(digit, Split(t));
    JoinSplit(t);
    TidyEachOneLiners(digit, Split(t));
    SplitJoin(lines);
    forall i | 0 <= i < |lines| ensures Shapely(digit, lines[i]) { TidyLineShapely(digit, Split(t)[i]); }
    var u := Join("\n", lines);
    ShapelyLStrip(digit, u);
    ShapelyRStrip(digit, LStrip(u));
    var a, b := StripParts(u);
  }
}
