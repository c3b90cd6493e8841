/** Python string primitives used by every text stage: `str.isspace`, `strip`,
    splitting on newlines and joining. */
module Text {

  datatype Option<T> = None | Some(value: T)

  lemma {:induction false} Assoc<T>(a: seq<T>, b: seq<T>, c: seq<T>)
    ensures a + (b + c) == a + b + c
  {
  }

  lemma {:induction false} Unit<T>(a: seq<T>)
    ensures a + [] == a && [] + a == a
  {
  }

  lemma {:induction false} DropFirst<T>(a: seq<T>, b: seq<T>)
    requires a != []
    ensures (a + b)[1..] == a[1..] + b && (a + b)[0] == a[0]
  {
  }

  /** The characters for which Python's `str.isspace` holds. */
  predicate IsSpace(c: char) {
    || '\t' <= c <= '\r'
    || '\U{1C}' <= c <= ' '
    || c == '\U{85}' || c == '\U{A0}' || c == '\U{1680}'
    || c == '\U{2028}' || c == '\U{2029}' || c == '\U{202F}' || c == '\U{205F}' || c == '\U{3000}'
    || '\U{2000}' <= c <= '\U{200A}'
  }

  /** The same, one by one. */
  lemma {:induction false} SpacesListed(c: char)
    ensures IsSpace(c) <==> c in {
      '\t', '\n', '\U{0B}', '\U{0C}', '\r', '\U{1C}', '\U{1D}', '\U{1E}', '\U{1F}', ' ', '\U{85}', '\U{A0}', '\U{1680}',
      '\U{2000}', '\U{2001}', '\U{2002}', '\U{2003}', '\U{2004}', '\U{2005}', '\U{2006}', '\U{2007}', '\U{2008}',
      '\U{2009}', '\U{200A}', '\U{2028}', '\U{2029}', '\U{202F}', '\U{205F}', '\U{3000}'
    }
  {
  }

  ghost predicate Blank(s: string) {
    forall i | 0 <= i < |s| :: IsSpace(s[i])
  }

  predicate Trimmed(s: string) {
    s == "" || (!IsSpace(s[0]) && !IsSpace(s[|s| - 1]))
  }

  function LStrip(s: string): string {
    if s != "" && IsSpace(s[0]) then LStrip(s[1..]) else s
  }

  function RStrip(s: string): string {
    if s != "" && IsSpace(s[|s| - 1]) then RStrip(s[..|s| - 1]) else s
  }

  function Strip(s: string): string {
    RStrip(LStrip(s))
  }

  /** `str.split("\n")`. */
  function Split(s: string): (lines: seq<string>)
    ensures |lines| > 0
  {
    if s == "" then [""]
    else if s[0] == '\n' then [""] + Split(s[1..])
    else var rest := Split(s[1..]); [[s[0]] + rest[0]] + rest[1..]
  }

  /** `sep.join(parts)`. */
  function Join(sep: string, parts: seq<string>): string {
    if parts == [] then ""
    else if |parts| == 1 then parts[0]
    else parts[0] + sep + Join(sep, parts[1..])
  }

  /** The concatenation of a list of lists; `"".join(parts)` on strings. */
  function Flatten<T>(parts: seq<seq<T>>): seq<T> {
    if parts == [] then [] else parts[0] + Flatten(parts[1..])
  }

  /** `"\n" * count`. */
  function Newlines(count: nat): string {
    if count == 0 then "" else "\n" + Newlines(count - 1)
  }

  ghost predicate OneLine(s: string) {
    forall i | 0 <= i < |s| :: s[i] != '\n'
  }

  ghost predicate OneLiners(lines: seq<string>) {
    forall i | 0 <= i < |lines| :: OneLine(lines[i])
  }

  /** What `strip` returns: the trimmed middle of a decomposition of the text. */
  lemma {:induction false} StripParts(s: string) returns (a: string, b: string)
    ensures s == a + Strip(s) + b && Blank(a) && Blank(b) && Trimmed(Strip(s))
  {
    a := LStripParts(s);
    b := RStripParts(LStrip(s));
    if Strip(s) != "" { assert LStrip(s)[0] == Strip(s)[0]; }
  }

  lemma {:induction false} LStripParts(s: string) returns (a: string)
    ensures s == a + LStrip(s) && Blank(a)
    ensures LStrip(s) == "" || !IsSpace(LStrip(s)[0])
  {
    a := "";
    if s != "" && IsSpace(s[0]) {
      var t := LStripParts(s[1..]);
      a := [s[0]] + t;
    }
  }

  lemma {:induction false} RStripParts(s: string) returns (b: string)
    ensures s == RStrip(s) + b && Blank(b)
    ensures RStrip(s) == "" || !IsSpace(RStrip(s)[|RStrip(s)| - 1])
  {
    b := "";
    if s != "" && IsSpace(s[|s| - 1]) {
      var t := RStripParts(s[..|s| - 1]);
      b := t + [s[|s| - 1]];
    }
  }

  /** `strip` is determined by its decomposition. */
  lemma {:induction false} StripUnique(a: string, m: string, b: string)
    requires Blank(a) && Blank(b) && Trimmed(m)
    ensures Strip(a + m + b) == m
  {
    var s := a + m + b;
    if a != "" {
      assert s[1..] == a[1..] + m + b;
      StripUnique(a[1..], m, b);
    } else if b != "" {
      assert s[..|s| - 1] == m + b[..|b| - 1];
      if m == "" {
        assert s == b;
        StripBlank(b);
      } else {
        assert LStrip(s) == s;
        StripUnique(a, m, b[..|b| - 1]);
        assert a + m + b[..|b| - 1] == s[..|s| - 1];
      }
    } else {
      assert s == m;
    }
  }

  lemma {:induction false} StripBlank(s: string)
    requires Blank(s)
    ensures LStrip(s) == "" && Strip(s) == ""
  {
    if s != "" { StripBlank(s[1..]); }
  }

  lemma {:induction false} StripEmptyIsBlank(s: string)
    ensures Strip(s) == "" <==> Blank(s)
  {
    var a, b := StripParts(s);
    if Blank(s) { StripBlank(s); } else { assert Strip(s) == "" ==> s == a + b; }
  }

  lemma {:induction false} StripIdempotent(s: string)
    ensures Strip(Strip(s)) == Strip(s)
  {
    var a, b := StripParts(s);
    StripUnique("", Strip(s), "");
    assert "" + Strip(s) + "" == Strip(s);
  }

  lemma {:induction false} JoinSplit(s: string)
    ensures Join("\n", Split(s)) == s && OneLiners(Split(s))
  {
    if s != "" {
      JoinSplit(s[1..]);
      if s[0] == '\n' { JoinAfterBreak(Split(s[1..])); } else { JoinInLine(s[0], Split(s[1..])); }
    }
  }

  lemma {:induction false} JoinAfterBreak(rest: seq<string>)
    requires rest != []
    ensures Join("\n", [""] + rest) == "\n" + Join("\n", rest)
  {
    assert ([""] + rest)[1..] == rest;
    Unit("\n");
  }

  lemma {:induction false} JoinInLine(c: char, rest: seq<string>)
    requires rest != []
    ensures Join("\n", [[c] + rest[0]] + rest[1..]) == [c] + Join("\n", rest)
  {
    assert ([[c] + rest[0]] + rest[1..])[1..] == rest[1..];
    if |rest| > 1 {
      Assoc([c], rest[0], "\n");
      Assoc([c], rest[0] + "\n", Join("\n", rest[1..]));
    }
  }

  lemma {:induction false} SplitCons(line: string, s: string)
    requires OneLine(line)
    ensures Split(line) == [line]
    ensures Split(line + "\n" + s) == [line] + Split(s)
  {
    if line == "" {
      assert line + "\n" + s == "\n" + s;
    } else {
      SplitCons(line[1..], s);
      assert [line[0]] + line[1..] == line;
      assert (line + "\n" + s)[1..] == line[1..] + "\n" + s;
    }
  }

  lemma {:induction false} SplitJoin(lines: seq<string>)
    requires lines != [] && OneLiners(lines)
    ensures Split(Join("\n", lines)) == lines
  {
    if |lines| == 1 {
      SplitCons(lines[0], "");
    } else {
      SplitJoin(lines[1..]);
      SplitCons(lines[0], Join("\n", lines[1..]));
    }
  }

  lemma {:induction false} SplitSnoc(s: string, c: char)
    ensures Split(s + [c]) == Snoc(Split(s), c)
  {
    if s == "" {
      assert s + [c] == [c] && [c][1..] == "" && Split("") == [""] && [""][1..] == [] && [""][..0] == [];
      assert [c] + "" == [c] && "" + [c] == [c];
    } else {
      assert (s + [c])[1..] == s[1..] + [c];
      SplitSnoc(s[1..], c);
      if s[0] == '\n' { SnocAfterBreak(Split(s[1..]), c); } else { SnocInLine(s[0], Split(s[1..]), c); }
    }
  }

  function Snoc(r: seq<string>, c: char): seq<string>
    requires r != []
  {
    if c == '\n' then r + [""] else r[..|r| - 1] + [r[|r| - 1] + [c]]
  }

  lemma {:induction false} SnocAfterBreak(rest: seq<string>, c: char)
    requires rest != []
    ensures [""] + Snoc(rest, c) == Snoc([""] + rest, c)
  {
  }

  lemma {:induction false} SnocInLine(x: char, rest: seq<string>, c: char)
    requires rest != []
    ensures var t := Snoc(rest, c); [[x] + t[0]] + t[1..] == Snoc([[x] + rest[0]] + rest[1..], c)
  {
    assert [x] + (rest[0] + [c]) == [x] + rest[0] + [c];
  }

  /** Decimal rendering of a counter, as `str(n)` gives it. */
  function Decimal(n: nat): string {
    (if n < 10 then "" else Decimal(n / 10)) + [DIGITS[n % 10]]
  }

  const DIGITS: string := "0123456789"

  /** The number that digits stand for. */
  function ReadDecimal(s: string): int {
    if s == "" then 0 else 10 * ReadDecimal(s[..|s| - 1]) + (s[|s| - 1] as int - '0' as int)
  }

  /** The digits are those of the number, without a zero in front. */
  lemma {:induction false} DecimalReads(n: nat)
    ensures var s := Decimal(n);
      && s != "" && IsNumeral(s) && ReadDecimal(s) == n
      && (n > 0 ==> s[0] != '0')
  {
    DigitReads(n % 10);
    if n < 10 {
      NumeralSnoc("", DIGITS[n % 10], n, 0);
    } else {
      DecimalReads(n / 10);
      NumeralSnoc(Decimal(n / 10), DIGITS[n % 10], n % 10, n / 10);
    }
  }

  ghost predicate IsNumeral(s: string) {
    forall i | 0 <= i < |s| :: '0' <= s[i] <= '9'
  }

  /** One more digit behind a number. */
  lemma {:induction false} NumeralSnoc(before: string, c: char, d: nat, n: nat)
    requires IsNumeral(before) && ReadDecimal(before) == n && '0' <= c <= '9' && c as int == '0' as int + d
    ensures IsNumeral(before + [c]) && ReadDecimal(before + [c]) == 10 * n + d
  {
    var s := before + [c];
    assert s[..|s| - 1] == before && s[|s| - 1] == c;
  }

  lemma {:induction false} DigitReads(d: nat)
    requires d < 10
    ensures '0' <= DIGITS[d] <= '9' && DIGITS[d] as int == '0' as int + d
  {
  }

  lemma {:induction false} DecimalInjective(m: nat, n: nat)
    requires Decimal(m) == Decimal(n)
    ensures m == n
  {
    var x, y := Decimal(m), Decimal(n);
    assert x[|x| - 1] == DIGITS[m % 10] && y[|y| - 1] == DIGITS[n % 10];
    assert x[..|x| - 1] == (if m < 10 then "" else Decimal(m / 10));
    assert y[..|y| - 1] == (if n < 10 then "" else Decimal(n / 10));
    if m >= 10 && n >= 10 { DecimalInjective(m / 10, n / 10); }
  }
}
