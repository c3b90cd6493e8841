/** The substitution passes of the Persian normaliser: one matcher for each
    regular expression, and the leftmost, non-overlapping scan of `re.sub`.
    A matcher sees the text before the position, for look-behind, and the text
    from the position on. */
module Rewriting {
  import Text

  const ZWNJ: char := '\U{200C}'
  const MI: string := "می"
  const NEMI: string := "نمی"
  const SUFFIXES: seq<string> :=
    ["ها", "های", "هایی", "هایم", "هایت", "هایش", "تر", "تری", "ترین"]

  predicate IsArabic(c: char) { '\U{0600}' <= c <= '\U{06FF}' }

  datatype Class = Arabic | Separator | Space | Joiner | Inline | Newline | HalfSpace | Layout | Trailing

  /** Character classes: the Arabic block; white space and half-spaces; the blanks
      a joining rule accepts; white space other than a newline; and single characters. */
  predicate InClass(k: Class, c: char) {
    match k
    case Arabic => IsArabic(c)
    case Separator => Text.IsSpace(c) || c == ZWNJ
    case Space => Text.IsSpace(c)
    case Joiner => c == ' ' || c == ZWNJ
    case Inline => Text.IsSpace(c) && c != '\n'
    case Newline => c == '\n'
    case HalfSpace => c == ZWNJ
    case Layout => c == ' ' || c == '\t' || c == '\r' || c == '\n'
    case Trailing => c == ' ' || c == '\t'
  }

  ghost predicate All(k: Class, s: string) {
    forall i | 0 <= i < |s| :: InClass(k, s[i])
  }

  lemma {:induction false} AllParts(k: Class, a: string, b: string)
    ensures All(k, a + b) <==> All(k, a) && All(k, b)
  {
    if All(k, a + b) {
      forall i | 0 <= i < |a| ensures InClass(k, a[i]) { assert (a + b)[i] == a[i]; }
      forall i | 0 <= i < |b| ensures InClass(k, b[i]) { assert (a + b)[|a| + i] == b[i]; }
    }
  }

  /** Length of the longest prefix of `s` in class `k`: a greedy repetition. */
  function Run(k: Class, s: string): (n: nat)
    ensures n <= |s| && All(k, s[..n])
    ensures n < |s| ==> !InClass(k, s[n])
  {
    if s != "" && InClass(k, s[0]) then
      assert s[..1 + Run(k, s[1..])] == [s[0]] + s[1..][..Run(k, s[1..])];
      1 + Run(k, s[1..])
    else 0
  }

  lemma {:induction false} RunStops(k: Class, s: string, j: nat)
    requires j < |s| && !InClass(k, s[j])
    ensures Run(k, s) <= j
  {
    if j > 0 && InClass(k, s[0]) { RunStops(k, s[1..], j - 1); }
  }

  predicate StartsIn(k: Class, s: string) { s != "" && InClass(k, s[0]) }

  predicate EndsIn(k: Class, s: string) { s != "" && InClass(k, s[|s| - 1]) }

  predicate EndsInTwoArabic(s: string) {
    |s| >= 2 && IsArabic(s[|s| - 1]) && IsArabic(s[|s| - 2])
  }

  datatype Rule =
    | PrefixSpaced
    | PrefixAttached(stems: seq<string>)
    | SuffixSpaced
    | HalfSpaceAtEdge
    | LineEdges
    | TrailingBlanks
    | Runs(class_: Class, least: nat, replacement: string)

  /** The three passes that shorten runs: `ZWNJ{2,}`, `[^\S\n]+` and `\n{3,}`. */
  const HALF_SPACE_RUN := Runs(HalfSpace, 2, [ZWNJ])
  const SPACES := Runs(Inline, 1, " ")
  const BLANK_LINES := Runs(Newline, 3, "\n\n")

  /** Of the HTML cleaner: `[ \t\r\n]+` becomes one space. */
  const LAYOUT := Runs(Layout, 1, " ")

  datatype Match = NoMatch | Match(len: nat, replacement: string)

  /** `ن?می` at the start of `s`: its length, or 0. */
  function PrefixLength(s: string): (n: nat)
    ensures n <= |s|
    ensures n == 0 || s[..n] == MI || s[..n] == NEMI
  {
    if NEMI <= s then 3 else if MI <= s then 2 else 0
  }

  /** The first alternative that matches and is not followed by an Arabic
      letter; "" when none does. */
  function Alternative(words: seq<string>, s: string): (w: string)
    ensures w <= s
  {
    if words == [] then ""
    else if words[0] <= s && !StartsIn(Arabic, s[|words[0]|..]) then words[0]
    else Alternative(words[1..], s)
  }

  // The match of each rule at one position. A greedy run before a look-ahead for
  // an Arabic letter has only one way to match, so there is no backtracking.

  /** `(?<![A])(ن?می)[ ‌]+(?=[A])`, where A is the Arabic block. */
  function PrefixSpacedAt(before: string, rest: string): Match {
    var p := PrefixLength(rest);
    if EndsIn(Arabic, before) || p == 0 then NoMatch else
    var k := Run(Joiner, rest[p..]);
    if k > 0 && StartsIn(Arabic, rest[p + k..]) then Match(p + k, rest[..p] + [ZWNJ]) else NoMatch
  }

  /** `(?<![A])(ن?می)(stem|...)(?![A])`. */
  function PrefixAttachedAt(stems: seq<string>, before: string, rest: string): Match {
    var p := PrefixLength(rest);
    if EndsIn(Arabic, before) || p == 0 then NoMatch else
    var stem := Alternative(stems, rest[p..]);
    if stem != "" then Match(p + |stem|, rest[..p] + [ZWNJ] + stem) else NoMatch
  }

  /** `(?<=[A]{2})[ ‌]+(suffix|...)(?![A])`. */
  function SuffixSpacedAt(before: string, rest: string): Match {
    var k := Run(Joiner, rest);
    if !EndsInTwoArabic(before) || k == 0 then NoMatch else
    var suffix := Alternative(SUFFIXES, rest[k..]);
    if suffix != "" then Match(k + |suffix|, [ZWNJ] + suffix) else NoMatch
  }

  function HalfSpaceAtEdgeAt(before: string, rest: string): Match {
    if StartsIn(HalfSpace, rest) && (!EndsIn(Arabic, before) || !StartsIn(Arabic, rest[1..]))
    then Match(1, "") else NoMatch
  }

  /** Stripping every line: a run of blanks at the start or the end of a line. */
  function LineEdgeAt(before: string, rest: string): Match {
    var k := Run(Inline, rest);
    if k > 0 && (before == "" || EndsIn(Newline, before) || k == |rest| || rest[k] == '\n')
    then Match(k, "") else NoMatch
  }

  /** `class{least,}`, with no look-around. */
  function RunAt(k: Class, least: nat, replacement: string, rest: string): Match {
    var n := Run(k, rest);
    if n > 0 && n >= least then Match(n, replacement) else NoMatch
  }

  /** Of the HTML cleaner: `[ \t]+\n`. */
  function TrailingAt(rest: string): Match {
    var k := Run(Trailing, rest);
    if k > 0 && k < |rest| && rest[k] == '\n' then Match(k + 1, "\n") else NoMatch
  }

  function MatchAt(rule: Rule, before: string, rest: string): (m: Match)
    ensures m.Match? ==> 0 < m.len <= |rest|
  {
    match rule
    case PrefixSpaced => PrefixSpacedAt(before, rest)
    case PrefixAttached(stems) => PrefixAttachedAt(stems, before, rest)
    case SuffixSpaced => SuffixSpacedAt(before, rest)
    case HalfSpaceAtEdge => HalfSpaceAtEdgeAt(before, rest)
    case LineEdges => LineEdgeAt(before, rest)
    case TrailingBlanks => TrailingAt(rest)
    case Runs(k, least, replacement) => RunAt(k, least, replacement, rest)
  }

  type Matcher = (string, string) -> Match

  /** `re.sub`: scan from left to right, replacing every non-empty match. */
  function Sub(m: Matcher, before: string, rest: string): string
    decreases |rest|
  {
    if rest == "" then ""
    else
      match m(before, rest)
      case NoMatch => [rest[0]] + Sub(m, before + [rest[0]], rest[1..])
      case Match(n, r) =>
        if 0 < n <= |rest| then r + Sub(m, before + rest[..n], rest[n..]) else ""
  }

  function Rewriter(rule: Rule): Matcher {
    (before: string, rest: string) => MatchAt(rule, before, rest)
  }

  function Apply(rule: Rule, s: string): string {
    Sub(Rewriter(rule), "", s)
  }

  lemma {:induction false} Hit(m: Matcher, before: string, a: string, b: string, r: string)
    requires a != "" && m(before, a + b) == Match(|a|, r)
    ensures Sub(m, before, a + b) == r + Sub(m, before + a, b)
  {
    assert (a + b)[..|a|] == a && (a + b)[|a|..] == b;
  }

  ghost predicate Quiet(m: Matcher, before: string, a: string, b: string) {
    forall i | 0 <= i < |a| :: m(before + a[..i], a[i..] + b).NoMatch?
  }

  /** Text in which no match starts is copied. */
  lemma {:induction false} Copy(m: Matcher, before: string, a: string, b: string)
    requires Quiet(m, before, a, b)
    ensures Sub(m, before, a + b) == a + Sub(m, before + a, b)
    decreases |a|
  {
    if a == "" {
      assert a + b == b && before + a == before;
    } else {
      var x, y := [a[0]], a[1..];
      assert before + a[..0] == before && a[0..] == a;
      assert (a + b)[1..] == y + b;
      forall i | 0 <= i < |y| ensures m(before + x + y[..i], y[i..] + b).NoMatch? {
        assert before + x + y[..i] == before + a[..i + 1] && y[i..] == a[i + 1..];
      }
      Copy(m, before + x, y, b);
      var tail := Sub(m, before + a, b);
      assert before + x + y == before + a;
      assert x + (y + tail) == x + y + tail && x + y == a;
    }
  }

  /** Two steps of a scan make one. */
  lemma {:induction false} Chain(m: Matcher, before: string, a: string, b: string, tail: string, x: string, y: string)
    requires Sub(m, before, a + (b + tail)) == x + Sub(m, before + a, b + tail)
    requires Sub(m, before + a, b + tail) == y + Sub(m, before + a + b, tail)
    ensures Sub(m, before, a + b + tail) == x + y + Sub(m, before + (a + b), tail)
  {
    ChainText((s: string, t: string) => Sub(m, s, t), before, a, b, tail, x, y);
  }

  lemma {:induction false} ChainText(scan: (string, string) -> string, before: string, a: string, b: string,
          tail: string, x: string, y: string)
    requires scan(before, a + (b + tail)) == x + scan(before + a, b + tail)
    requires scan(before + a, b + tail) == y + scan(before + a + b, tail)
    ensures scan(before, a + b + tail) == x + y + scan(before + (a + b), tail)
  {
    assert a + b + tail == a + (b + tail) && before + (a + b) == before + a + b;
    var r := scan(before + a + b, tail);
    assert x + (y + r) == x + y + r;
  }

  lemma {:induction false} CopyOne(m: Matcher, before: string, a: string, b: string)
    requires |a| == 1 && m(before, a + b).NoMatch?
    ensures Sub(m, before, a + b) == a + Sub(m, before + a, b)
  {
    assert before + a[..0] == before && a[0..] == a;
    Copy(m, before, a, b);
  }

  /** A greedy run over `a` stops at its end when what follows leaves the class. */
  lemma {:induction false} RunOver(k: Class, a: string, b: string)
    requires All(k, a) && !StartsIn(k, b)
    ensures Run(k, a + b) == |a| && (a + b)[..|a|] == a && (a + b)[|a|..] == b
  {
    if a != "" {
      assert (a + b)[1..] == a[1..] + b;
      RunOver(k, a[1..], b);
    } else {
      assert a + b == b;
    }
  }
}
