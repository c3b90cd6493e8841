/** Cleaning a body that arrives as HTML or as plain text. `digit` is the class `\d` and
    `tokenize` the HTML tokenizer; both are parameters. */
module Cleaning {
  import opened Text
  import opened Rewriting
  import Spacing
  import opened Extraction
  import opened Tidying
  import opened LineBreaks

  type Tokenizer = string -> seq<Event>

  /** `html_to_text`, from the events of the document on. */
  function HtmlToText(digit: char -> bool, events: seq<Event>): string {
    Tidy(digit, Flatten(Feed(INITIAL, events).parts))
  }

  /** A search for `<[a-zA-Z/!][^>]*>`. */
  predicate LooksLikeHtml(s: string) {
    s != "" && ((|s| > 1 && s[0] == '<' && OpensTag(s[1]) && '>' in s[2..]) || LooksLikeHtml(s[1..]))
  }

  predicate OpensTag(c: char) {
    'a' <= c <= 'z' || 'A' <= c <= 'Z' || c == '/' || c == '!'
  }

  /** `body.replace("\r\n", "\n")`. */
  function UnixLines(s: string): string {
    if s == "" then ""
    else if |s| > 1 && s[0] == '\r' && s[1] == '\n' then "\n" + UnixLines(s[2..])
    else [s[0]] + UnixLines(s[1..])
  }

  function Clean(digit: char -> bool, tokenize: Tokenizer, body: string): string {
    if body == "" then ""
    else if LooksLikeHtml(body) then HtmlToText(digit, tokenize(body))
    else Tidy(digit, UnixLines(body))
  }

  // ---- what the extractor emits ------------------------------------------

  /** A part is newlines, one space, or a piece of one line that is not blank. */
  ghost predicate GoodPart(p: string) {
    p == "\n" || p == "\n\n" || p == " " || (OneLine(p) && !Blank(p))
  }

  ghost predicate GoodParts(parts: seq<string>) {
    forall i | 0 <= i < |parts| :: GoodPart(parts[i])
  }

  lemma {:induction false} HasInk(p: string, i: nat)
    requires i < |p| && !IsSpace(p[i])
    ensures !Blank(p)
  {
  }

  lemma {:induction false} IndentBlank(depth: nat)
    ensures OneLine(Indent(depth))
  {
    if depth > 0 { IndentBlank(depth - 1); }
  }

  lemma {:induction false} DecimalIsInk(n: nat)
    ensures Decimal(n) != "" && OneLine(Decimal(n)) && !IsSpace(Decimal(n)[0])
  {
    if n >= 10 { DecimalIsInk(n / 10); }
    DigitIsInk(n % 10);
  }

  lemma {:induction false} DigitIsInk(d: nat)
    requires d < 10
    ensures !IsSpace(DIGITS[d])
  {
    assert forall i | 0 <= i < |DIGITS| :: '0' <= DIGITS[i] <= '9';
  }

  lemma {:induction false} ItemPart(depth: nat, mark: string)
    requires OneLine(mark) && mark != "" && !IsSpace(mark[0])
    ensures GoodPart(Indent(depth) + mark)
  {
    IndentBlank(depth);
    HasInk(Indent(depth) + mark, |Indent(depth)|);
  }

  lemma {:induction false} OpeningIsGood(tag: string, depth: nat, ordered: bool, number: nat)
    ensures GoodParts(Opening(tag, depth, ordered, number))
  {
    if HeadingMark(tag) != "" {
      HasInk(HeadingMark(tag) + " ", 0);
    } else if tag == "li" {
      ItemIsGood(if depth > 0 then depth - 1 else 0, number);
    }
  }

  lemma {:induction false} ItemIsGood(d: nat, number: nat)
    ensures GoodPart(Indent(d) + Decimal(number) + ". ") && GoodPart(Indent(d) + "- ")
  {
    DecimalIsInk(number);
    ItemPart(d, Decimal(number) + ". ");
    ItemPart(d, "- ");
    Assoc(Indent(d), Decimal(number), ". ");
  }

  lemma {:induction false} LayoutOneLine(before: string, s: string)
    ensures OneLine(Sub(Rewriter(LAYOUT), before, s))
    decreases |s|
  {
    if s != "" {
      var m := Rewriter(LAYOUT);
      var hit := Spacing.RunMatch(Layout, 1, " ", before, s, "");
      var y, z, r := Spacing.ScanStep(m, before, s, "");
      assert s + "" == s && z + "" == z;
      LayoutOneLine(before + y, z);
      assert Run(Layout, s) == 0 ==> !InClass(Layout, s[0]);
    }
  }

  lemma {:induction false} DataIsGood(parts: seq<string>, data: string)
    requires GoodParts(parts)
    ensures GoodParts(WithData(parts, data))
  {
    var text := Apply(LAYOUT, data);
    LayoutOneLine("", data);
    StripEmptyIsBlank(text);
    var a := LStripParts(text);
    var t := LStrip(text);
    assert forall i | 0 <= i < |t| :: t[i] == text[|a| + i];
    if Strip(text) != "" {
      HasInk(t, 0);
    }
  }

  lemma {:induction false} StepIsGood(st: State, e: Event)
    requires Valid(st) && GoodParts(st.parts)
    ensures GoodParts(Step(st, e).parts)
  {
    match e
    case Start(tag) =>
      var n, added := StartParts(st, tag);
      OpeningIsGood(tag, |st.listStack|, n > 0, n);
      GoodConcat(st.parts, added);
    case End(tag) =>
      GoodConcat(st.parts, Closing(tag));
      GoodConcat(st.parts, ["\n\n"]);
    case Data(data) => DataIsGood(st.parts, data);
  }

  lemma {:induction false} GoodConcat(a: seq<string>, b: seq<string>)
    requires GoodParts(a) && GoodParts(b)
    ensures GoodParts(a + b)
  {
  }

  lemma {:induction false} FeedIsGood(st: State, es: seq<Event>)
    requires Valid(st) && GoodParts(st.parts)
    ensures GoodParts(Feed(st, es).parts)
    decreases |es|
  {
    if es != [] {
      StepIsGood(st, es[0]);
      StepValid(st, es[0]);
      FeedIsGood(Step(st, es[0]), es[1..]);
    }
  }

  // ---- the shape of cleaned HTML -----------------------------------------

  /** A line that is blank holds only spaces and tabs. */
  ghost predicate PlainLine(line: string) {
    Blank(line) ==> All(Trailing, line)
  }

  ghost predicate PlainLines(s: string) {
    forall i | 0 <= i < |Split(s)| :: PlainLine(Split(s)[i])
  }

  lemma {:induction false} SplitLine(p: string, s: string)
    requires OneLine(p)
    ensures Split(p + s) == [p + Split(s)[0]] + Split(s)[1..]
  {
    if p == "" {
      Unit(s);
      Unit(Split(s)[0]);
      assert [Split(s)[0]] + Split(s)[1..] == Split(s);
    } else {
      DropFirst(p, s);
      SplitLine(p[1..], s);
      SplitChar(p[0], p[1..] + s);
      assert p + s == [p[0]] + (p[1..] + s) && [p[0]] + (p[1..] + Split(s)[0]) == p + Split(s)[0];
    }
  }

  lemma {:induction false} BreakIsPlain(s: string)
    requires PlainLines(s)
    ensures PlainLines("\n" + s)
  {
    SplitBreak(s);
    forall i | 0 <= i < |Split("\n" + s)| ensures PlainLine(Split("\n" + s)[i]) {
      if i > 0 { assert Split("\n" + s)[i] == Split(s)[i - 1]; }
    }
  }

  lemma {:induction false} PieceIsPlain(p: string, s: string)
    requires PlainLines(s) && OneLine(p) && (p == " " || !Blank(p))
    ensures PlainLines(p + s)
  {
    SplitLine(p, s);
    var lines := Split(p + s);
    forall i | 0 <= i < |lines| ensures PlainLine(lines[i]) {
      if i > 0 { assert lines[i] == Split(s)[i]; } else { FirstIsPlain(p, Split(s)[0]); }
    }
  }

  lemma {:induction false} FirstIsPlain(p: string, line: string)
    requires PlainLine(line) && (p == " " || !Blank(p))
    ensures PlainLine(p + line)
  {
    AllParts(Trailing, p, line);
    AllParts(Space, p, line);
    assert Blank(p + line) <==> All(Space, p + line);
    assert Blank(p) <==> All(Space, p);
    assert Blank(line) <==> All(Space, line);
  }

  lemma {:induction false} PartsArePlain(parts: seq<string>)
    requires GoodParts(parts)
    ensures PlainLines(Flatten(parts))
  {
    if parts != [] {
      var p, rest := parts[0], Flatten(parts[1..]);
      PartsArePlain(parts[1..]);
      assert GoodPart(p);
      if p == "\n" {
        BreakIsPlain(rest);
      } else if p == "\n\n" {
        BreakIsPlain(rest);
        BreakIsPlain("\n" + rest);
        assert "\n\n" + rest == "\n" + ("\n" + rest);
      } else {
        PieceIsPlain(p, rest);
      }
    }
  }

  lemma {:induction false} PlainNoTriple(digit: char -> bool, s: string)
    requires PlainLines(s)
    ensures NoTriple(Tidy(digit, s))
  {
    TidyNoTripleIff(digit, s);
    forall i | 0 <= i < |Split(s)| - 1 ensures Strip(Split(s)[i]) == "" ==> TrimEnd(Split(s)[i]) == "" {
      assert PlainLine(Split(s)[i]);
      StripEmptyIsBlank(Split(s)[i]);
      TrimEndBlank(Split(s)[i]);
    }
    PlainIsNotCrowded(false, 0, Split(s));
  }

  /** Whatever the events, cleaned HTML has no two blank lines in a row, no trailing white
      space on a line, and leading white space only before a list marker. */
  lemma {:induction false} HtmlShape(digit: char -> bool, events: seq<Event>)
    requires Digits(digit)
    ensures var text := HtmlToText(digit, events);
      NoTriple(text) && AllShapely(digit, text) && Trimmed(text)
  {
    var parts := Feed(INITIAL, events).parts;
    FeedIsGood(INITIAL, events);
    PartsArePlain(parts);
    PlainNoTriple(digit, Flatten(parts));
    TidyIsShapely(digit, Flatten(parts));
  }

  /** `html_to_text` over the extractor object. */
  method CleanHtml(digit: char -> bool, events: seq<Event>) returns (text: string)
    ensures text == HtmlToText(digit, events)
  {
    var parts := Extract(events);
    text := Tidy(digit, Flatten(parts));
  }
}
