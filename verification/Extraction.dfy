/** The HTML text extractor: a machine over start tags, end tags and text, with a
    skip depth and two parallel stacks for the open lists. */
module Extraction {
  import opened Text
  import Rewriting

  const DROP: set<string> := {"script", "style", "noscript", "head", "iframe", "svg", "template"}
  const FURNITURE: set<string> := {"nav", "footer", "header", "aside", "menu", "form"}
  const BLOCK: set<string> := {
    "p", "div", "section", "article", "br", "hr", "tr", "table", "blockquote", "pre",
    "h1", "h2", "h3", "h4", "h5", "h6", "ul", "ol", "li", "dl", "dt", "dd"
  }

  /** Dropped elements and page furniture open a region that is skipped. */
  predicate Skips(tag: string) {
    tag in DROP || tag in FURNITURE
  }

  predicate IsList(tag: string) {
    tag == "ul" || tag == "ol"
  }

  /** The markdown mark of a heading, or "". */
  function HeadingMark(tag: string): string {
    if tag == "h1" then "#" else if tag == "h2" then "##" else if tag == "h3" then "###"
    else if tag == "h4" then "####" else if tag == "h5" then "#####" else if tag == "h6" then "######"
    else ""
  }

  datatype Event = Start(tag: string) | End(tag: string) | Data(data: string)

  datatype State = State(parts: seq<string>, skipDepth: nat, listStack: seq<string>, itemIndex: seq<nat>)

  const INITIAL := State([], 0, [], [])

  ghost predicate Valid(st: State) {
    |st.listStack| == |st.itemIndex|
  }

  function Indent(depth: nat): string {
    if depth == 0 then "" else "  " + Indent(depth - 1)
  }

  /** Two spaces for each level. */
  lemma {:induction false} IndentIs(depth: nat)
    ensures |Indent(depth)| == 2 * depth && forall i | 0 <= i < |Indent(depth)| :: Indent(depth)[i] == ' '
  {
    if depth > 0 { IndentIs(depth - 1); }
  }

  /** What opens an element that is no list: the new parts. */
  function Opening(tag: string, depth: nat, ordered: bool, number: nat): seq<string> {
    if HeadingMark(tag) != "" then ["\n\n", HeadingMark(tag) + " "]
    else if tag == "li" then
      var indent := Indent(if depth > 0 then depth - 1 else 0);
      ["\n", if ordered then indent + Decimal(number) + ". " else indent + "- "]
    else if tag == "br" then ["\n"]
    else if tag in BLOCK then ["\n\n"]
    else []
  }

  function Closing(tag: string): seq<string> {
    if tag == "li" then []
    else if HeadingMark(tag) != "" || tag in BLOCK then ["\n\n"]
    else []
  }

  function EndsBlank(part: string): bool {
    part != "" && (part[|part| - 1] == ' ' || part[|part| - 1] == '\n')
  }

  /** The parts after a piece of text. */
  function WithData(parts: seq<string>, data: string): seq<string> {
    var text := Rewriting.Apply(Rewriting.LAYOUT, data);
    if Strip(text) != "" then parts + [if parts != [] then text else LStrip(text)]
    else if text != "" && parts != [] && !EndsBlank(parts[|parts| - 1]) then parts + [" "]
    else parts
  }

  function Ordered(st: State): bool {
    st.listStack != [] && st.listStack[|st.listStack| - 1] == "ol"
  }

  function SetLast(s: seq<nat>, n: nat): seq<nat>
    requires s != []
  {
    s[..|s| - 1] + [n]
  }

  lemma {:induction false} LastSet(s: seq<nat>, n: nat)
    requires s != []
    ensures |SetLast(s, n)| == |s| && SetLast(s, n)[|s| - 1] == n
  {
  }

  function Step(st: State, e: Event): State
    requires Valid(st)
  {
    match e
    case Start(tag) =>
      if Skips(tag) then st.(skipDepth := st.skipDepth + 1)
      else if st.skipDepth > 0 then st
      else if IsList(tag) then
        st.(parts := if st.listStack == [] then st.parts + ["\n\n"] else st.parts,
            listStack := st.listStack + [tag], itemIndex := st.itemIndex + [0])
      else if tag == "li" && Ordered(st) then
        var n := st.itemIndex[|st.itemIndex| - 1] + 1;
        st.(parts := st.parts + Opening(tag, |st.listStack|, true, n), itemIndex := SetLast(st.itemIndex, n))
      else st.(parts := st.parts + Opening(tag, |st.listStack|, false, 0))
    case End(tag) =>
      if Skips(tag) then st.(skipDepth := if st.skipDepth > 0 then st.skipDepth - 1 else 0)
      else if st.skipDepth > 0 then st
      else if IsList(tag) then
        var lists := if st.listStack == [] then [] else st.listStack[..|st.listStack| - 1];
        var items := if st.listStack == [] then st.itemIndex else st.itemIndex[..|st.itemIndex| - 1];
        st.(parts := if lists == [] then st.parts + ["\n\n"] else st.parts, listStack := lists, itemIndex := items)
      else st.(parts := st.parts + Closing(tag))
    case Data(data) =>
      if st.skipDepth > 0 then st else st.(parts := WithData(st.parts, data))
  }

  lemma {:induction false} StepValid(st: State, e: Event)
    requires Valid(st)
    ensures Valid(Step(st, e))
  {
  }

  /** What a start tag emits. */
  lemma {:induction false} StartParts(st: State, tag: string) returns (n: nat, added: seq<string>)
    requires Valid(st)
    ensures Step(st, Start(tag)).parts == st.parts + added
    ensures added != [] ==> st.skipDepth == 0
    ensures added != [] ==> added == if IsList(tag) then ["\n\n"] else Opening(tag, |st.listStack|, n > 0, n)
  {
    n, added := 0, [];
    Unit(st.parts);
    if Skips(tag) || st.skipDepth > 0 {
    } else if IsList(tag) {
      if st.listStack == [] { added := ["\n\n"]; }
    } else {
      if tag == "li" && Ordered(st) { n := st.itemIndex[|st.itemIndex| - 1] + 1; }
      added := Opening(tag, |st.listStack|, n > 0, n);
    }
  }

  lemma {:induction false} Breaks()
    ensures Newlines(1) == "\n" && Newlines(2) == "\n\n"
  {
    assert Newlines(0) == "" && Newlines(1) == "\n" + Newlines(0) && Newlines(2) == "\n" + Newlines(1);
  }

  /** An item that is not skipped: a line break and its marker. */
  lemma {:induction false} ItemStep(st: State)
    requires Valid(st) && st.skipDepth == 0
    ensures var indent := Indent(if |st.listStack| > 0 then |st.listStack| - 1 else 0);
      var n := if Ordered(st) then st.itemIndex[|st.itemIndex| - 1] + 1 else 0;
      Step(st, Start("li"))
        == if Ordered(st) then
             st.(parts := st.parts + ["\n"] + [indent + Decimal(n) + ". "], itemIndex := SetLast(st.itemIndex, n))
           else st.(parts := st.parts + ["\n"] + [indent + "- "])
  {
  }

  function Feed(st: State, es: seq<Event>): (r: State)
    requires Valid(st)
    ensures Valid(r)
    decreases |es|
  {
    if es == [] then st else StepValid(st, es[0]); Feed(Step(st, es[0]), es[1..])
  }

  lemma {:induction false} FeedConcat(st: State, a: seq<Event>, b: seq<Event>)
    requires Valid(st)
    ensures Feed(st, a + b) == Feed(Feed(st, a), b)
    decreases |a|
  {
    if a == [] {
      assert a + b == b;
    } else {
      assert (a + b)[1..] == a[1..] + b;
      FeedConcat(Step(st, a[0]), a[1..], b);
    }
  }

  /** The extractor itself. */
  class TextExtractor {
    var parts: seq<string>
    var skipDepth: nat
    var listStack: seq<string>
    var itemIndex: seq<nat>

    ghost function View(): State
      reads this
    {
      State(parts, skipDepth, listStack, itemIndex)
    }

    constructor ()
      ensures View() == INITIAL
    {
      parts, skipDepth, listStack, itemIndex := [], 0, [], [];
    }

    method Emit(text: string)
      modifies this`parts
      ensures parts == old(parts) + [text]
    {
      parts := parts + [text];
    }

    /** `count` newlines as one part. */
    method NewLine(count: nat)
      modifies this`parts
      ensures parts == old(parts) + [Newlines(count)]
    {
      parts := parts + [Newlines(count)];
    }

    /** The `li` branch of the start tag handler. */
    method OpenItem()
      requires Valid(View()) && skipDepth == 0
      modifies this
      ensures Valid(View()) && View() == Step(old(View()), Start("li"))
    {
      ItemStep(View());
      Breaks();
      NewLine(1);
      var depth := if |listStack| > 0 then |listStack| - 1 else 0;
      var indent := Indent(depth);
      if listStack != [] && listStack[|listStack| - 1] == "ol" {
        LastSet(itemIndex, itemIndex[|itemIndex| - 1] + 1);
        itemIndex := SetLast(itemIndex, itemIndex[|itemIndex| - 1] + 1);
        Emit(indent + Decimal(itemIndex[|itemIndex| - 1]) + ". ");
      } else {
        Emit(indent + "- ");
      }
    }

    method HandleStartTag(tag: string)
      requires Valid(View())
      modifies this
      ensures Valid(View()) && View() == Step(old(View()), Start(tag))
    {
      if Skips(tag) {
        skipDepth := skipDepth + 1;
        return;
      }
      if skipDepth > 0 { return; }
      Breaks();
      if HeadingMark(tag) != "" {
        NewLine(2);
        Emit(HeadingMark(tag) + " ");
      } else if IsList(tag) {
        if listStack == [] { NewLine(2); }
        listStack := listStack + [tag];
        itemIndex := itemIndex + [0];
      } else if tag == "li" {
        OpenItem();
      } else if tag == "br" {
        NewLine(1);
      } else if tag in BLOCK {
        NewLine(2);
      }
    }

    method HandleEndTag(tag: string)
      requires Valid(View())
      modifies this
      ensures Valid(View()) && View() == Step(old(View()), End(tag))
    {
      if Skips(tag) {
        skipDepth := if skipDepth > 0 then skipDepth - 1 else 0;
        return;
      }
      if skipDepth > 0 { return; }
      Breaks();
      if IsList(tag) {
        if listStack != [] {
          listStack := listStack[..|listStack| - 1];
          itemIndex := itemIndex[..|itemIndex| - 1];
        }
        if listStack == [] { NewLine(2); }
      } else if tag == "li" {
        return;
      } else if HeadingMark(tag) != "" || tag in BLOCK {
        NewLine(2);
      }
    }

    method HandleData(data: string)
      requires Valid(View())
      modifies this
      ensures Valid(View()) && View() == Step(old(View()), Data(data))
    {
      if skipDepth > 0 { return; }
      var text := Rewriting.Apply(Rewriting.LAYOUT, data);
      if Strip(text) != "" {
        Emit(if parts != [] then text else LStrip(text));
      } else if text != "" && parts != [] && !EndsBlank(parts[|parts| - 1]) {
        Emit(" ");
      }
    }
  }

  /** Feeding the events of a document, one after the other. */
  method Extract(events: seq<Event>) returns (parts: seq<string>)
    ensures parts == Feed(INITIAL, events).parts
  {
    var parser := new TextExtractor();
    assert events[0..] == events;
    for i := 0 to |events|
      invariant Valid(parser.View()) && Feed(parser.View(), events[i..]) == Feed(INITIAL, events)
    {
      assert events[i..][1..] == events[i + 1..];
      match events[i]
      case Start(tag) => parser.HandleStartTag(tag);
      case End(tag) => parser.HandleEndTag(tag);
      case Data(data) => parser.HandleData(data);
    }
    parts := parser.parts;
  }
}
