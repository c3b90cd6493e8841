/** What the tags of a document do, name by name. */
module Tags {
  import Text
  import opened Extraction

  /** Elements that are dropped with all they hold. */
  predicate IsDropped(tag: string) {
    tag in {"script", "style", "noscript", "head", "iframe", "svg", "template",
            "nav", "footer", "header", "aside", "menu", "form"}
  }

  /** Elements that stand in a paragraph of their own and have no marker. */
  predicate IsBlock(tag: string) {
    tag in {"p", "div", "section", "article", "hr", "tr", "table", "blockquote", "pre", "dl", "dt", "dd"}
  }

  predicate IsHeading(tag: string) { tag in {"h1", "h2", "h3", "h4", "h5", "h6"} }

  /** Outside skipped regions: dropped elements open one, blocks and line breaks bring
      newlines, and a tag that is none of these, no heading and no list changes nothing. */
  lemma {:induction false} TagEffects(st: State, tag: string)
    requires Valid(st) && st.skipDepth == 0 && !IsHeading(tag) && tag !in {"ul", "ol", "li"}
    ensures Step(st, Start(tag))
         == if IsDropped(tag) then st.(skipDepth := 1)
            else if IsBlock(tag) then st.(parts := st.parts + ["\n\n"])
            else if tag == "br" then st.(parts := st.parts + ["\n"])
            else st
    ensures Step(st, End(tag))
         == if IsBlock(tag) || tag == "br" then st.(parts := st.parts + ["\n\n"]) else st
  {
    TagLists(tag);
    assert st.parts + [] == st.parts;
  }

  lemma {:induction false} TagLists(tag: string)
    ensures Skips(tag) <==> IsDropped(tag)
    ensures tag in BLOCK <==> IsBlock(tag) || IsHeading(tag) || tag in {"br", "ul", "ol", "li"}
    ensures HeadingMark(tag) != "" <==> IsHeading(tag)
  {
  }

  /** Inside a skipped region only the elements that are dropped count, and nothing is
      emitted. */
  lemma {:induction false} SkippedEvents(st: State, e: Event)
    requires Valid(st) && st.skipDepth > 0
    ensures Step(st, e)
         == match e
            case Start(tag) => if IsDropped(tag) then st.(skipDepth := st.skipDepth + 1) else st
            case End(tag) => if IsDropped(tag) then st.(skipDepth := st.skipDepth - 1) else st
            case Data(_) => st
  {
    if !e.Data? { TagLists(e.tag); }
  }

  /** A list is pushed with a count of its own and popped again; only an outermost one
      brings newlines. */
  lemma {:induction false} ListEffect(st: State, tag: string)
    requires Valid(st) && st.skipDepth == 0 && (tag == "ul" || tag == "ol")
    ensures Step(st, Start(tag))
         == State(st.parts + (if st.listStack == [] then ["\n\n"] else []), 0, st.listStack + [tag], st.itemIndex + [0])
    ensures var n := if st.listStack == [] then 0 else |st.listStack| - 1;
      Step(st, End(tag))
        == State(st.parts + (if n == 0 then ["\n\n"] else []), 0, st.listStack[..n], st.itemIndex[..n])
  {
    TagLists(tag);
    assert st.parts + [] == st.parts;
  }

  /** An item is a line of its own: two spaces for each list around its own, and its
      number in an ordered list, a dash elsewhere. */
  lemma {:induction false} ItemEffect(st: State)
    requires Valid(st) && st.skipDepth == 0
    ensures var d := if st.listStack == [] then 0 else |st.listStack| - 1;
      var r := Step(st, Start("li"));
      if st.listStack != [] && st.listStack[d] == "ol" then
        && r.itemIndex == st.itemIndex[d := st.itemIndex[d] + 1] && r.listStack == st.listStack && r.skipDepth == 0
        && r.parts == st.parts + ["\n"] + [Indent(d) + Text.Decimal(st.itemIndex[d] + 1) + ". "]
      else r == st.(parts := st.parts + ["\n"] + [Indent(d) + "- "])
    ensures Step(st, End("li")) == st
  {
    ItemStep(st);
    TagLists("li");
    assert st.parts + [] == st.parts;
  }
}
