/** The extractor on documents: dropped regions leave no trace, and on a tree of
    elements the stacks do what a recursive rendering without stacks does. */
module ExtractionTrees {
  import opened Extraction

  // ---- dropped regions ---------------------------------------------------

  /** Skipping tags are balanced, `depth` of them being open; other events are free. */
  predicate Balanced(depth: nat, es: seq<Event>)
    decreases |es|
  {
    if es == [] then depth == 0
    else match es[0]
      case Start(tag) => Balanced(if Skips(tag) then depth + 1 else depth, es[1..])
      case End(tag) => if Skips(tag) then depth > 0 && Balanced(depth - 1, es[1..]) else Balanced(depth, es[1..])
      case Data(_) => Balanced(depth, es[1..])
  }

  lemma {:induction false} SkippedContent(st: State, depth: nat, es: seq<Event>, base: nat)
    requires Valid(st) && base > 0 && st.skipDepth == base + depth && Balanced(depth, es)
    ensures Feed(st, es) == st.(skipDepth := base)
    decreases |es|
  {
    if es != [] {
      var next := Step(st, es[0]);
      SkippedContent(next, next.skipDepth - base, es[1..], base);
    }
  }

  /** A dropped element or piece of furniture, with any balanced content, anywhere in a
      document, changes nothing: neither the text nor the list state nor the skip depth. */
  lemma {:induction false} DroppedRegion(st: State, open: string, content: seq<Event>, close: string)
    requires Valid(st) && Skips(open) && Skips(close) && Balanced(0, content)
    ensures Feed(st, [Start(open)] + content + [End(close)]) == st
  {
    var inside := Step(st, Start(open));
    FeedConcat(st, [Start(open)] + content, [End(close)]);
    FeedConcat(st, [Start(open)], content);
    FeedOne(st, Start(open));
    SkippedContent(inside, 0, content, st.skipDepth + 1);
    FeedOne(inside, End(close));
  }

  lemma {:induction false} FeedOne(st: State, e: Event)
    requires Valid(st)
    ensures Feed(st, [e]) == Step(st, e)
  {
    assert [e][1..] == [];
  }

  lemma {:induction false} DroppedRegionInvisible(before: seq<Event>, open: string, content: seq<Event>,
          close: string, after: seq<Event>)
    requires Skips(open) && Skips(close) && Balanced(0, content)
    ensures Feed(INITIAL, before + ([Start(open)] + content + [End(close)]) + after) == Feed(INITIAL, before + after)
  {
    var region := [Start(open)] + content + [End(close)];
    FeedConcat(INITIAL, before + region, after);
    FeedConcat(INITIAL, before, region);
    FeedConcat(INITIAL, before, after);
    DroppedRegion(Feed(INITIAL, before), open, content, close);
  }

  // ---- trees -------------------------------------------------------------

  /** A document as a tree; `Void` is a start tag that is never closed, such as `br`. */
  datatype Node = Text(data: string) | Void(tag: string) | Element(tag: string, children: seq<Node>)

  predicate WellFormed(n: Node) {
    match n
    case Text(_) => true
    case Void(tag) => !Skips(tag) && !IsList(tag)
    case Element(_, children) => AllWellFormed(children)
  }

  predicate AllWellFormed(ns: seq<Node>) {
    forall i | 0 <= i < |ns| :: WellFormed(ns[i])
  }

  function EventsOf(n: Node): seq<Event>
    decreases n, 1
  {
    match n
    case Text(data) => [Data(data)]
    case Void(tag) => [Start(tag)]
    case Element(tag, children) => [Start(tag)] + EventsOfAll(children) + [End(tag)]
  }

  function EventsOfAll(ns: seq<Node>): seq<Event>
    decreases ns, 0
  {
    if ns == [] then [] else EventsOf(ns[0]) + EventsOfAll(ns[1..])
  }

  /** Where a node stands: how many lists are open, whether the innermost is an `ol`,
      and how many of its items have been rendered. */
  datatype Place = Place(depth: nat, ordered: bool, count: nat)

  datatype Rendering = Rendering(parts: seq<string>, count: nat)

  /** The recursive rendering: a list starts its own count, and gives the outer one back. */
  function RenderNode(parts: seq<string>, place: Place, n: Node): Rendering
    decreases n, 1
  {
    match n
    case Text(data) => Rendering(WithData(parts, data), place.count)
    case Void(tag) => RenderOpening(parts, place, tag)
    case Element(tag, children) =>
      if Skips(tag) then Rendering(parts, place.count)
      else if IsList(tag) then
        var outermost := if place.depth == 0 then ["\n\n"] else [];
        var inside := RenderAll(parts + outermost, Place(place.depth + 1, tag == "ol", 0), children);
        Rendering(inside.parts + outermost, place.count)
      else
        var opening := RenderOpening(parts, place, tag);
        var inside := RenderAll(opening.parts, place.(count := opening.count), children);
        Rendering(inside.parts + Closing(tag), inside.count)
  }

  function RenderOpening(parts: seq<string>, place: Place, tag: string): Rendering {
    var count := if tag == "li" && place.ordered then place.count + 1 else place.count;
    Rendering(parts + Opening(tag, place.depth, tag == "li" && place.ordered, count), count)
  }

  function RenderAll(parts: seq<string>, place: Place, ns: seq<Node>): Rendering
    decreases ns, 0
  {
    if ns == [] then Rendering(parts, place.count)
    else
      var first := RenderNode(parts, place, ns[0]);
      RenderAll(first.parts, place.(count := first.count), ns[1..])
  }

  // ---- the machine renders the tree --------------------------------------

  function PlaceOf(st: State): Place {
    Place(|st.listStack|, Ordered(st), if st.itemIndex == [] then 0 else st.itemIndex[|st.itemIndex| - 1])
  }

  /** The state with new parts and a new count of the innermost list; the stacks are as before. */
  function After(st: State, r: Rendering): State {
    st.(parts := r.parts, itemIndex := if st.itemIndex == [] then [] else SetLast(st.itemIndex, r.count))
  }

  /** Outside an ordered list nothing is counted. */
  lemma {:induction false} Uncounted(parts: seq<string>, place: Place, n: Node)
    requires !place.ordered
    ensures RenderNode(parts, place, n).count == place.count
    decreases n, 1
  {
    match n
    case Text(_) =>
    case Void(_) =>
    case Element(tag, children) =>
      if !Skips(tag) && !IsList(tag) {
        UncountedAll(RenderOpening(parts, place, tag).parts, place, children);
      }
  }

  lemma {:induction false} UncountedAll(parts: seq<string>, place: Place, ns: seq<Node>)
    requires !place.ordered
    ensures RenderAll(parts, place, ns).count == place.count
    decreases ns, 0
  {
    if ns != [] {
      Uncounted(parts, place, ns[0]);
      UncountedAll(RenderNode(parts, place, ns[0]).parts, place, ns[1..]);
    }
  }

  lemma {:induction false} PlaceAfter(st: State, r: Rendering)
    requires Valid(st) && (!Ordered(st) ==> r.count == PlaceOf(st).count)
    ensures Valid(After(st, r)) && PlaceOf(After(st, r)) == PlaceOf(st).(count := r.count)
    ensures After(st, r).skipDepth == st.skipDepth
  {
  }

  lemma {:induction false} BalancedEvents(n: Node, rest: seq<Event>, depth: nat)
    requires WellFormed(n) && Balanced(depth, rest)
    ensures Balanced(depth, EventsOf(n) + rest)
    decreases n, 1
  {
    match n
    case Text(data) => assert (EventsOf(n) + rest)[1..] == rest;
    case Void(tag) => assert (EventsOf(n) + rest)[1..] == rest;
    case Element(tag, children) =>
      var inside := EventsOfAll(children);
      var d := if Skips(tag) then depth + 1 else depth;
      assert ([End(tag)] + rest)[1..] == rest;
      BalancedAll(children, [End(tag)] + rest, d);
      assert EventsOf(n) + rest == [Start(tag)] + (inside + ([End(tag)] + rest));
      assert (EventsOf(n) + rest)[1..] == inside + ([End(tag)] + rest);
  }

  lemma {:induction false} BalancedAll(ns: seq<Node>, rest: seq<Event>, depth: nat)
    requires AllWellFormed(ns) && Balanced(depth, rest)
    ensures Balanced(depth, EventsOfAll(ns) + rest)
    decreases ns, 0
  {
    if ns == [] {
      assert EventsOfAll(ns) + rest == rest;
    } else {
      BalancedAll(ns[1..], rest, depth);
      BalancedEvents(ns[0], EventsOfAll(ns[1..]) + rest, depth);
      assert EventsOfAll(ns) + rest == EventsOf(ns[0]) + (EventsOfAll(ns[1..]) + rest);
    }
  }

  /** On every well-nested tree the machine renders recursively and restores its stacks. */
  lemma {:induction false} MachineRenders(st: State, n: Node)
    requires Valid(st) && st.skipDepth == 0 && WellFormed(n)
    ensures Feed(st, EventsOf(n)) == After(st, RenderNode(st.parts, PlaceOf(st), n))
    decreases n, 1
  {
    match n
    case Text(data) => LeafRenders(st, n);
    case Void(tag) => LeafRenders(st, n);
    case Element(tag, children) =>
      if Skips(tag) {
        MachineSkips(st, tag, children);
      } else {
        MachineRendersAll(Step(st, Start(tag)), children);
        ElementRenders(st, tag, children);
      }
  }

  lemma {:induction false} LeafRenders(st: State, n: Node)
    requires Valid(st) && st.skipDepth == 0 && WellFormed(n) && !n.Element?
    ensures Feed(st, EventsOf(n)) == After(st, RenderNode(st.parts, PlaceOf(st), n))
  {
    FeedOne(st, if n.Text? then Data(n.data) else Start(n.tag));
  }

  lemma {:induction false} ElementRenders(st: State, tag: string, children: seq<Node>)
    requires Valid(st) && st.skipDepth == 0 && !Skips(tag)
    requires var inside := Step(st, Start(tag));
      Feed(inside, EventsOfAll(children)) == After(inside, RenderAll(inside.parts, PlaceOf(inside), children))
    ensures Feed(st, EventsOf(Element(tag, children)))
         == After(st, RenderNode(st.parts, PlaceOf(st), Element(tag, children)))
  {
    ThreeFeeds(st, Start(tag), EventsOfAll(children), End(tag));
    if IsList(tag) { ListRenders(st, tag, children); } else { PlainRenders(st, tag, children); }
  }

  lemma {:induction false} ListRenders(st: State, tag: string, children: seq<Node>)
    requires Valid(st) && st.skipDepth == 0 && !Skips(tag) && IsList(tag)
    ensures var inside := Step(st, Start(tag));
      Step(After(inside, RenderAll(inside.parts, PlaceOf(inside), children)), End(tag))
      == After(st, RenderNode(st.parts, PlaceOf(st), Element(tag, children)))
  {
    var inside := Step(st, Start(tag));
    ClosesList(st, tag, RenderAll(inside.parts, PlaceOf(inside), children));
  }

  lemma {:induction false} PlainRenders(st: State, tag: string, children: seq<Node>)
    requires Valid(st) && st.skipDepth == 0 && !Skips(tag) && !IsList(tag)
    ensures var inside := Step(st, Start(tag));
      Step(After(inside, RenderAll(inside.parts, PlaceOf(inside), children)), End(tag))
      == After(st, RenderNode(st.parts, PlaceOf(st), Element(tag, children)))
  {
    var inside := Step(st, Start(tag));
    ClosesElement(st, tag, RenderAll(inside.parts, PlaceOf(inside), children));
  }

  lemma {:induction false} MachineSkips(st: State, tag: string, children: seq<Node>)
    requires Valid(st) && st.skipDepth == 0 && Skips(tag) && WellFormed(Element(tag, children))
    ensures Feed(st, EventsOf(Element(tag, children)))
         == After(st, RenderNode(st.parts, PlaceOf(st), Element(tag, children)))
  {
    BalancedAll(children, [], 0);
    assert EventsOfAll(children) + [] == EventsOfAll(children);
    DroppedRegion(st, tag, EventsOfAll(children), tag);
    if st.itemIndex != [] { assert SetLast(st.itemIndex, PlaceOf(st).count) == st.itemIndex; }
  }

  lemma {:induction false} ThreeFeeds(st: State, a: Event, es: seq<Event>, b: Event)
    requires Valid(st)
    ensures Feed(st, [a] + es + [b]) == Step(Feed(Step(st, a), es), b)
  {
    FeedConcat(st, [a] + es, [b]);
    FeedConcat(st, [a], es);
    FeedOne(st, a);
    FeedOne(Feed(Step(st, a), es), b);
  }

  lemma {:induction false} ClosesList(st: State, tag: string, r: Rendering)
    requires Valid(st) && st.skipDepth == 0 && IsList(tag) && !Skips(tag)
    ensures var inside := Step(st, Start(tag));
      && inside.parts == st.parts + (if st.listStack == [] then ["\n\n"] else [])
      && Step(After(inside, r), End(tag)) == st.(parts := r.parts + if st.listStack == [] then ["\n\n"] else [])
      && PlaceOf(inside) == Place(|st.listStack| + 1, tag == "ol", 0)
      && After(st, Rendering(r.parts, PlaceOf(st).count)) == st.(parts := r.parts)
  {
    var inside := Step(st, Start(tag));
    var out := After(inside, r);
    assert out.listStack[..|out.listStack| - 1] == st.listStack && out.itemIndex[..|out.itemIndex| - 1] == st.itemIndex;
    assert r.parts + [] == r.parts && st.parts + [] == st.parts;
    if st.itemIndex != [] { assert SetLast(st.itemIndex, PlaceOf(st).count) == st.itemIndex; }
  }

  lemma {:induction false} ClosesElement(st: State, tag: string, r: Rendering)
    requires Valid(st) && st.skipDepth == 0 && !IsList(tag) && !Skips(tag)
    ensures var inside, o := Step(st, Start(tag)), RenderOpening(st.parts, PlaceOf(st), tag);
      && inside.parts == o.parts && PlaceOf(inside) == PlaceOf(st).(count := o.count)
      && Step(After(inside, r), End(tag)) == After(st, Rendering(r.parts + Closing(tag), r.count))
  {
    var inside := Step(st, Start(tag));
    if st.itemIndex != [] { assert SetLast(inside.itemIndex, r.count) == SetLast(st.itemIndex, r.count); }
  }

  lemma {:induction false} MachineRendersAll(st: State, ns: seq<Node>)
    requires Valid(st) && st.skipDepth == 0 && AllWellFormed(ns)
    ensures Feed(st, EventsOfAll(ns)) == After(st, RenderAll(st.parts, PlaceOf(st), ns))
    decreases ns, 0
  {
    if ns == [] {
      if st.itemIndex != [] { assert SetLast(st.itemIndex, PlaceOf(st).count) == st.itemIndex; }
    } else {
      var r := RenderNode(st.parts, PlaceOf(st), ns[0]);
      MachineRenders(st, ns[0]);
      if !Ordered(st) { Uncounted(st.parts, PlaceOf(st), ns[0]); }
      PlaceAfter(st, r);
      MachineRendersAll(After(st, r), ns[1..]);
      FeedConcat(st, EventsOf(ns[0]), EventsOfAll(ns[1..]));
      AfterTwice(st, r, RenderAll(r.parts, PlaceOf(st).(count := r.count), ns[1..]));
    }
  }

  lemma {:induction false} AfterTwice(st: State, r: Rendering, r': Rendering)
    ensures After(After(st, r), r') == After(st, r')
  {
    if st.itemIndex != [] {
      assert SetLast(SetLast(st.itemIndex, r.count), r'.count) == SetLast(st.itemIndex, r'.count);
    }
  }
}
