/** The items of an ordered list are numbered in order, whatever is nested in them. */
module ListNumbering {
  import Text
  import opened Extraction
  import opened ExtractionTrees

  /** The list items of a node that belong to the list around it: not those inside a
      nested list or a dropped region. */
  function BareOf(n: Node): nat
    decreases n, 1
  {
    match n
    case Text(_) => 0
    case Void(tag) => if tag == "li" then 1 else 0
    case Element(tag, children) =>
      if Skips(tag) || IsList(tag) then 0 else (if tag == "li" then 1 else 0) + Bare(children)
  }

  function Bare(ns: seq<Node>): nat
    decreases ns, 0
  {
    if ns == [] then 0 else BareOf(ns[0]) + Bare(ns[1..])
  }

  /** An `li`, closed or not. */
  predicate IsItem(n: Node) {
    !n.Text? && n.tag == "li"
  }

  /** The items directly inside a list. */
  function Items(ns: seq<Node>): nat {
    if ns == [] then 0 else (if IsItem(ns[0]) then 1 else 0) + Items(ns[1..])
  }

  /** The count of the innermost list grows by the items that belong to it. */
  lemma {:induction false} NodeCounted(parts: seq<string>, place: Place, n: Node)
    requires place.ordered
    ensures RenderNode(parts, place, n).count == place.count + BareOf(n)
    decreases n, 1
  {
    match n
    case Text(_) =>
    case Void(_) =>
    case Element(tag, children) =>
      if !Skips(tag) && !IsList(tag) {
        var o := RenderOpening(parts, place, tag);
        NodesCounted(o.parts, place.(count := o.count), children);
      }
  }

  lemma {:induction false} NodesCounted(parts: seq<string>, place: Place, ns: seq<Node>)
    requires place.ordered
    ensures RenderAll(parts, place, ns).count == place.count + Bare(ns)
    decreases ns, 0
  {
    if ns != [] {
      var first := RenderNode(parts, place, ns[0]);
      NodeCounted(parts, place, ns[0]);
      NodesCounted(first.parts, place.(count := first.count), ns[1..]);
    }
  }

  lemma {:induction false} ItemIsNoSkip()
    ensures !Skips("li") && !IsList("li")
  {
  }

  /** Rendering only appends. */
  lemma {:induction false} OpeningGrows(parts: seq<string>, place: Place, tag: string)
    ensures parts <= RenderOpening(parts, place, tag).parts
  {
  }

  lemma {:induction false} PartsGrow(parts: seq<string>, place: Place, n: Node)
    ensures parts <= RenderNode(parts, place, n).parts
    decreases n, 1
  {
    match n
    case Text(_) =>
    case Void(_) =>
    case Element(tag, children) =>
      if IsList(tag) {
        var outermost := if place.depth == 0 then ["\n\n"] else [];
        PartsGrowAll(parts + outermost, Place(place.depth + 1, tag == "ol", 0), children);
      } else {
        var o := RenderOpening(parts, place, tag);
        OpeningGrows(parts, place, tag);
        PartsGrowAll(o.parts, place.(count := o.count), children);
      }
  }

  lemma {:induction false} PartsGrowAll(parts: seq<string>, place: Place, ns: seq<Node>)
    ensures parts <= RenderAll(parts, place, ns).parts
    decreases ns, 0
  {
    if ns != [] {
      var first := RenderNode(parts, place, ns[0]);
      PartsGrow(parts, place, ns[0]);
      PartsGrowAll(first.parts, place.(count := first.count), ns[1..]);
    }
  }

  lemma {:induction false} RenderInTwo(parts: seq<string>, place: Place, a: seq<Node>, b: seq<Node>)
    ensures var r := RenderAll(parts, place, a);
      RenderAll(parts, place, a + b) == RenderAll(r.parts, place.(count := r.count), b)
    decreases |a|
  {
    if a == [] {
      assert a + b == b;
    } else {
      var first := RenderNode(parts, place, a[0]);
      assert (a + b)[1..] == a[1..] + b;
      RenderInTwo(first.parts, place.(count := first.count), a[1..], b);
    }
  }

  function Header(depth: nat, number: nat): seq<string> {
    ["\n", Indent(depth) + Text.Decimal(number) + ". "]
  }

  /** What an item of an ordered list puts first. */
  lemma {:induction false} ItemOpens(parts: seq<string>, depth: nat, count: nat, item: Node, rest: seq<Node>)
    requires IsItem(item)
    ensures parts + Header(depth, count + 1) <= RenderAll(parts, Place(depth + 1, true, count), [item] + rest).parts
  {
    var here := Place(depth + 1, true, count);
    var o, r := RenderOpening(parts, here, "li"), RenderNode(parts, here, item);
    assert o.parts == parts + Header(depth, count + 1) by { ItemIsNoSkip(); }
    assert o.parts <= r.parts by {
      ItemIsNoSkip();
      if item.Element? { PartsGrowAll(o.parts, here.(count := o.count), item.children); }
    }
    assert ([item] + rest)[1..] == rest;
    PartsGrowAll(r.parts, here.(count := r.count), rest);
  }

  /** The parts before child `i` of an ordered list. */
  function PartsBefore(parts: seq<string>, depth: nat, children: seq<Node>, i: nat): seq<string>
    requires i <= |children|
  {
    RenderAll(parts, Place(depth + 1, true, 0), children[..i]).parts
  }

  /** Where item `i` of an ordered list begins, its own header comes next. */
  lemma {:induction false} ItemHeader(parts: seq<string>, depth: nat, children: seq<Node>, i: nat)
    requires i < |children| && IsItem(children[i])
    ensures PartsBefore(parts, depth, children, i) + Header(depth, Bare(children[..i]) + 1)
         <= RenderAll(parts, Place(depth + 1, true, 0), children).parts
  {
    HeaderBetween(parts, depth, children[..i], children[i..]);
    assert children == children[..i] + children[i..];
  }

  lemma {:induction false} HeaderBetween(parts: seq<string>, depth: nat, a: seq<Node>, b: seq<Node>)
    requires b != [] && IsItem(b[0])
    ensures RenderAll(parts, Place(depth + 1, true, 0), a).parts + Header(depth, Bare(a) + 1)
         <= RenderAll(parts, Place(depth + 1, true, 0), a + b).parts
  {
    var place := Place(depth + 1, true, 0);
    var r, whole := RenderAll(parts, place, a), RenderAll(parts, place, a + b);
    assert r.count == Bare(a) by { NodesCounted(parts, place, a); }
    assert whole == RenderAll(r.parts, Place(depth + 1, true, r.count), b) by { RenderInTwo(parts, place, a, b); }
    FirstItemOpens(r, depth, b, whole);
  }

  lemma {:induction false} FirstItemOpens(before: Rendering, depth: nat, ns: seq<Node>, whole: Rendering)
    requires ns != [] && IsItem(ns[0]) && whole == RenderAll(before.parts, Place(depth + 1, true, before.count), ns)
    ensures before.parts + Header(depth, before.count + 1) <= whole.parts
  {
    ItemOpens(before.parts, depth, before.count, ns[0], ns[1..]);
    assert ns == [ns[0]] + ns[1..];
  }

  function BlockBreak(st: State): seq<string> {
    if st.listStack == [] then ["\n\n"] else []
  }

  /** A whole list gives both stacks back as they were. */
  lemma {:induction false} ListRestores(st: State, tag: string, children: seq<Node>)
    requires Valid(st) && st.skipDepth == 0 && AllWellFormed(children) && IsList(tag)
    ensures var inside := RenderAll(st.parts + BlockBreak(st), Place(|st.listStack| + 1, tag == "ol", 0), children);
      Feed(st, EventsOf(Element(tag, children))) == st.(parts := inside.parts + BlockBreak(st))
  {
    MachineRenders(st, Element(tag, children));
    RenderList(st.parts, PlaceOf(st), tag, children);
    AfterSameCount(st, RenderNode(st.parts, PlaceOf(st), Element(tag, children)));
  }

  lemma {:induction false} RenderList(parts: seq<string>, place: Place, tag: string, children: seq<Node>)
    requires IsList(tag)
    ensures var outermost := if place.depth == 0 then ["\n\n"] else [];
      var inside := RenderAll(parts + outermost, Place(place.depth + 1, tag == "ol", 0), children);
      RenderNode(parts, place, Element(tag, children)) == Rendering(inside.parts + outermost, place.count)
  {
  }

  lemma {:induction false} AfterSameCount(st: State, r: Rendering)
    requires Valid(st) && r.count == PlaceOf(st).count
    ensures After(st, r) == st.(parts := r.parts)
  {
    if st.itemIndex != [] { assert SetLast(st.itemIndex, r.count) == st.itemIndex; }
  }

  /** In the extractor, an item directly inside an `ol` gets the number of items of that
      list before it plus one, behind two spaces for every list around that `ol`, whatever
      else the list holds, and the stacks come back as they were. */
  lemma {:induction false} OrderedListNumbered(st: State, children: seq<Node>, i: nat)
    requires Valid(st) && st.skipDepth == 0 && AllWellFormed(children)
    requires i < |children| && IsItem(children[i])
    ensures var out := Feed(st, EventsOf(Element("ol", children)));
      && out.listStack == st.listStack && out.itemIndex == st.itemIndex && out.skipDepth == 0
      && PartsBefore(st.parts + BlockBreak(st), |st.listStack|, children, i)
         + Header(|st.listStack|, Bare(children[..i]) + 1) <= out.parts
  {
    ListRestores(st, "ol", children);
    ItemHeader(st.parts + BlockBreak(st), |st.listStack|, children, i);
  }

  // ---- the n-th item -----------------------------------------------------

  /** An item of the list outside the items directly in it: within another element, or
      within one of those items. */
  function StrayOf(n: Node): nat {
    if n.Element? && n.tag == "li" then Bare(n.children) else if IsItem(n) then 0 else BareOf(n)
  }

  predicate NoStrays(ns: seq<Node>) {
    forall i | 0 <= i < |ns| :: StrayOf(ns[i]) == 0
  }

  lemma {:induction false} BareIsItems(ns: seq<Node>)
    ensures Bare(ns) >= Items(ns)
    ensures Bare(ns) == Items(ns) <==> NoStrays(ns)
    decreases |ns|
  {
    if ns != [] {
      BareIsItems(ns[1..]);
      ItemIsNoSkip();
      assert BareOf(ns[0]) == (if IsItem(ns[0]) then 1 else 0) + StrayOf(ns[0]);
      assert NoStrays(ns) <==> StrayOf(ns[0]) == 0 && NoStrays(ns[1..]) by { StraysCons(ns); }
    }
  }

  lemma {:induction false} StraysCons(ns: seq<Node>)
    requires ns != []
    ensures NoStrays(ns) <==> StrayOf(ns[0]) == 0 && NoStrays(ns[1..])
  {
    assert forall i | 0 <= i < |ns[1..]| :: ns[1..][i] == ns[i + 1];
    if StrayOf(ns[0]) == 0 && NoStrays(ns[1..]) {
      forall i | 0 <= i < |ns| ensures StrayOf(ns[i]) == 0 { if i > 0 { assert ns[i] == ns[1..][i - 1]; } }
    }
  }

  /** The number of the n-th item directly inside an `ol` is n exactly when no child before
      it holds an item of this list that is not directly inside it. */
  lemma {:induction false} NthItemIsN(children: seq<Node>, i: nat)
    requires i < |children| && IsItem(children[i])
    ensures Items(children[..i + 1]) == Items(children[..i]) + 1
    ensures Bare(children[..i]) + 1 == Items(children[..i + 1]) <==> NoStrays(children[..i])
  {
    BareIsItems(children[..i]);
    ItemsSnoc(children[..i], children[i]);
    assert children[..i + 1] == children[..i] + [children[i]];
  }

  lemma {:induction false} ItemsSnoc(ns: seq<Node>, n: Node)
    ensures Items(ns + [n]) == Items(ns) + if IsItem(n) then 1 else 0
    decreases |ns|
  {
    if ns != [] {
      Text.DropFirst(ns, [n]);
      ItemsSnoc(ns[1..], n);
    }
  }
}
