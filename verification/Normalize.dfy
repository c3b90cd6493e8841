/** The Persian normaliser, past its character maps, and the description of its
    result token by token. */
module Normalize {
  import Text
  import opened Rewriting
  import opened Tokens
  import opened Stages
  import opened Spacing
  import Edges
  import Lines

  /** The passes in their order. */
  function Normalized(stems: seq<string>, s: string): string {
    if s == "" then "" else
    var t := Apply(PrefixSpaced, s);
    var t := Apply(PrefixAttached(stems), t);
    var t := Apply(SuffixSpaced, t);
    var t := Apply(HALF_SPACE_RUN, t);
    var t := Apply(HalfSpaceAtEdge, t);
    var t := Untab(t);
    var t := Apply(SPACES, t);
    var t := Apply(BLANK_LINES, t);
    Text.Strip(StripLines(t))
  }

  /** The result, token by token: words parted, separators settled. */
  function Result(stems: seq<string>, prev: Token, ts: seq<Token>): string {
    Flow(With(stems, Settled), prev, ts)
  }

  /** The nine passes together rewrite each token on its own, looking only at its
      two neighbours. */
  lemma {:induction false} NormalizeTokenwise(stems: seq<string>, ts: seq<Token>)
    requires GoodStems(stems) && Canonical(Edge, ts)
    ensures Normalized(stems, Render(ts)) == Result(stems, Edge, ts)
  {
    var s := Render(ts);
    RawText(Edge, ts);
    PrefixSpacedPass("", Edge, ts);
    PrefixAttachedPass(stems, "", Edge, ts);
    SuffixSpacedPass(stems, "", Edge, ts);
    RunPass(HalfSpace, 2, [ZWNJ], stems, Joined, Squeezed, "", Edge, ts);
    Edges.EdgePass(stems, "", Edge, ts);
    var t := Flow(With(stems, Edged), Edge, ts);
    Lines.UntabRedundant("", "", t);
    RunPass(Inline, 1, " ", stems, Edged, Spaced, "", Edge, ts);
    RunPass(Newline, 3, "\n\n", stems, Spaced, Collapsed, "", Edge, ts);
    Lines.LineEdgesStripLines(Flow(With(stems, Collapsed), Edge, ts));
    Lines.LineEdgePass(stems, "", Edge, ts);
    Lines.FinalStrip(stems, ts);
    if s == "" { RenderEnds(Edge, ts); }
  }
}
