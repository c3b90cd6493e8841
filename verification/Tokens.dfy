/** The structure the normaliser works on: a text is a sequence of words (maximal
    runs of the Arabic block), separators (maximal runs of white space and
    half-spaces) and other single characters. */
module Tokens {
  import opened Rewriting

  /** `Edge` stands for the boundary of the text and is never an element of it. */
  datatype Token = Edge | Word(text: string) | Sep(text: string) | Other(c: char)

  ghost predicate Proper(t: Token) {
    match t
    case Edge => false
    case Word(w) => w != "" && All(Arabic, w)
    case Sep(g) => g != "" && All(Separator, g)
    case Other(c) => !IsArabic(c) && !InClass(Separator, c)
  }

  predicate Apart(a: Token, b: Token) {
    !(a.Word? && b.Word?) && !(a.Sep? && b.Sep?)
  }

  /** Every run is maximal: no two words and no two separators are neighbours. */
  ghost predicate Canonical(prev: Token, ts: seq<Token>)
    decreases |ts|
  {
    ts == [] || (Proper(ts[0]) && Apart(prev, ts[0]) && Canonical(ts[0], ts[1..]))
  }

  function First(ts: seq<Token>): Token { if ts == [] then Edge else ts[0] }

  function Source(t: Token): string {
    match t
    case Edge => ""
    case Word(w) => w
    case Sep(g) => g
    case Other(c) => [c]
  }

  function Render(ts: seq<Token>): string {
    if ts == [] then "" else Source(ts[0]) + Render(ts[1..])
  }

  function Tokenize(s: string): (ts: seq<Token>)
    ensures s != "" ==> ts != []
    ensures First(ts).Word? <==> StartsIn(Arabic, s)
    ensures First(ts).Sep? <==> StartsIn(Separator, s)
    decreases |s|
  {
    if s == "" then []
    else
      var w, g := Run(Arabic, s), Run(Separator, s);
      if w > 0 then [Word(s[..w])] + Tokenize(s[w..])
      else if g > 0 then [Sep(s[..g])] + Tokenize(s[g..])
      else [Other(s[0])] + Tokenize(s[1..])
  }

  lemma {:induction false} TokenizeCanonical(prev: Token, s: string)
    requires !(prev.Word? && StartsIn(Arabic, s)) && !(prev.Sep? && StartsIn(Separator, s))
    ensures Canonical(prev, Tokenize(s))
    decreases |s|
  {
    if s != "" {
      var t := TokenizeStep(s);
      var tail := s[|Source(t)|..];
      TokenizeCanonical(t, tail);
      Cons(prev, t, Tokenize(tail));
    }
  }

  lemma {:induction false} RenderTokenize(s: string)
    ensures Render(Tokenize(s)) == s
    decreases |s|
  {
    if s != "" {
      var t := TokenizeStep(s);
      var tail := s[|Source(t)|..];
      RenderTokenize(tail);
      Cons(Edge, t, Tokenize(tail));
    }
  }

  lemma {:induction false} Cons(prev: Token, t: Token, ts: seq<Token>)
    ensures Render([t] + ts) == Source(t) + Render(ts)
    ensures Canonical(prev, [t] + ts) <==> Proper(t) && Apart(prev, t) && Canonical(t, ts)
  {
    assert ([t] + ts)[1..] == ts;
  }

  lemma {:induction false} TokenizeStep(s: string) returns (t: Token)
    requires s != ""
    ensures Proper(t) && Source(t) <= s && 0 < |Source(t)|
    ensures Tokenize(s) == [t] + Tokenize(s[|Source(t)|..])
    ensures t.Word? ==> !StartsIn(Arabic, s[|Source(t)|..])
    ensures t.Sep? ==> !StartsIn(Separator, s[|Source(t)|..])
    ensures t.Word? <==> StartsIn(Arabic, s)
    ensures t.Sep? <==> StartsIn(Separator, s)
  {
    var w, g := Run(Arabic, s), Run(Separator, s);
    t := if w > 0 then Word(s[..w]) else if g > 0 then Sep(s[..g]) else Other(s[0]);
  }

  lemma {:induction false} RenderConcat(a: seq<Token>, b: seq<Token>)
    ensures Render(a + b) == Render(a) + Render(b)
  {
    if a == [] {
      assert a + b == b;
    } else {
      assert (a + b)[1..] == a[1..] + b;
      RenderConcat(a[1..], b);
    }
  }

  function Last(prev: Token, ts: seq<Token>): Token {
    if ts == [] then prev else ts[|ts| - 1]
  }

  lemma {:induction false} CanonicalConcat(prev: Token, a: seq<Token>, b: seq<Token>)
    ensures Canonical(prev, a + b) <==> Canonical(prev, a) && Canonical(Last(prev, a), b)
    decreases |a|
  {
    if a == [] {
      assert a + b == b;
    } else {
      assert (a + b)[1..] == a[1..] + b;
      CanonicalConcat(a[0], a[1..], b);
    }
  }

  /** The ends of the rendering are the ends of the first and last tokens. */
  lemma {:induction false} RenderEnds(prev: Token, ts: seq<Token>)
    requires Canonical(prev, ts)
    ensures First(ts).Word? <==> StartsIn(Arabic, Render(ts))
    ensures First(ts).Sep? <==> StartsIn(Separator, Render(ts))
    ensures ts != [] ==> (Last(prev, ts).Word? <==> EndsIn(Arabic, Render(ts)))
    ensures ts == [] <==> Render(ts) == ""
    decreases |ts|
  {
    if ts != [] {
      RenderEnds(ts[0], ts[1..]);
      var s := Source(ts[0]);
      assert Render(ts) == s + Render(ts[1..]);
      assert Render(ts)[0] == s[0];
      if |ts| > 1 {
        assert ts[1..] != [];
      }
    }
  }
}
