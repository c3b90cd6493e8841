/** Grouping paragraphs into pieces: a greedy pass with a carried overlap. */
module Packing {
  import opened Text

  /** The approximate token count: 2.5 characters to a token, rounded, at least one. */
  function CountTokens(text: string): (r: nat)
    ensures text == "" <==> r == 0
    ensures |text| == 1 ==> r == 1
    ensures |text| > 1 ==> 10 * r - 5 <= 4 * |text| < 10 * r + 5
  {
    if text == "" then 0
    else var rounded := (4 * |text| + 5) / 10; if rounded < 1 then 1 else rounded
  }

  /** The tokens a piece is accounted for: the sum over its paragraphs. */
  function Tokens(ps: seq<string>): nat {
    if ps == [] then 0 else CountTokens(ps[0]) + Tokens(ps[1..])
  }

  lemma {:induction false} TokensConcat(a: seq<string>, b: seq<string>)
    ensures Tokens(a + b) == Tokens(a) + Tokens(b)
  {
    if a == [] {
      assert a + b == b;
    } else {
      assert (a + b)[1..] == a[1..] + b;
      TokensConcat(a[1..], b);
    }
  }

  lemma {:induction false} TokensSnoc(a: seq<string>, p: string)
    ensures Tokens(a + [p]) == Tokens(a) + CountTokens(p)
  {
    TokensConcat(a, [p]);
  }

  function JoinEach(groups: seq<seq<string>>): (r: seq<string>)
    ensures |r| == |groups|
    ensures forall j | 0 <= j < |r| :: r[j] == Join("\n\n", groups[j])
  {
    if groups == [] then [] else [Join("\n\n", groups[0])] + JoinEach(groups[1..])
  }

  // ---- the carried overlap -----------------------------------------------

  /** The part of a piece that the next one repeats: paragraphs are dropped from its
      front until the rest is within the overlap. */
  function Carry(current: seq<string>, overlap: int): (c: seq<string>)
    ensures |c| <= |current| && c == current[|current| - |c|..]
  {
    if overlap <= 0 then []
    else if Tokens(current) <= overlap then current
    else Carry(current[1..], overlap)
  }

  /** It is the longest suffix within the overlap. */
  lemma {:induction false} CarryIsLongest(current: seq<string>, overlap: int, i: nat)
    requires i <= |current| && overlap > 0
    ensures Tokens(Carry(current, overlap)) <= overlap
    ensures Tokens(current[i..]) <= overlap <==> |current| - i <= |Carry(current, overlap)|
  {
    SuffixTokens(current, i);
    if Tokens(current) > overlap {
      if i > 0 {
        CarryIsLongest(current[1..], overlap, i - 1);
        assert current[1..][i - 1..] == current[i..];
      } else {
        CarryIsLongest(current[1..], overlap, 0);
        assert current[0..] == current;
      }
    }
  }

  lemma {:induction false} SuffixTokens(ps: seq<string>, i: nat)
    requires i <= |ps|
    ensures Tokens(ps) == Tokens(ps[..i]) + Tokens(ps[i..])
  {
    TokensConcat(ps[..i], ps[i..]);
    assert ps == ps[..i] + ps[i..];
  }

  /** `_carry_over`: walks back from the end and stops at the first paragraph too many. */
  method CarryOver(current: seq<string>, overlap: int) returns (carried: seq<string>, total: nat)
    ensures carried == Carry(current, overlap) && total == Tokens(carried)
  {
    carried, total := [], 0;
    if overlap <= 0 { return; }
    var i := |current|;
    while i > 0
      invariant 0 <= i <= |current| && carried == current[i..]
      invariant total == Tokens(carried) && total <= overlap
    {
      var tokens := CountTokens(current[i - 1]);
      assert current[i - 1..] == [current[i - 1]] + carried;
      if total + tokens > overlap {
        CarryStops(current, overlap, i);
        return;
      }
      i := i - 1;
      carried := [current[i]] + carried;
      total := total + tokens;
    }
    assert current[0..] == current;
  }

  lemma {:induction false} CarryStops(current: seq<string>, overlap: int, i: nat)
    requires 0 < i <= |current| && overlap > 0
    requires Tokens(current[i..]) <= overlap < Tokens(current[i - 1..])
    ensures Carry(current, overlap) == current[i..]
  {
    CarryIsLongest(current, overlap, i);
    CarryIsLongest(current, overlap, i - 1);
  }

  // ---- the greedy pass ---------------------------------------------------

  /** The groups still to come when `current` is open and `ps` lies ahead. */
  function GroupsFrom(current: seq<string>, ps: seq<string>, maxTokens: int, overlap: int): seq<seq<string>>
    decreases |ps|
  {
    if ps == [] then (if current == [] then [] else [current])
    else if current != [] && Tokens(current) + CountTokens(ps[0]) > maxTokens then
      [current] + GroupsFrom(Carry(current, overlap) + [ps[0]], ps[1..], maxTokens, overlap)
    else GroupsFrom(current + [ps[0]], ps[1..], maxTokens, overlap)
  }

  function Groups(ps: seq<string>, maxTokens: int, overlap: int): seq<seq<string>> {
    GroupsFrom([], ps, maxTokens, overlap)
  }

  /** The pieces still to come before paragraph `i`. */
  function Pending(current: seq<string>, ps: seq<string>, i: nat, maxTokens: int, overlap: int): seq<string>
    requires i <= |ps|
  {
    JoinEach(GroupsFrom(current, ps[i..], maxTokens, overlap))
  }

  lemma {:induction false} PendingStep(current: seq<string>, ps: seq<string>, i: nat, maxTokens: int, overlap: int)
    requires i < |ps|
    ensures Pending(current, ps, i, maxTokens, overlap)
         == if current != [] && Tokens(current) + CountTokens(ps[i]) > maxTokens
            then [Join("\n\n", current)] + Pending(Carry(current, overlap) + [ps[i]], ps, i + 1, maxTokens, overlap)
            else Pending(current + [ps[i]], ps, i + 1, maxTokens, overlap)
  {
    assert ps[i..][1..] == ps[i + 1..];
    var later := GroupsFrom(Carry(current, overlap) + [ps[i]], ps[i + 1..], maxTokens, overlap);
    assert ([current] + later)[1..] == later;
  }

  lemma {:induction false} PendingEnd(current: seq<string>, ps: seq<string>, maxTokens: int, overlap: int)
    ensures Pending(current, ps, |ps|, maxTokens, overlap) == if current == [] then [] else [Join("\n\n", current)]
  {
    assert [current][1..] == [];
  }

  /** `_pack`. */
  method Pack(paragraphs: seq<string>, maxTokens: int, overlap: int) returns (pieces: seq<string>)
    ensures pieces == JoinEach(Groups(paragraphs, maxTokens, overlap))
  {
    pieces := [];
    var current: seq<string>, currentTokens: nat := [], 0;
    ghost var all := JoinEach(Groups(paragraphs, maxTokens, overlap));
    assert paragraphs[0..] == paragraphs;
    for i := 0 to |paragraphs|
      invariant currentTokens == Tokens(current)
      invariant all == pieces + Pending(current, paragraphs, i, maxTokens, overlap)
    {
      var paragraph := paragraphs[i];
      var tokens := CountTokens(paragraph);
      PendingStep(current, paragraphs, i, maxTokens, overlap);
      if current != [] && currentTokens + tokens > maxTokens {
        pieces := pieces + [Join("\n\n", current)];
        current, currentTokens := CarryOver(current, overlap);
      }
      TokensSnoc(current, paragraph);
      current := current + [paragraph];
      currentTokens := currentTokens + tokens;
    }
    PendingEnd(current, paragraphs, maxTokens, overlap);
    if current != [] {
      pieces := pieces + [Join("\n\n", current)];
    }
  }

  // ---- what the groups are -----------------------------------------------

  /** Piece `j` repeats its carry, and a fresh part that had to open a new piece. */
  ghost predicate PieceAt(groups: seq<seq<string>>, added: seq<seq<string>>, maxTokens: int, overlap: int, j: nat)
    requires j < |groups| == |added|
  {
    && added[j] != []
    && (Tokens(groups[j]) <= maxTokens || |added[j]| == 1)
    && (j > 0 ==> groups[j] == Carry(groups[j - 1], overlap) + added[j])
    && (j > 0 ==> Tokens(groups[j - 1]) + CountTokens(added[j][0]) > maxTokens)
  }

  ghost predicate Decomposes(groups: seq<seq<string>>, added: seq<seq<string>>, maxTokens: int, overlap: int) {
    |added| == |groups| && forall j: nat | j < |groups| :: PieceAt(groups, added, maxTokens, overlap, j)
  }

  lemma {:induction false} DecomposeFrom(carry: seq<string>, f: seq<string>, ps: seq<string>, maxTokens: int,
          overlap: int)
    returns (added: seq<seq<string>>)
    requires f != [] && (Tokens(carry + f) <= maxTokens || |f| == 1)
    ensures var groups := GroupsFrom(carry + f, ps, maxTokens, overlap);
      && Decomposes(groups, added, maxTokens, overlap) && Flatten(added) == f + ps
      && groups != [] && groups[0] == carry + added[0] && f <= added[0]
    decreases |ps|
  {
    if ps == [] {
      added := [f];
      assert f + [] == f && added[1..] == [];
    } else if Tokens(carry + f) + CountTokens(ps[0]) > maxTokens {
      var next, p := Carry(carry + f, overlap), [ps[0]];
      var later := DecomposeFrom(next, p, ps[1..], maxTokens, overlap);
      DecomposeCons(carry + f, f, GroupsFrom(next + p, ps[1..], maxTokens, overlap), later, maxTokens, overlap);
      added := [f] + later;
      FlattenOpen(f, p, ps, later);
    } else {
      TokensConcat(carry + f, [ps[0]]);
      assert carry + f + [ps[0]] == carry + (f + [ps[0]]);
      added := DecomposeFrom(carry, f + [ps[0]], ps[1..], maxTokens, overlap);
      assert f + [ps[0]] + ps[1..] == f + ps;
    }
  }

  lemma {:induction false} FlattenOpen(f: seq<string>, p: seq<string>, ps: seq<string>, later: seq<seq<string>>)
    requires ps != [] && p == [ps[0]] && Flatten(later) == p + ps[1..]
    ensures Flatten([f] + later) == f + ps
  {
    assert ([f] + later)[1..] == later;
  }

  lemma {:induction false} DecomposeCons(g: seq<string>, f: seq<string>, groups: seq<seq<string>>,
          added: seq<seq<string>>, maxTokens: int, overlap: int)
    requires Decomposes(groups, added, maxTokens, overlap) && groups != [] && f != []
    requires Tokens(g) <= maxTokens || |f| == 1
    requires groups[0] == Carry(g, overlap) + added[0] && added[0] != []
    requires Tokens(g) + CountTokens(added[0][0]) > maxTokens
    ensures Decomposes([g] + groups, [f] + added, maxTokens, overlap)
  {
    forall j: nat | j < |groups| + 1 ensures PieceAt([g] + groups, [f] + added, maxTokens, overlap, j) {
      if j > 0 { assert PieceAt(groups, added, maxTokens, overlap, j - 1); }
    }
  }

  /** Every piece is a carried part and a non-empty fresh part. The fresh parts are the
      input, the carried part is that of the piece before, a new piece starts only when
      the next paragraph would not fit, and a piece above the budget has one fresh
      paragraph. */
  lemma {:induction false} PackDecomposes(ps: seq<string>, maxTokens: int, overlap: int)
    returns (added: seq<seq<string>>)
    ensures var groups := Groups(ps, maxTokens, overlap);
      && Decomposes(groups, added, maxTokens, overlap) && Flatten(added) == ps
      && (groups != [] ==> groups[0] == added[0])
  {
    if ps == [] {
      added := [];
    } else {
      assert [] + [ps[0]] == [ps[0]] && [ps[0]] + ps[1..] == ps;
      added := DecomposeFrom([], [ps[0]], ps[1..], maxTokens, overlap);
      assert [] + added[0] == added[0];
    }
  }

  // ---- sizes -------------------------------------------------------------

  /** A piece is within the budget, or it is a carry within the overlap and one paragraph. */
  lemma {:induction false} PieceSize(ps: seq<string>, maxTokens: int, overlap: int, j: nat)
    returns (carry: seq<string>, p: string)
    requires j < |Groups(ps, maxTokens, overlap)|
    ensures var g := Groups(ps, maxTokens, overlap)[j];
      Tokens(g) <= maxTokens || (g == carry + [p] && p in ps)
    ensures if overlap > 0 then Tokens(carry) <= overlap else carry == []
  {
    var added := PackDecomposes(ps, maxTokens, overlap);
    var groups := Groups(ps, maxTokens, overlap);
    assert PieceAt(groups, added, maxTokens, overlap, j);
    carry := if j == 0 then [] else Carry(groups[j - 1], overlap);
    p := added[j][0];
    if j > 0 && overlap > 0 { CarryIsLongest(groups[j - 1], overlap, 0); }
    InFlatten(added, j, 0);
    assert [] + added[j] == added[j];
    assert |added[j]| == 1 ==> added[j] == [p];
  }

  /** What piece `j` repeats. */
  function CarryAt(groups: seq<seq<string>>, overlap: int, j: nat): seq<string>
    requires j < |groups|
  {
    if j == 0 then [] else Carry(groups[j - 1], overlap)
  }

  /** The budget is exceeded exactly where the carry and the first fresh paragraph alone
      exceed it: the carry is added without a second look. */
  lemma {:induction false} OverBudgetExactly(ps: seq<string>, maxTokens: int, overlap: int, j: nat)
    returns (added: seq<seq<string>>)
    requires j < |Groups(ps, maxTokens, overlap)|
    ensures var groups := Groups(ps, maxTokens, overlap);
      && Decomposes(groups, added, maxTokens, overlap) && Flatten(added) == ps
      && PieceAt(groups, added, maxTokens, overlap, j)
      && (Tokens(groups[j]) > maxTokens <==> Tokens(CarryAt(groups, overlap, j)) + CountTokens(added[j][0]) > maxTokens)
  {
    added := PackDecomposes(ps, maxTokens, overlap);
    var groups := Groups(ps, maxTokens, overlap);
    assert PieceAt(groups, added, maxTokens, overlap, j);
    var carry := CarryAt(groups, overlap, j);
    Unit(added[j]);
    TokensConcat(carry, added[j]);
    assert |added[j]| == 1 ==> added[j][1..] == [];
  }

  /** Three short paragraphs, "a", "b" and "cccc", each within a budget of 2 tokens: with
      an overlap of 1 the second piece counts 3. */
  lemma {:induction false} OverlapCanExceedBudget() returns (ps: seq<string>)
    ensures |ps| == 3 && ps[0] == "a" && ps[1] == "b" && ps[2] == "cccc"
    ensures forall i | 0 <= i < |ps| :: CountTokens(ps[i]) <= 2
    ensures Groups(ps, 2, 1) == [[ps[0], ps[1]], [ps[1], ps[2]]] && Tokens([ps[1], ps[2]]) == 3
  {
    ps := Three("a", "b", "cccc");
    PairTokens(ps[1], ps[2]);
    CarriesOver(ps[0], ps[1], ps[2]);
    assert ps == [ps[0], ps[1], ps[2]];
  }

  lemma {:induction false} Three(a: string, b: string, c: string) returns (ps: seq<string>)
    ensures |ps| == 3 && ps[0] == a && ps[1] == b && ps[2] == c
  {
    ps := [a, b, c];
  }

  lemma {:induction false} PairTokens(a: string, b: string)
    ensures Tokens([b]) == CountTokens(b) && Tokens([a, b]) == CountTokens(a) + CountTokens(b)
  {
    assert [a, b][1..] == [b] && [b][1..] == [];
  }

  lemma {:induction false} CarriesOver(a: string, b: string, c: string)
    requires CountTokens(a) == CountTokens(b) == 1 && CountTokens(c) == 2
    ensures Groups([a, b, c], 2, 1) == [[a, b], [b, c]]
  {
    PairTokens(c, a);
    PairTokens(a, b);
    assert [a, b, c][1..] == [b, c] && [b, c][1..] == [c] && [c][1..] == [] && [a, b][1..] == [b];
    assert [] + [a] == [a] && [a] + [b] == [a, b] && [b] + [c] == [b, c];
    assert Carry([a, b], 1) == [b];
    assert GroupsFrom([a, b], [c], 2, 1) == [[a, b]] + GroupsFrom([b, c], [], 2, 1);
    assert GroupsFrom([a], [b, c], 2, 1) == GroupsFrom([a, b], [c], 2, 1);
  }

  lemma {:induction false} InFlatten(groups: seq<seq<string>>, j: nat, i: nat)
    requires j < |groups| && i < |groups[j]|
    ensures groups[j][i] in Flatten(groups)
  {
    if j > 0 { InFlatten(groups[1..], j - 1, i); }
  }

  lemma {:induction false} JoinedLength(ps: seq<string>)
    requires ps != [] && forall i | 0 <= i < |ps| :: ps[i] != ""
    ensures 4 * |Join("\n\n", ps)| <= 10 * Tokens(ps) + 12 * |ps| - 8
  {
    if |ps| > 1 {
      JoinedLength(ps[1..]);
    } else {
      assert Tokens(ps[1..]) == 0;
    }
  }

  /** The real count of a piece exceeds its accounted tokens by little: the joining
      newlines and the rounding. */
  lemma {:induction false} RealCount(ps: seq<string>)
    requires ps != [] && forall i | 0 <= i < |ps| :: ps[i] != ""
    ensures CountTokens(Join("\n\n", ps)) <= Tokens(ps) + (12 * |ps| - 3) / 10
  {
    JoinedLength(ps);
  }

  /** ... and they can exceed them: "aaa" and "bbb", of one token each, are packed into one
      piece within a budget of 2 tokens, and the piece has three. */
  lemma {:induction false} RealCountCanExceed() returns (ps: seq<string>)
    ensures |ps| == 2 && ps[0] == "aaa" && ps[1] == "bbb"
    ensures Groups(ps, 2, 0) == [ps] && Tokens(ps) == 2 && CountTokens(Join("\n\n", ps)) == 3
  {
    ps := PackedPair("aaa", "bbb", 2, 0);
  }

  /** Two paragraphs that fit together are one piece. */
  lemma {:induction false} PackedPair(a: string, b: string, maxTokens: int, overlap: int) returns (ps: seq<string>)
    requires CountTokens(a) + CountTokens(b) <= maxTokens
    ensures ps == [a, b] && Groups(ps, maxTokens, overlap) == [ps] && Join("\n\n", ps) == a + "\n\n" + b
    ensures Tokens(ps) == CountTokens(a) + CountTokens(b)
  {
    ps := [a, b];
    PairTokens(a, b);
    PairTokens(b, a);
    assert ps[1..] == [b] && [b][1..] == [] && [] + [a] == [a] && [a] + [b] == ps;
    assert GroupsFrom([a], [b], maxTokens, overlap) == GroupsFrom(ps, [], maxTokens, overlap);
  }

  /** What the paragraphs gain by being rounded one by one, in tenths of a token. */
  function Surplus(ps: seq<string>): int {
    if ps == [] then 0 else 10 * CountTokens(ps[0]) - 4 * |ps[0]| + Surplus(ps[1..])
  }

  lemma {:induction false} SurplusOfJoin(ps: seq<string>)
    requires ps != []
    ensures Surplus(ps) == 10 * Tokens(ps) - 4 * |Join("\n\n", ps)| + 8 * (|ps| - 1)
  {
    if |ps| > 1 {
      SurplusOfJoin(ps[1..]);
    } else {
      assert Tokens(ps[1..]) == 0 && Surplus(ps[1..]) == 0;
    }
  }

  /** The real count is within the accounted tokens exactly when the rounding gains what
      the joining newlines cost, but for half a token. */
  lemma {:induction false} RealCountWithinIff(ps: seq<string>)
    ensures CountTokens(Join("\n\n", ps)) <= Tokens(ps) <==> Surplus(ps) >= 8 * |ps| - 12
  {
    if ps != [] { SurplusOfJoin(ps); }
  }
}
