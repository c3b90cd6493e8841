/** Which inputs `_pack` keeps within its budget, with an overlap and without. */
module PackBudget {
  import Text
  import opened Packing

  ghost predicate AllWithin(groups: seq<seq<string>>, maxTokens: int) {
    forall j | 0 <= j < |groups| :: Tokens(groups[j]) <= maxTokens
  }

  /** Paragraph `i` fits behind what the paragraphs before it would carry over. */
  predicate FitsAt(ps: seq<string>, i: nat, maxTokens: int, overlap: int)
    requires i < |ps|
  {
    Tokens(Carry(ps[..i], overlap)) + CountTokens(ps[i]) <= maxTokens
  }

  /** The same, read off paragraph by paragraph, the carry going along. */
  predicate FitAfter(carry: seq<string>, ps: seq<string>, maxTokens: int, overlap: int)
    decreases |ps|
  {
    ps == []
    || (Tokens(carry) + CountTokens(ps[0]) <= maxTokens
        && FitAfter(Carry(carry + [ps[0]], overlap), ps[1..], maxTokens, overlap))
  }

  // ---- the carry depends on the paragraphs alone -------------------------

  /** Carrying over after each paragraph or once at the end leaves the same tail. */
  lemma {:induction false} CarrySnoc(s: seq<string>, p: string, overlap: int)
    ensures Carry(s + [p], overlap) == Carry(Carry(s, overlap) + [p], overlap)
    decreases |s|
  {
    TokensSnoc(s, p);
    if overlap > 0 && Tokens(s) > overlap {
      Text.DropFirst(s, [p]);
      CarrySnoc(s[1..], p, overlap);
    }
  }

  lemma {:induction false} CarryWithin(s: seq<string>, overlap: int)
    ensures Tokens(Carry(s, overlap)) <= Tokens(s)
  {
    var k := |s| - |Carry(s, overlap)|;
    SuffixTokens(s, k);
  }

  /** What is open when a piece is begun is the start of that piece. */
  lemma {:induction false} OpenGroupGrows(current: seq<string>, ps: seq<string>, maxTokens: int, overlap: int)
    requires current != []
    ensures var groups := GroupsFrom(current, ps, maxTokens, overlap);
      groups != [] && Tokens(current) <= Tokens(groups[0])
    decreases |ps|
  {
    if ps != [] && Tokens(current) + CountTokens(ps[0]) <= maxTokens {
      TokensSnoc(current, ps[0]);
      OpenGroupGrows(current + [ps[0]], ps[1..], maxTokens, overlap);
    }
  }

  lemma {:induction false} WithinCons(g: seq<string>, groups: seq<seq<string>>, maxTokens: int)
    ensures AllWithin([g] + groups, maxTokens) <==> Tokens(g) <= maxTokens && AllWithin(groups, maxTokens)
  {
    var all := [g] + groups;
    assert all[0] == g && forall j | 0 <= j < |groups| :: all[j + 1] == groups[j];
    if Tokens(g) <= maxTokens && AllWithin(groups, maxTokens) {
      forall j | 0 <= j < |all| ensures Tokens(all[j]) <= maxTokens { if j > 0 { assert all[j] == groups[j - 1]; } }
    }
  }

  /** A group opened with too much stays over the budget. */
  lemma {:induction false} OverFromStart(current: seq<string>, ps: seq<string>, maxTokens: int, overlap: int)
    requires current != [] && Tokens(current) > maxTokens
    ensures !AllWithin(GroupsFrom(current, ps, maxTokens, overlap), maxTokens)
  {
    OpenGroupGrows(current, ps, maxTokens, overlap);
  }

  // ---- the condition -----------------------------------------------------

  /** What is open after one more paragraph. */
  function OpenAfter(current: seq<string>, p: string, maxTokens: int, overlap: int): seq<string> {
    (if current != [] && Tokens(current) + CountTokens(p) > maxTokens then Carry(current, overlap) else current) + [p]
  }

  lemma {:induction false} OpenKeepsCarry(current: seq<string>, p: string, maxTokens: int, overlap: int)
    ensures Carry(OpenAfter(current, p, maxTokens, overlap), overlap) == Carry(Carry(current, overlap) + [p], overlap)
  {
    CarrySnoc(current, p, overlap);
  }

  lemma {:induction false} OpenFits(current: seq<string>, p: string, maxTokens: int, overlap: int)
    requires current == [] || Tokens(current) <= maxTokens
    ensures Tokens(OpenAfter(current, p, maxTokens, overlap)) <= maxTokens
       <==> Tokens(Carry(current, overlap)) + CountTokens(p) <= maxTokens
  {
    TokensSnoc(current, p);
    TokensSnoc(Carry(current, overlap), p);
    CarryWithin(current, overlap);
  }

  lemma {:induction false} NextGroups(current: seq<string>, ps: seq<string>, maxTokens: int, overlap: int)
    requires ps != [] && (current == [] || Tokens(current) <= maxTokens)
    ensures AllWithin(GroupsFrom(current, ps, maxTokens, overlap), maxTokens)
       <==> AllWithin(GroupsFrom(OpenAfter(current, ps[0], maxTokens, overlap), ps[1..], maxTokens, overlap), maxTokens)
  {
    if current != [] && Tokens(current) + CountTokens(ps[0]) > maxTokens {
      WithinCons(current, GroupsFrom(Carry(current, overlap) + [ps[0]], ps[1..], maxTokens, overlap), maxTokens);
    }
  }

  /** From an open group within the budget on. */
  lemma {:induction false} WithinFrom(current: seq<string>, ps: seq<string>, maxTokens: int, overlap: int)
    requires current == [] || Tokens(current) <= maxTokens
    ensures AllWithin(GroupsFrom(current, ps, maxTokens, overlap), maxTokens)
       <==> FitAfter(Carry(current, overlap), ps, maxTokens, overlap)
    decreases |ps|
  {
    if ps != [] {
      NextGroups(current, ps, maxTokens, overlap);
      OpenFits(current, ps[0], maxTokens, overlap);
      var next := OpenAfter(current, ps[0], maxTokens, overlap);
      if Tokens(next) <= maxTokens {
        OpenKeepsCarry(current, ps[0], maxTokens, overlap);
        WithinFrom(next, ps[1..], maxTokens, overlap);
      } else {
        OverFromStart(next, ps[1..], maxTokens, overlap);
      }
    }
  }

  lemma {:induction false} FitAfterIff(done: seq<string>, ps: seq<string>, maxTokens: int, overlap: int)
    ensures FitAfter(Carry(done, overlap), ps, maxTokens, overlap)
       <==> forall i | |done| <= i < |done + ps| :: FitsAt(done + ps, i, maxTokens, overlap)
    decreases |ps|
  {
    if ps != [] {
      var all := done + ps;
      assert all == done + [ps[0]] + ps[1..] && all[..|done|] == done && all[|done|] == ps[0];
      CarrySnoc(done, ps[0], overlap);
      FitAfterIff(done + [ps[0]], ps[1..], maxTokens, overlap);
      assert FitsAt(all, |done|, maxTokens, overlap)
           <==> Tokens(Carry(done, overlap)) + CountTokens(ps[0]) <= maxTokens;
    }
  }

  /** Every piece is within the budget exactly when every paragraph fits behind the tail
      of at most `overlap` tokens of the paragraphs before it. */
  lemma {:induction false} AllWithinBudgetIff(ps: seq<string>, maxTokens: int, overlap: int)
    ensures AllWithin(Groups(ps, maxTokens, overlap), maxTokens)
       <==> forall i | 0 <= i < |ps| :: FitsAt(ps, i, maxTokens, overlap)
  {
    WithinFrom([], ps, maxTokens, overlap);
    FitAfterIff([], ps, maxTokens, overlap);
    Text.Unit(ps);
  }

  /** It is enough that every paragraph leaves room for the overlap; without an overlap
      it is enough, and necessary, that every paragraph is within the budget. */
  lemma {:induction false} RoomForOverlap(ps: seq<string>, maxTokens: int, overlap: int)
    ensures (forall i | 0 <= i < |ps| :: CountTokens(ps[i]) + (if overlap > 0 then overlap else 0) <= maxTokens)
        ==> AllWithin(Groups(ps, maxTokens, overlap), maxTokens)
    ensures overlap <= 0 ==>
      (AllWithin(Groups(ps, maxTokens, overlap), maxTokens)
       <==> forall i | 0 <= i < |ps| :: CountTokens(ps[i]) <= maxTokens)
  {
    AllWithinBudgetIff(ps, maxTokens, overlap);
    forall i | 0 <= i < |ps|
      ensures CountTokens(ps[i]) + (if overlap > 0 then overlap else 0) <= maxTokens ==>
        FitsAt(ps, i, maxTokens, overlap)
      ensures overlap <= 0 ==> (FitsAt(ps, i, maxTokens, overlap) <==> CountTokens(ps[i]) <= maxTokens)
    {
      if overlap > 0 { CarryIsLongest(ps[..i], overlap, 0); }
    }
  }
}
