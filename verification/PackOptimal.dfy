/** Without an overlap the greedy pass uses as few pieces as any grouping can. */
module PackOptimal {
  import Text
  import opened Packing

  /** An order-preserving grouping whose blocks are within the budget or one paragraph. */
  ghost predicate Grouping(blocks: seq<seq<string>>, ps: seq<string>, maxTokens: int) {
    Text.Flatten(blocks) == ps && forall j | 0 <= j < |blocks| :: |blocks[j]| == 1 || Tokens(blocks[j]) <= maxTokens
  }

  /** Groups closed from here on when one with `t` tokens is open. */
  function Opened(t: nat, ps: seq<string>, maxTokens: int): nat
    decreases |ps|
  {
    if ps == [] then 1
    else
      var w := CountTokens(ps[0]);
      if t + w > maxTokens then 1 + Opened(w, ps[1..], maxTokens) else Opened(t + w, ps[1..], maxTokens)
  }

  function Needed(ps: seq<string>, maxTokens: int): nat {
    if ps == [] then 0 else Opened(CountTokens(ps[0]), ps[1..], maxTokens)
  }

  lemma {:induction false} GroupsOpened(current: seq<string>, ps: seq<string>, maxTokens: int, overlap: int)
    requires current != [] && overlap <= 0
    ensures |GroupsFrom(current, ps, maxTokens, overlap)| == Opened(Tokens(current), ps, maxTokens)
    decreases |ps|
  {
    if ps != [] {
      TokensSnoc(current, ps[0]);
      TokensSnoc([], ps[0]);
      var next := if Tokens(current) + CountTokens(ps[0]) > maxTokens then Carry(current, overlap) else current;
      GroupsOpened(next + [ps[0]], ps[1..], maxTokens, overlap);
    }
  }

  /** Fewer tokens in the open group never cost a piece, and any difference costs at most one. */
  lemma {:induction false} OpenedBounds(a: nat, b: nat, ps: seq<string>, maxTokens: int)
    ensures a <= b ==> Opened(a, ps, maxTokens) <= Opened(b, ps, maxTokens)
    ensures Opened(a, ps, maxTokens) <= 1 + Opened(b, ps, maxTokens)
    decreases |ps|
  {
    if ps != [] {
      var w, rest := CountTokens(ps[0]), ps[1..];
      OpenedBounds(a + w, b + w, rest, maxTokens);
      OpenedBounds(a + w, w, rest, maxTokens);
      OpenedBounds(w, b + w, rest, maxTokens);
    }
  }

  /** A block within the budget joins an open group of nothing without closing it. */
  lemma {:induction false} BlockFits(t: nat, block: seq<string>, rest: seq<string>, maxTokens: int)
    requires t + Tokens(block) <= maxTokens
    ensures Opened(t, block + rest, maxTokens) == Opened(t + Tokens(block), rest, maxTokens)
    decreases |block|
  {
    if block == [] {
      assert block + rest == rest;
    } else {
      assert (block + rest)[1..] == block[1..] + rest;
      BlockFits(t + CountTokens(block[0]), block[1..], rest, maxTokens);
    }
  }

  /** Starting afresh after an open group costs nothing but that group. */
  lemma {:induction false} OpenedNeeded(t: nat, ps: seq<string>, maxTokens: int)
    ensures Opened(t, ps, maxTokens) <= 1 + Needed(ps, maxTokens)
  {
    if ps != [] {
      OpenedBounds(t + CountTokens(ps[0]), CountTokens(ps[0]), ps[1..], maxTokens);
    }
  }

  lemma {:induction false} NeededIsLeast(blocks: seq<seq<string>>, maxTokens: int)
    requires forall j | 0 <= j < |blocks| :: |blocks[j]| == 1 || Tokens(blocks[j]) <= maxTokens
    ensures Needed(Text.Flatten(blocks), maxTokens) <= |blocks|
  {
    if blocks != [] {
      var block, rest := blocks[0], Text.Flatten(blocks[1..]);
      NeededIsLeast(blocks[1..], maxTokens);
      if block == [] {
        assert block + rest == rest;
      } else {
        var t := CountTokens(block[0]);
        assert (block + rest)[1..] == block[1..] + rest;
        if |block| == 1 {
          assert block[1..] + rest == rest;
          OpenedNeeded(t, rest, maxTokens);
        } else {
          BlockFits(t, block[1..], rest, maxTokens);
          OpenedNeeded(Tokens(block), rest, maxTokens);
        }
      }
    }
  }

  /** No grouping of the paragraphs has fewer blocks than `Pack` returns without an overlap. */
  lemma {:induction false} PackIsOptimal(ps: seq<string>, maxTokens: int, overlap: int, blocks: seq<seq<string>>)
    requires overlap <= 0 && Grouping(blocks, ps, maxTokens)
    ensures |Groups(ps, maxTokens, overlap)| <= |blocks|
  {
    NeededIsLeast(blocks, maxTokens);
    if ps != [] {
      TokensSnoc([], ps[0]);
      assert [] + [ps[0]] == [ps[0]];
      GroupsOpened([ps[0]], ps[1..], maxTokens, overlap);
    }
  }

  /** ... and what it returns is such a grouping. */
  lemma {:induction false} PackIsGrouping(ps: seq<string>, maxTokens: int, overlap: int)
    requires overlap <= 0
    ensures Grouping(Groups(ps, maxTokens, overlap), ps, maxTokens)
  {
    var added := PackDecomposes(ps, maxTokens, overlap);
    var groups := Groups(ps, maxTokens, overlap);
    forall j | 0 <= j < |groups|
      ensures groups[j] == added[j] && (|groups[j]| == 1 || Tokens(groups[j]) <= maxTokens)
    {
      assert PieceAt(groups, added, maxTokens, overlap, j);
      assert [] + added[j] == added[j];
    }
    assert groups == added;
  }
}
