/** How a body is taken: as HTML when it holds something like a tag, as plain text else. */
module Bodies {
  import Text
  import Extraction
  import Tidying
  import opened Cleaning

  /** A `<`, then an ASCII letter, `/` or `!`, and a `>` somewhere behind. */
  ghost predicate TagAt(body: string, i: nat, k: nat) {
    && i + 1 < k < |body| && body[i] == '<' && body[k] == '>'
    && ('a' <= body[i + 1] <= 'z' || 'A' <= body[i + 1] <= 'Z' || body[i + 1] == '/' || body[i + 1] == '!')
  }

  ghost predicate HoldsTag(body: string) {
    exists i: nat, k: nat :: TagAt(body, i, k)
  }

  lemma {:induction false} LooksLikeHtmlIff(body: string)
    ensures LooksLikeHtml(body) <==> HoldsTag(body)
  {
    if LooksLikeHtml(body) {
      var i, k := TagFound(body);
    } else if HoldsTag(body) {
      var i: nat, k: nat :| TagAt(body, i, k);
      TagSeen(body, i, k);
    }
  }

  lemma {:induction false} TagFound(body: string) returns (i: nat, k: nat)
    requires LooksLikeHtml(body)
    ensures TagAt(body, i, k)
  {
    if |body| > 1 && body[0] == '<' && OpensTag(body[1]) && '>' in body[2..] {
      i, k := 0, 0;
      var j :| 0 <= j < |body[2..]| && body[2..][j] == '>';
      k := j + 2;
    } else {
      i, k := TagFound(body[1..]);
      i, k := i + 1, k + 1;
    }
  }

  lemma {:induction false} TagSeen(body: string, i: nat, k: nat)
    requires TagAt(body, i, k)
    ensures LooksLikeHtml(body)
  {
    if i == 0 {
      assert body[2..][k - 2] == '>';
    } else {
      TagSeen(body[1..], i - 1, k - 1);
    }
  }

  // ---- line ends ---------------------------------------------------------

  /** The `\r` of a line end. */
  predicate InLineEnd(body: string, i: nat)
    requires i < |body|
  {
    body[i] == '\r' && i + 1 < |body| && body[i + 1] == '\n'
  }

  /** `text` is `body` at the positions `kept`, in order. */
  ghost predicate At(body: string, kept: seq<nat>, text: string) {
    && |kept| == |text| && (forall j | 0 <= j < |kept| :: kept[j] < |body| && text[j] == body[kept[j]])
    && Increasing(kept)
  }

  ghost predicate Increasing(kept: seq<nat>) {
    forall j, l | 0 <= j < l < |kept| :: kept[j] < kept[l]
  }

  /** All positions but those of a `\r` directly before a `\n`. */
  ghost predicate AllButLineEnds(body: string, kept: seq<nat>) {
    forall i: nat | i < |body| :: i in kept <==> !InLineEnd(body, i)
  }

  /** `text` is `body` without exactly the `\r` that stand directly before a `\n`. */
  ghost predicate Unix(body: string, text: string) {
    exists kept: seq<nat> :: At(body, kept, text) && AllButLineEnds(body, kept)
  }

  function Shifted(kept: seq<nat>, n: nat): (r: seq<nat>)
    ensures |r| == |kept| && forall j | 0 <= j < |kept| :: r[j] == kept[j] + n
  {
    seq(|kept|, j requires 0 <= j < |kept| => kept[j] + n)
  }

  lemma {:induction false} UnixOfLines(body: string) returns (kept: seq<nat>)
    ensures At(body, kept, UnixLines(body)) && AllButLineEnds(body, kept)
  {
    if body == "" {
      kept := [];
    } else if |body| > 1 && body[0] == '\r' && body[1] == '\n' {
      var rest := UnixOfLines(body[2..]);
      kept := [1] + Shifted(rest, 2);
      KeptOne(body, 1, 2, rest, UnixLines(body[2..]));
    } else {
      var rest := UnixOfLines(body[1..]);
      kept := [0] + Shifted(rest, 1);
      KeptOne(body, 0, 1, rest, UnixLines(body[1..]));
    }
  }

  /** One character kept of the first `n`. */
  lemma {:induction false} KeptOne(body: string, i: nat, n: nat, rest: seq<nat>, text: string)
    requires i < n <= |body| && At(body[n..], rest, text) && AllButLineEnds(body[n..], rest)
    requires forall m: nat | m < n :: InLineEnd(body, m) <==> m != i
    ensures At(body, [i] + Shifted(rest, n), [body[i]] + text) && AllButLineEnds(body, [i] + Shifted(rest, n))
  {
    var kept := [i] + Shifted(rest, n);
    forall m: nat | m < |body| ensures m in kept <==> !InLineEnd(body, m) {
      AmongShifted(rest, i, n, m);
      if m >= n { assert InLineEnd(body, m) <==> InLineEnd(body[n..], m - n); }
    }
  }

  lemma {:induction false} AmongShifted(rest: seq<nat>, i: nat, n: nat, m: nat)
    requires i < n
    ensures m in [i] + Shifted(rest, n) <==> m == i || (m >= n && m - n in rest)
  {
    var kept := [i] + Shifted(rest, n);
    if m >= n && m - n in rest {
      var j :| 0 <= j < |rest| && rest[j] == m - n;
      assert kept[j + 1] == m;
    } else if m == i {
      assert kept[0] == m;
    }
    if m in kept {
      var j :| 0 <= j < |kept| && kept[j] == m;
      assert j > 0 ==> m >= n && rest[j - 1] == m - n;
    }
  }

  predicate Has(kept: seq<nat>, m: nat) { m in kept }

  /** Increasing lists of the same numbers are the same. */
  lemma {:induction false} SameKept(a: seq<nat>, b: seq<nat>)
    requires Increasing(a) && Increasing(b) && forall m: nat :: Has(a, m) <==> Has(b, m)
    ensures a == b
  {
    assert a != [] ==> Has(a, a[0]);
    assert b != [] ==> Has(b, b[0]);
    if a != [] {
      var m, n := a[|a| - 1], b[|b| - 1];
      assert Has(a, m) && Has(b, n);
      assert m == n;
      var a', b' := a[..|a| - 1], b[..|b| - 1];
      forall k: nat ensures Has(a', k) <==> Has(b', k) {
        WithoutLast(a, k);
        WithoutLast(b, k);
        assert Has(a, k) <==> Has(b, k);
      }
      SameKept(a', b');
    }
  }

  lemma {:induction false} WithoutLast(a: seq<nat>, k: nat)
    requires a != [] && Increasing(a)
    ensures Has(a[..|a| - 1], k) <==> Has(a, k) && k != a[|a| - 1]
  {
    assert a == a[..|a| - 1] + [a[|a| - 1]];
  }

  /** There is only one such text. */
  lemma {:induction false} UnixIsUnique(body: string, a: string, b: string)
    requires Unix(body, a) && Unix(body, b)
    ensures a == b
  {
    var x: seq<nat> :| At(body, x, a) && AllButLineEnds(body, x);
    var y: seq<nat> :| At(body, y, b) && AllButLineEnds(body, y);
    forall m: nat ensures Has(x, m) <==> Has(y, m) {
      if m in x { KeptInside(body, x, a, m); }
      if m in y { KeptInside(body, y, b, m); }
    }
    SameKept(x, y);
  }

  lemma {:induction false} KeptInside(body: string, kept: seq<nat>, text: string, m: nat)
    requires At(body, kept, text) && m in kept
    ensures m < |body|
  {
  }

  /** What must become of a body: HTML is rendered from its events and tidied; any other
      text is tidied once its line ends are single newlines. */
  ghost predicate CleanedFrom(digit: char -> bool, tokenize: Tokenizer, body: string, text: string) {
    if HoldsTag(body) then
      var parts := Extraction.Feed(Extraction.INITIAL, tokenize(body)).parts;
      text == Tidying.Tidy(digit, Text.Flatten(parts))
    else exists plain: string :: Unix(body, plain) && text == Tidying.Tidy(digit, plain)
  }

  lemma {:induction false} TidyNothing(digit: char -> bool)
    ensures Tidying.Tidy(digit, "") == ""
  {
    assert Tidying.TidyLine(digit, "") == "";
    assert [""][1..] == [];
  }

  lemma {:induction false} CleanIs(digit: char -> bool, tokenize: Tokenizer, body: string)
    ensures CleanedFrom(digit, tokenize, body, Clean(digit, tokenize, body))
  {
    LooksLikeHtmlIff(body);
    var kept := UnixOfLines(body);
    assert Unix(body, UnixLines(body));
    TidyNothing(digit);
  }
}
