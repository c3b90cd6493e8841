/** The normaliser with its own table of verb stems. */
module Persian {
  import Text
  import opened Rewriting
  import Tokens
  import Stages
  import opened Stems
  import opened Normalize
  import Idempotence
  import opened NormalizeTheorems
  import Variants
  import CanonLines

  /** Every half-space stands between two Arabic-block characters. */
  ghost predicate AllHeld(s: string) {
    forall i: nat | i < |s| && s[i] == ZWNJ :: 0 < i < |s| - 1 && IsArabic(s[i - 1]) && IsArabic(s[i + 1])
  }

  /** The promises of the normaliser at once: one run settles exactly the steady texts, the
      ordinary ones in particular, and two runs settle all; it moves no letter; its half-spaces stand between
      letters; and its lines are the normalised lines of the text. */
  ghost predicate Promised(stems: seq<string>, s: string, t: string) {
    && (Normalized(stems, t) == t <==> Idempotence.Steady(Tokens.Edge, Tokens.Tokenize(s)))
    && (Ordinary(s) ==> Normalized(stems, t) == t)
    && Normalized(stems, Normalized(stems, t)) == Normalized(stems, t)
    && Letters(t) == Letters(s)
    && AllHeld(t)
    && CanonLines.NonEmpty(Text.Split(t)) == CanonLines.NonEmpty(CanonLines.NormalizedEach(stems, Text.Split(s)))
  }

  lemma {:induction false} PromisesKept(stems: seq<string>, s: string)
    requires Stages.GoodStems(stems)
    ensures Promised(stems, s, Normalized(stems, s))
  {
    var t := Normalized(stems, s);
    IdempotentExactly(stems, s);
    if Ordinary(s) { OrdinaryIsIdempotent(stems, s); }
    TwoRunsSettle(stems, s);
    LettersSurvive(stems, s);
    forall i: nat | i < |t| && t[i] == ZWNJ ensures 0 < i < |t| - 1 && IsArabic(t[i - 1]) && IsArabic(t[i + 1]) {
      HalfSpacesAreHeld(stems, s, i);
    }
    CanonLines.LinesSurvive(stems, s);
  }

  /** For the table of the source, and every text. */
  lemma {:induction false} CanonPromises(s: string)
    ensures Promised(VERB_STEMS, s, Normalized(VERB_STEMS, s))
  {
    VerbStemsAreGood();
    PromisesKept(VERB_STEMS, s);
  }

  /** Whatever spaces and half-spaces part a prefix and a stem of the table, or none, the
      result is the one with a half-space. */
  lemma {:induction false} SpellingsMeet(left: string, p: string, g: string, stem: string, right: string)
    requires !EndsIn(Arabic, left) && !StartsIn(Arabic, right)
    requires (p == MI || p == NEMI) && stem in VERB_STEMS && Stages.AllJoiner(g)
    ensures Normalized(VERB_STEMS, left + (p + g + stem) + right)
         == Normalized(VERB_STEMS, left + (p + [ZWNJ] + stem) + right)
  {
    VerbStemsAreGood();
    Variants.VariantsMeet(VERB_STEMS, left, p, g, stem, right);
  }

  /** Whatever spaces and half-spaces part a word of two letters or more from a suffix of
      the list, the result is the one with a half-space. */
  lemma {:induction false} SuffixSpellingsMeet(left: string, word: string, g: string, suffix: string, right: string)
    requires !EndsIn(Arabic, left) && !StartsIn(Arabic, right)
    requires |word| >= 2 && All(Arabic, word) && Variants.Listed(suffix) && g != "" && Stages.AllJoiner(g)
    ensures Normalized(VERB_STEMS, left + (word + g + suffix) + right)
         == Normalized(VERB_STEMS, left + (word + [ZWNJ] + suffix) + right)
  {
    VerbStemsAreGood();
    Variants.SuffixesMeet(VERB_STEMS, left, word, g, suffix, right);
  }

  /** Two words, parted by any run of spaces and half-spaces, take a half-space exactly if
      they belong together or had no space between them. */
  lemma {:induction false} PairsExactly(u: string, g: string, v: string) returns (x: string, y: string)
    requires u != "" && v != "" && Variants.InBlock(u) && Variants.InBlock(v)
    requires g != "" && forall i | 0 <= i < |g| :: g[i] == ' ' || g[i] == ZWNJ
    ensures Variants.Becomes(VERB_STEMS, u, x) && Variants.Becomes(VERB_STEMS, v, y)
    ensures Normalized(VERB_STEMS, u + g + v)
         == x + (if Variants.BelongTogether(u, v) || ' ' !in g then [ZWNJ] else " ") + y
  {
    VerbStemsAreGood();
    x, y := Variants.PairExactly(VERB_STEMS, u, g, v);
  }
}
