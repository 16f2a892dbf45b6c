/** The score of one candidate against the reference (index.js:104-145). `s` is the literal
    text of the reference, `c` that of the candidate, and `jw` the Jaro-Winkler similarity
    of their romanizations. Scores are exact reals; floating-point rounding is not modelled. */
module Scoring {
  import opened EditDistance

  function RealMax(a: real, b: real): real {
    if a >= b then a else b
  }

  function RealMin(a: real, b: real): real {
    if a <= b then a else b
  }

  function Distance(a: nat, b: nat): nat {
    if a >= b then a - b else b - a
  }

  /** The sign facts of a quotient by a positive divisor. */
  lemma QuotientSigns(k: real, d: real, r: real)
    requires d > 0.0 && r * d == k
    ensures r < 0.0 <==> k < 0.0
    ensures r == 0.0 <==> k == 0.0
    ensures r < 1.0 <==> k < d
    ensures r == 1.0 <==> k == d
  {
    PositiveScale(r, d);
    PositiveScale(r - 1.0, d);
    assert (r - 1.0) * d == k - d;
  }

  lemma PositiveScale(x: real, d: real)
    requires d > 0.0
    ensures x < 0.0 <==> x * d < 0.0
    ensures x == 0.0 <==> x * d == 0.0
  {
  }

  /** `k / d` for counts, with its bounds. */
  function Ratio(k: nat, d: nat): (r: real)
    requires d > 0
    ensures 0.0 <= r
    ensures k <= d ==> r <= 1.0
    ensures r == 1.0 <==> k == d
    ensures r == 0.0 <==> k == 0
  {
    var r := k as real / d as real;
    QuotientSigns(k as real, d as real, r);
    r
  }

  /** `Math.max(searchWord.length, candidateWord.length)`. */
  function MaxLength(s: string, c: string): nat {
    Max(|s|, |c|)
  }

  /** The number of indices i below both lengths with s[i] == c[i]: the length of the
      filter on line 116, where `candidateWord[i]` past the end is undefined and so
      never equal. */
  function PositionalMatches(s: string, c: string): (k: nat)
    ensures k <= |s| && k <= |c|
  {
    if s == [] || c == [] then 0
    else (if s[0] == c[0] then 1 else 0) + PositionalMatches(s[1..], c[1..])
  }

  /** `Math.min(n, m, overlap)`: the cap never changes the overlap count. */
  function CommonSubstringLength(s: string, c: string): (k: nat)
    ensures k == PositionalMatches(s, c)
  {
    Min3(|s|, |c|, PositionalMatches(s, c))
  }

  function SubstringRatio(s: string, c: string): (r: real)
    requires MaxLength(s, c) > 0
    ensures 0.0 <= r <= 1.0
  {
    Ratio(CommonSubstringLength(s, c), MaxLength(s, c))
  }

  /** The number of positions of `s` whose character occurs anywhere in `c`; repeated
      characters of `s` are counted once per occurrence (line 121). */
  function KanjiMatchCount(s: string, c: string): (k: nat)
    ensures k <= |s|
  {
    if s == [] then 0
    else (if s[0] in c then 1 else 0) + KanjiMatchCount(s[1..], c)
  }

  function KanjiRatio(s: string, c: string): (r: real)
    requires MaxLength(s, c) > 0
    ensures 0.0 <= r <= 1.0
  {
    Ratio(KanjiMatchCount(s, c), MaxLength(s, c))
  }

  /** 0.3 for identical texts, otherwise at most 0.4 (line 125). */
  function ExactKanjiBonus(s: string, c: string): (b: real)
    requires MaxLength(s, c) > 0
    ensures s == c ==> b == 0.3
    ensures s != c ==> 0.0 <= b <= 0.4
  {
    if s == c then 0.3 else KanjiRatio(s, c) * 0.4
  }

  /** `1 - levenshtein / Math.max(n, m)` (line 110), in [0, 1] and 1 exactly for
      identical texts. */
  function StringScore(s: string, c: string): (r: real)
    requires MaxLength(s, c) > 0
    ensures 0.0 <= r <= 1.0
    ensures r == 1.0 <==> s == c
  {
    ZeroIffEqual(s, c);
    1.0 - Ratio(Levenshtein(s, c), MaxLength(s, c))
  }

  /** `Math.max(0.7, 1 - |n - m| / n)` (line 128): it divides by the reference length
      only. With n = 0 (and m > 0) the quotient is -Infinity and the maximum is 0.7. */
  function LengthPenalty(s: string, c: string): (p: real)
    requires MaxLength(s, c) > 0
    ensures 0.7 <= p <= 1.0
    ensures |s| == |c| ==> p == 1.0
    ensures |s| == 0 ==> p == 0.7
  {
    if |s| == 0 then 0.7
    else RealMax(0.7, 1.0 - Ratio(Distance(|s|, |c|), |s|))
  }

  /** `substringRatio * 0.05` when the ratio exceeds one half, else 0 (line 131). */
  function SubstringBonus(s: string, c: string): (b: real)
    requires MaxLength(s, c) > 0
    ensures SubstringRatio(s, c) <= 0.5 ==> b == 0.0
    ensures 0.0 <= b <= 0.05
  {
    var ratio := SubstringRatio(s, c);
    if ratio > 0.5 then ratio * 0.05 else 0.0
  }

  /** A non-negative weight scaled by the length penalty stays within [0, weight]. */
  lemma Scaled(x: real, p: real)
    requires 0.0 <= x && 0.0 <= p <= 1.0
    ensures 0.0 <= x * p <= x
  {
  }

  /** The blend of line 134-137, before the cap of line 139. */
  function CombinedScore(s: string, c: string, jw: real): (r: real)
    requires MaxLength(s, c) > 0 && 0.0 <= jw <= 1.0
    ensures 0.0 <= r
  {
    var weighted := jw * 0.7 + StringScore(s, c) * 0.2 + KanjiRatio(s, c) * 0.1;
    Scaled(weighted, LengthPenalty(s, c));
    weighted * LengthPenalty(s, c) + ExactKanjiBonus(s, c) + SubstringBonus(s, c)
  }

  /** `Math.min(combinedScore, 1)`: a score in [0, 1]. */
  function FinalScore(s: string, c: string, jw: real): (r: real)
    requires MaxLength(s, c) > 0 && 0.0 <= jw <= 1.0
    ensures 0.0 <= r <= 1.0
    ensures r == 1.0 || r == CombinedScore(s, c, jw)
  {
    RealMin(CombinedScore(s, c, jw), 1.0)
  }

  lemma {:induction false} PositionalMatchesSelf(s: string)
    ensures PositionalMatches(s, s) == |s|
  {
    if s != [] {
      PositionalMatchesSelf(s[1..]);
    }
  }

  /** Every position of `s` counts when all of its characters occur in `c`. */
  lemma {:induction false} KanjiMatchCountAll(s: string, c: string)
    requires forall i :: 0 <= i < |s| ==> s[i] in c
    ensures KanjiMatchCount(s, c) == |s|
  {
    if s != [] {
      assert s[0] in c;
      KanjiMatchCountAll(s[1..], c);
    }
  }

  /** Identical texts: every ratio and the penalty are 1, the bonuses are 0.3 and 0.05,
      so the score is min(0.65 + 0.7 * jw, 1), which is 1 once jw >= 0.5. */
  lemma IdenticalTexts(s: string, jw: real)
    requires |s| > 0 && 0.0 <= jw <= 1.0
    ensures StringScore(s, s) == 1.0
    ensures SubstringRatio(s, s) == 1.0 && KanjiRatio(s, s) == 1.0
    ensures LengthPenalty(s, s) == 1.0
    ensures ExactKanjiBonus(s, s) == 0.3 && SubstringBonus(s, s) == 0.05
    ensures FinalScore(s, s, jw) == RealMin(0.65 + 0.7 * jw, 1.0)
    ensures jw >= 0.5 ==> FinalScore(s, s, jw) == 1.0
  {
    PositionalMatchesSelf(s);
    KanjiMatchCountAll(s, s);
  }

  /** The penalty is directional: it divides by the reference length, so swapping a
      four-letter reference and a three-letter candidate changes it. */
  lemma PenaltyIsDirectional()
    ensures LengthPenalty("abcd", "abc") == 0.75
    ensures LengthPenalty("abc", "abcd") == 0.7
  {
    assert Ratio(1, 4) == 0.25;
    assert Ratio(1, 3) * 3.0 == 1.0;
  }
}
