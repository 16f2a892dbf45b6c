/** Result assembly (index.js:147-157): the scored candidates are sorted in place by
    descending score with a stable sort (`scores.sort((a, b) => b.score - a.score)`),
    and without `raw` only the words tied at the top score are kept. */
module Ranking {

  /** One `{ word, score }` entry; `word` is the candidate's literal text. */
  datatype Scored = Scored(word: string, score: real)

  /** Scores never increase from left to right. */
  predicate SortedDesc(s: seq<Scored>) {
    forall k, l :: 0 <= k < l < |s| ==> s[k].score >= s[l].score
  }

  /** The entries of `s` whose score is `v`, in their order in `s`. */
  function WithScore(s: seq<Scored>, v: real): (r: seq<Scored>)
    ensures |r| <= |s|
    ensures forall k :: 0 <= k < |r| ==> r[k].score == v
  {
    if s == [] then []
    else (if s[0].score == v then [s[0]] else []) + WithScore(s[1..], v)
  }

  /** The filter keeps every entry whose score is `v`, as often as it occurs, and
      nothing else. */
  lemma {:induction false} WithScoreCounts(s: seq<Scored>, v: real, x: Scored)
    ensures multiset(WithScore(s, v))[x] == if x.score == v then multiset(s)[x] else 0
  {
    if s != [] {
      WithScoreCounts(s[1..], v, x);
      assert s == [s[0]] + s[1..];
    }
  }

  /** An entry is kept exactly when it is in the list and has score `v`. */
  lemma WithScoreMembers(s: seq<Scored>, v: real, x: Scored)
    ensures x in WithScore(s, v) <==> x in s && x.score == v
  {
    WithScoreCounts(s, v, x);
  }

  /** `sorted` is `original` sorted by descending score, entries with equal scores
      keeping their relative order. */
  ghost predicate StablySorted(sorted: seq<Scored>, original: seq<Scored>) {
    && SortedDesc(sorted)
    && multiset(sorted) == multiset(original)
    && SameClasses(sorted, original)
  }

  /** Every score class lists the same entries in the same order. */
  ghost predicate SameClasses(s: seq<Scored>, t: seq<Scored>) {
    forall v :: WithScore(s, v) == WithScore(t, v)
  }

  lemma {:induction false} WithScoreConcat(s: seq<Scored>, t: seq<Scored>, v: real)
    ensures WithScore(s + t, v) == WithScore(s, v) + WithScore(t, v)
  {
    if s == [] {
      assert s + t == t;
    } else {
      var head := if s[0].score == v then [s[0]] else [];
      assert (s + t)[0] == s[0];
      assert (s + t)[1..] == s[1..] + t;
      assert WithScore(s + t, v) == head + WithScore(s[1..] + t, v);
      WithScoreConcat(s[1..], t, v);
      assert WithScore(s, v) == head + WithScore(s[1..], v);
    }
  }

  /** Two entries with different scores are in different classes, so their order
      within a pair does not matter to any class. */
  lemma PairClasses(x: Scored, y: Scored, v: real)
    requires x.score != y.score
    ensures WithScore([x, y], v) == WithScore([y, x], v)
  {
    assert [x, y][1..] == [y] && [y, x][1..] == [x];
    assert [x][1..] == [] && [y][1..] == [];
  }

  /** Exchanging two neighbours with different scores keeps every score class in order. */
  lemma SwapKeepsClasses(s: seq<Scored>, j: nat, v: real)
    requires 0 < j < |s| && s[j - 1].score != s[j].score
    ensures WithScore(s[j - 1 := s[j]][j := s[j - 1]], v) == WithScore(s, v)
  {
    var x, y := s[j - 1], s[j];
    var pre, post := s[..j - 1], s[j + 1..];
    assert s == pre + ([x, y] + post);
    assert s[j - 1 := y][j := x] == pre + ([y, x] + post);
    WithScoreConcat(pre, [x, y] + post, v);
    WithScoreConcat([x, y], post, v);
    WithScoreConcat(pre, [y, x] + post, v);
    WithScoreConcat([y, x], post, v);
    PairClasses(x, y, v);
  }

  /** The inner loop's state: entries 0..i are sorted except for the one at j, which is
      being moved left and already outscores every entry after it up to i. */
  predicate Inserting(s: seq<Scored>, i: nat, j: nat) {
    && j <= i < |s|
    && (forall k, l :: 0 <= k < l <= i && k != j && l != j ==> s[k].score >= s[l].score)
    && (forall l :: j < l <= i ==> s[j].score > s[l].score)
  }

  /** The exchange of s[j - 1] and s[j]. */
  function Swap(s: seq<Scored>, j: nat): (t: seq<Scored>)
    requires 0 < j < |s|
    ensures |t| == |s| && t[j - 1] == s[j] && t[j] == s[j - 1]
    ensures forall k :: 0 <= k < |s| && k != j - 1 && k != j ==> t[k] == s[k]
  {
    s[j - 1 := s[j]][j := s[j - 1]]
  }

  /** Entries 0..i-1 are in descending order. */
  predicate SortedBelow(s: seq<Scored>, i: nat) {
    forall k, l :: 0 <= k < l < i && l < |s| ==> s[k].score >= s[l].score
  }

  lemma StartInserting(s: seq<Scored>, i: nat)
    requires i < |s| && SortedBelow(s, i)
    ensures Inserting(s, i, i)
  {
  }

  lemma SwapStep(s: seq<Scored>, i: nat, j: nat)
    requires Inserting(s, i, j) && 0 < j && s[j - 1].score < s[j].score
    ensures Inserting(Swap(s, j), i, j - 1)
    ensures multiset(Swap(s, j)) == multiset(s)
    ensures SameClasses(Swap(s, j), s)
  {
    forall v ensures WithScore(Swap(s, j), v) == WithScore(s, v) {
      SwapKeepsClasses(s, j, v);
    }
  }

  lemma DoneInserting(s: seq<Scored>, i: nat, j: nat)
    requires Inserting(s, i, j) && (j == 0 || s[j - 1].score >= s[j].score)
    ensures SortedBelow(s, i + 1)
  {
  }

  /** `scores.sort((a, b) => b.score - a.score)`: a stable in-place sort by descending
      score (insertion sort with adjacent swaps of strictly out-of-order neighbours). */
  method SortByScore(a: array<Scored>)
    modifies a
    ensures StablySorted(a[..], old(a[..]))
  {
    var i := 0;
    while i < a.Length
      invariant 0 <= i <= a.Length
      invariant SortedBelow(a[..], i)
      invariant multiset(a[..]) == multiset(old(a[..]))
      invariant SameClasses(a[..], old(a[..]))
    {
      StartInserting(a[..], i);
      var j := i;
      while j > 0 && a[j - 1].score < a[j].score
        invariant Inserting(a[..], i, j)
        invariant multiset(a[..]) == multiset(old(a[..]))
        invariant SameClasses(a[..], old(a[..]))
      {
        ghost var before := a[..];
        SwapStep(before, i, j);
        a[j - 1], a[j] := a[j], a[j - 1];
        assert a[..] == Swap(before, j);
        j := j - 1;
      }
      DoneInserting(a[..], i, j);
      i := i + 1;
    }
  }

  /** The largest score of a non-empty list. */
  function MaxScore(s: seq<Scored>): (m: real)
    requires s != []
    ensures forall k :: 0 <= k < |s| ==> s[k].score <= m
    ensures exists k :: 0 <= k < |s| && s[k].score == m
  {
    if |s| == 1 then s[0].score
    else
      var rest := MaxScore(s[1..]);
      assert forall k :: 1 <= k < |s| ==> s[k] == s[1..][k - 1];
      if s[0].score >= rest then s[0].score else rest
  }

  /** `.map((item) => item.word)`. */
  function Words(s: seq<Scored>): (r: seq<string>)
    ensures |r| == |s| && forall k :: 0 <= k < |s| ==> r[k] == s[k].word
  {
    seq(|s|, k requires 0 <= k < |s| => s[k].word)
  }

  /** Lines 150-153 on the sorted list: the words whose score equals that of the first
      entry (`scores[0]?.score`); an empty list gives []. */
  function TopWords(sorted: seq<Scored>): seq<string> {
    if sorted == [] then [] else Words(WithScore(sorted, sorted[0].score))
  }

  /** The words tied at the maximum score, in the candidates' original order. */
  function BestWords(original: seq<Scored>): seq<string> {
    if original == [] then [] else Words(WithScore(original, MaxScore(original)))
  }

  /** The first entry of a descending permutation carries the maximum score. */
  lemma FirstIsMax(sorted: seq<Scored>, original: seq<Scored>)
    requires SortedDesc(sorted) && multiset(sorted) == multiset(original) && original != []
    ensures sorted != [] && sorted[0].score == MaxScore(original)
  {
    var m := MaxScore(original);
    var k :| 0 <= k < |original| && original[k].score == m;
    assert original[k] in multiset(sorted);
    var l :| 0 <= l < |sorted| && sorted[l] == original[k];
    assert sorted[0].score >= m;
    assert sorted[0] in multiset(original);
    var t :| 0 <= t < |original| && original[t] == sorted[0];
  }

  /** After a stable descending sort, the tie filter keeps exactly the words whose score
      is the maximum, in original relative order. */
  lemma TopWordsAreBest(sorted: seq<Scored>, original: seq<Scored>)
    requires StablySorted(sorted, original)
    ensures TopWords(sorted) == BestWords(original)
  {
    if original == [] {
      assert |multiset(sorted)| == 0;
    } else {
      FirstIsMax(sorted, original);
      assert WithScore(sorted, sorted[0].score) == WithScore(original, MaxScore(original));
    }
  }
}
