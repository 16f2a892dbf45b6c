/** Levenshtein distance, the quantity the scorer obtains from `fast-levenshtein`.
    Textbook recursive definition: insertions, deletions and substitutions cost one. */
module EditDistance {

  function Max(a: nat, b: nat): nat {
    if a >= b then a else b
  }

  function Min3(a: nat, b: nat, c: nat): (r: nat)
    ensures r <= a && r <= b && r <= c
    ensures r == a || r == b || r == c
  {
    if a <= b && a <= c then a else if b <= c then b else c
  }

  /** The least number of single-character edits turning `s` into `t`; it never
      exceeds the longer length. */
  function Levenshtein(s: string, t: string): (d: nat)
    ensures d <= Max(|s|, |t|)
    decreases |s| + |t|
  {
    if s == [] then |t|
    else if t == [] then |s|
    else if s[0] == t[0] then Levenshtein(s[1..], t[1..])
    else 1 + Min3(Levenshtein(s[1..], t), Levenshtein(s, t[1..]), Levenshtein(s[1..], t[1..]))
  }

  /** The distance is zero exactly when the strings are equal. */
  lemma {:induction false} ZeroIffEqual(s: string, t: string)
    ensures Levenshtein(s, t) == 0 <==> s == t
    decreases |s| + |t|
  {
    if s != [] && t != [] && s[0] == t[0] {
      ZeroIffEqual(s[1..], t[1..]);
      if s[1..] == t[1..] {
        assert s == [s[0]] + s[1..] && t == [t[0]] + t[1..];
      }
    }
  }

  /** The distance is at least the difference of the lengths. */
  lemma {:induction false} AtLeastLengthDifference(s: string, t: string)
    ensures Levenshtein(s, t) >= |s| - |t| && Levenshtein(s, t) >= |t| - |s|
    decreases |s| + |t|
  {
    if s != [] && t != [] {
      AtLeastLengthDifference(s[1..], t[1..]);
      if s[0] != t[0] {
        AtLeastLengthDifference(s[1..], t);
        AtLeastLengthDifference(s, t[1..]);
      }
    }
  }
}
