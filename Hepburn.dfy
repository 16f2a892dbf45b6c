/** The Hepburn rewrite of src/toHepburn.js: a fixed chain of nine global, case-sensitive,
    literal substring replacements applied one after the other. */
module Hepburn {

  /** `pat` occurs in `s` starting at index `i`. */
  predicate OccursAt(pat: string, s: string, i: nat) {
    i + |pat| <= |s| && s[i..i + |pat|] == pat
  }

  predicate Occurs(pat: string, s: string) {
    exists i: nat :: i < |s| && OccursAt(pat, s, i)
  }

  /** `s.replace(/l|x/g, '')`: every `l` and every `x` removed, the rest kept in order. */
  function StripLX(s: string): (r: string)
    ensures 'l' !in r && 'x' !in r
  {
    if s == [] then []
    else if s[0] == 'l' || s[0] == 'x' then StripLX(s[1..])
    else [s[0]] + StripLX(s[1..])
  }

  /** `s.replace(/pat/g, rep)` for a literal `pat`: scanning from the left, every
      occurrence that does not overlap an earlier replaced one is replaced by `rep`;
      the text inserted is not rescanned. */
  function ReplaceAll(s: string, pat: string, rep: string): (r: string)
    requires pat != []
    decreases |s|
  {
    if |s| < |pat| then s
    else if s[..|pat|] == pat then rep + ReplaceAll(s[|pat|..], pat, rep)
    else [s[0]] + ReplaceAll(s[1..], pat, rep)
  }

  /** toHepburn: removal of `l` and `x` first, then the eight rewrites in source order. */
  function ToHepburn(s: string): string {
    var stripped := StripLX(s);
    var s1 := ReplaceAll(stripped, "ti", "chi");
    var s2 := ReplaceAll(s1, "tu", "tsu");
    var s3 := ReplaceAll(s2, "si", "shi");
    var s4 := ReplaceAll(s3, "zi", "ji");
    var s5 := ReplaceAll(s4, "hu", "fu");
    var s6 := ReplaceAll(s5, "sy", "sh");
    var s7 := ReplaceAll(s6, "ty", "ch");
    ReplaceAll(s7, "zy", "j")
  }

  /** A character absent from both the input and the replacement is absent from the output. */
  lemma {:induction false} ReplaceAllKeepsAbsent(s: string, pat: string, rep: string, c: char)
    requires pat != [] && c !in s && c !in rep
    ensures c !in ReplaceAll(s, pat, rep)
    decreases |s|
  {
    if |s| >= |pat| {
      if s[..|pat|] == pat {
        assert forall d :: d in s[|pat|..] ==> d in s;
        ReplaceAllKeepsAbsent(s[|pat|..], pat, rep, c);
      } else {
        assert forall d :: d in s[1..] ==> d in s;
        ReplaceAllKeepsAbsent(s[1..], pat, rep, c);
      }
    }
  }

  /** The output contains neither `l` nor `x`: both are removed first and no replacement
      text brings them back. */
  lemma DropsLAndX(s: string)
    ensures 'l' !in ToHepburn(s) && 'x' !in ToHepburn(s)
  {
    var stripped := StripLX(s);
    var s1 := ReplaceAll(stripped, "ti", "chi");
    var s2 := ReplaceAll(s1, "tu", "tsu");
    var s3 := ReplaceAll(s2, "si", "shi");
    var s4 := ReplaceAll(s3, "zi", "ji");
    var s5 := ReplaceAll(s4, "hu", "fu");
    var s6 := ReplaceAll(s5, "sy", "sh");
    var s7 := ReplaceAll(s6, "ty", "ch");
    forall c | c == 'l' || c == 'x' ensures c !in ToHepburn(s) {
      ReplaceAllKeepsAbsent(stripped, "ti", "chi", c);
      ReplaceAllKeepsAbsent(s1, "tu", "tsu", c);
      ReplaceAllKeepsAbsent(s2, "si", "shi", c);
      ReplaceAllKeepsAbsent(s3, "zi", "ji", c);
      ReplaceAllKeepsAbsent(s4, "hu", "fu", c);
      ReplaceAllKeepsAbsent(s5, "sy", "sh", c);
      ReplaceAllKeepsAbsent(s6, "ty", "ch", c);
      ReplaceAllKeepsAbsent(s7, "zy", "j", c);
    }
  }

  /** None of the nine rules can fire on `s`. */
  predicate NothingToRewrite(s: string) {
    && 'l' !in s && 'x' !in s
    && !Occurs("ti", s) && !Occurs("tu", s) && !Occurs("si", s) && !Occurs("zi", s)
    && !Occurs("hu", s) && !Occurs("sy", s) && !Occurs("ty", s) && !Occurs("zy", s)
  }

  lemma {:induction false} StripLXIdentity(s: string)
    requires 'l' !in s && 'x' !in s
    ensures StripLX(s) == s
  {
    if s != [] {
      assert s[0] in s;
      assert forall c :: c in s[1..] ==> c in s;
      StripLXIdentity(s[1..]);
      assert s == [s[0]] + s[1..];
    }
  }

  /** An occurrence in the tail of `s` is an occurrence in `s`, one place later. */
  lemma OccursInTail(pat: string, s: string)
    requires s != [] && Occurs(pat, s[1..])
    ensures Occurs(pat, s)
  {
    var i: nat :| i < |s[1..]| && OccursAt(pat, s[1..], i);
    assert s[1..][i..i + |pat|] == s[i + 1..i + 1 + |pat|];
    assert OccursAt(pat, s, i + 1);
  }

  lemma {:induction false} ReplaceAllIdentity(s: string, pat: string, rep: string)
    requires pat != [] && !Occurs(pat, s)
    ensures ReplaceAll(s, pat, rep) == s
    decreases |s|
  {
    if |s| >= |pat| {
      assert !OccursAt(pat, s, 0);
      if Occurs(pat, s[1..]) {
        OccursInTail(pat, s);
      }
      ReplaceAllIdentity(s[1..], pat, rep);
      assert s == [s[0]] + s[1..];
    }
  }

  /** A string on which no rule fires comes back unchanged. */
  lemma UnchangedWhenNothingToRewrite(s: string)
    requires NothingToRewrite(s)
    ensures ToHepburn(s) == s
  {
    StripLXIdentity(s);
    ReplaceAllIdentity(s, "ti", "chi");
    ReplaceAllIdentity(s, "tu", "tsu");
    ReplaceAllIdentity(s, "si", "shi");
    ReplaceAllIdentity(s, "zi", "ji");
    ReplaceAllIdentity(s, "hu", "fu");
    ReplaceAllIdentity(s, "sy", "sh");
    ReplaceAllIdentity(s, "ty", "ch");
    ReplaceAllIdentity(s, "zy", "j");
  }

  /** Every character of an occurring pattern is in the string. */
  lemma OccurrenceCharacters(pat: string, s: string)
    requires Occurs(pat, s)
    ensures forall c :: c in pat ==> c in s
  {
    var i: nat :| i < |s| && OccursAt(pat, s, i);
    forall c | c in pat ensures c in s {
      var k :| 0 <= k < |pat| && pat[k] == c;
      assert s[i + k] == s[i..i + |pat|][k];
    }
  }

  predicate HasNoLowerCase(s: string) {
    forall i :: 0 <= i < |s| ==> !('a' <= s[i] <= 'z')
  }

  /** Matching is case-sensitive: a string without lower-case letters is left alone. */
  lemma UpperCaseUntouched(s: string)
    requires HasNoLowerCase(s)
    ensures ToHepburn(s) == s
  {
    assert 't' !in s && 's' !in s && 'z' !in s && 'h' !in s;
    MissingCharacter("ti", s, 't');
    MissingCharacter("tu", s, 't');
    MissingCharacter("si", s, 's');
    MissingCharacter("zi", s, 'z');
    MissingCharacter("hu", s, 'h');
    MissingCharacter("sy", s, 's');
    MissingCharacter("ty", s, 't');
    MissingCharacter("zy", s, 'z');
    UnchangedWhenNothingToRewrite(s);
  }

  function Repeat(s: string, k: nat): (r: string)
    ensures |r| == k * |s|
  {
    if k == 0 then [] else s + Repeat(s, k - 1)
  }

  /** Every rule is global: `k` back-to-back copies of the pattern become `k` copies of
      the replacement. */
  lemma {:induction false} ReplaceAllRepeat(pat: string, rep: string, k: nat)
    requires pat != []
    ensures ReplaceAll(Repeat(pat, k), pat, rep) == Repeat(rep, k)
  {
    if k > 0 {
      var s := Repeat(pat, k);
      assert s[..|pat|] == pat;
      assert s[|pat|..] == Repeat(pat, k - 1);
      ReplaceAllRepeat(pat, rep, k - 1);
    }
  }

  /** A pattern with a character that `s` lacks cannot occur in `s`. */
  lemma MissingCharacter(pat: string, s: string, c: char)
    requires c in pat && c !in s
    ensures !Occurs(pat, s)
  {
    if Occurs(pat, s) {
      OccurrenceCharacters(pat, s);
      assert false;
    }
  }

  /** A rule whose pattern has a character that `s` lacks leaves `s` unchanged. */
  lemma CannotFire(s: string, pat: string, rep: string, c: char)
    requires pat != [] && c in pat && c !in s
    ensures ReplaceAll(s, pat, rep) == s
  {
    MissingCharacter(pat, s, c);
    ReplaceAllIdentity(s, pat, rep);
  }

  /** A match at the front is replaced and the scan resumes after it. */
  lemma ReplaceAllFront(pat: string, t: string, rep: string)
    requires pat != []
    ensures ReplaceAll(pat + t, pat, rep) == rep + ReplaceAll(t, pat, rep)
  {
    assert (pat + t)[..|pat|] == pat;
    assert (pat + t)[|pat|..] == t;
  }

  /** A first character that cannot start a match is copied. */
  lemma ReplaceAllSkip(c: char, t: string, pat: string, rep: string)
    requires pat != [] && c != pat[0]
    ensures ReplaceAll([c] + t, pat, rep) == [c] + ReplaceAll(t, pat, rep)
  {
    var s := [c] + t;
    assert s[1..] == t;
    if |s| < |pat| {
      assert |t| < |pat|;
    } else {
      assert s[..|pat|][0] == c;
    }
  }

  /** A front that does not start a match keeps its first character. */
  lemma ReplaceAllMismatch(s: string, pat: string, rep: string)
    requires pat != [] && s != [] && !(|pat| <= |s| && s[..|pat|] == pat)
    ensures ReplaceAll(s, pat, rep) == [s[0]] + ReplaceAll(s[1..], pat, rep)
  {
    if |s| < |pat| {
      assert s == [s[0]] + s[1..];
    }
  }

  /** ToHepburn as its nine steps, stated over variables so that a worked example can
      supply each intermediate string. */
  lemma Steps(s: string, s0: string, s1: string, s2: string, s3: string, s4: string,
              s5: string, s6: string, s7: string, s8: string)
    requires StripLX(s) == s0
    requires ReplaceAll(s0, "ti", "chi") == s1 && ReplaceAll(s1, "tu", "tsu") == s2
    requires ReplaceAll(s2, "si", "shi") == s3 && ReplaceAll(s3, "zi", "ji") == s4
    requires ReplaceAll(s4, "hu", "fu") == s5 && ReplaceAll(s5, "sy", "sh") == s6
    requires ReplaceAll(s6, "ty", "ch") == s7 && ReplaceAll(s7, "zy", "j") == s8
    ensures ToHepburn(s) == s8
  {
  }

  /** A match at the front, and nothing to match after it. */
  lemma ReplaceOnlyAtFront(pat: string, t: string, rep: string, c: char)
    requires pat != [] && c in pat && c !in t
    ensures ReplaceAll(pat + t, pat, rep) == rep + t
  {
    ReplaceAllFront(pat, t, rep);
    CannotFire(t, pat, rep, c);
  }

  lemma ExampleTu()
    ensures ToHepburn("tu") == "tsu"
  {
    StripLXIdentity("tu");
    CannotFire("tu", "ti", "chi", 'i');
    ReplaceOnlyAtFront("tu", "", "tsu", 't');
    assert "tu" + "" == "tu" && "tsu" + "" == "tsu";
    CannotFire("tsu", "si", "shi", 'i');
    CannotFire("tsu", "zi", "ji", 'z');
    CannotFire("tsu", "hu", "fu", 'h');
    CannotFire("tsu", "sy", "sh", 'y');
    CannotFire("tsu", "ty", "ch", 'y');
    CannotFire("tsu", "zy", "j", 'z');
    Steps("tu", "tu", "tu", "tsu", "tsu", "tsu", "tsu", "tsu", "tsu", "tsu");
  }

  lemma ExampleSya()
    ensures ToHepburn("sya") == "sha"
  {
    StripLXIdentity("sya");
    CannotFire("sya", "ti", "chi", 't');
    CannotFire("sya", "tu", "tsu", 't');
    CannotFire("sya", "si", "shi", 'i');
    CannotFire("sya", "zi", "ji", 'z');
    CannotFire("sya", "hu", "fu", 'h');
    ReplaceOnlyAtFront("sy", "a", "sh", 's');
    assert "sy" + "a" == "sya" && "sh" + "a" == "sha";
    CannotFire("sha", "ty", "ch", 't');
    CannotFire("sha", "zy", "j", 'z');
    Steps("sya", "sya", "sya", "sya", "sya", "sya", "sya", "sha", "sha", "sha");
  }

  /** `tyu` holds both letters of `tu` but not as a match. */
  lemma TyuHasNoTu()
    ensures ReplaceAll("tyu", "tu", "tsu") == "tyu"
  {
    assert "tyu"[..2] != "tu" by { assert "tyu"[..2][1] == 'y'; }
    ReplaceAllMismatch("tyu", "tu", "tsu");
    assert "tyu"[1..] == "yu";
    CannotFire("yu", "tu", "tsu", 't');
    assert ['t'] + "yu" == "tyu";
  }

  lemma ExampleTyu()
    ensures ToHepburn("tyu") == "chu"
  {
    StripLXIdentity("tyu");
    CannotFire("tyu", "ti", "chi", 'i');
    TyuHasNoTu();
    CannotFire("tyu", "si", "shi", 's');
    CannotFire("tyu", "zi", "ji", 'z');
    CannotFire("tyu", "hu", "fu", 'h');
    CannotFire("tyu", "sy", "sh", 's');
    ReplaceOnlyAtFront("ty", "u", "ch", 't');
    assert "ty" + "u" == "tyu" && "ch" + "u" == "chu";
    CannotFire("chu", "zy", "j", 'z');
    Steps("tyu", "tyu", "tyu", "tyu", "tyu", "tyu", "tyu", "tyu", "chu", "chu");
  }

  lemma ExampleZya()
    ensures ToHepburn("zya") == "ja"
  {
    StripLXIdentity("zya");
    CannotFire("zya", "ti", "chi", 't');
    CannotFire("zya", "tu", "tsu", 't');
    CannotFire("zya", "si", "shi", 's');
    CannotFire("zya", "zi", "ji", 'i');
    CannotFire("zya", "hu", "fu", 'h');
    CannotFire("zya", "sy", "sh", 's');
    CannotFire("zya", "ty", "ch", 't');
    ReplaceOnlyAtFront("zy", "a", "j", 'z');
    assert "zy" + "a" == "zya" && "j" + "a" == "ja";
    Steps("zya", "zya", "zya", "zya", "zya", "zya", "zya", "zya", "zya", "ja");
  }

  /** The `ti` rule is global: both occurrences in `titi` are replaced. */
  lemma TiRuleIsGlobal()
    ensures ReplaceAll("titi", "ti", "chi") == "chichi"
  {
    ReplaceAllRepeat("ti", "chi", 2);
    assert Repeat("ti", 2) == "titi" && Repeat("chi", 2) == "chichi";
  }

  lemma ExampleTiti()
    ensures ToHepburn("titi") == "chichi"
  {
    StripLXIdentity("titi");
    TiRuleIsGlobal();
    ChichiIsFinal();
    Steps("titi", "titi", "chichi", "chichi", "chichi", "chichi", "chichi", "chichi", "chichi", "chichi");
  }

  /** No rule after `ti` fires on `chichi`. */
  lemma ChichiIsFinal()
    ensures ReplaceAll("chichi", "tu", "tsu") == "chichi"
    ensures ReplaceAll("chichi", "si", "shi") == "chichi"
    ensures ReplaceAll("chichi", "zi", "ji") == "chichi"
    ensures ReplaceAll("chichi", "hu", "fu") == "chichi"
    ensures ReplaceAll("chichi", "sy", "sh") == "chichi"
    ensures ReplaceAll("chichi", "ty", "ch") == "chichi"
    ensures ReplaceAll("chichi", "zy", "j") == "chichi"
  {
    CannotFire("chichi", "tu", "tsu", 'u');
    CannotFire("chichi", "si", "shi", 's');
    CannotFire("chichi", "zi", "ji", 'z');
    CannotFire("chichi", "hu", "fu", 'u');
    CannotFire("chichi", "sy", "sh", 'y');
    CannotFire("chichi", "ty", "ch", 'y');
    CannotFire("chichi", "zy", "j", 'y');
  }

  /** Removing `x` from `txi` forms the `ti` that is then rewritten. */
  lemma ExampleTxi()
    ensures ToHepburn("txi") == "chi"
  {
    assert StripLX("txi") == "ti" by {
      assert "txi"[1..] == "xi" && "xi"[1..] == "i";
      StripLXIdentity("i");
    }
    ReplaceOnlyAtFront("ti", "", "chi", 't');
    assert "ti" + "" == "ti" && "chi" + "" == "chi";
    CannotFire("chi", "tu", "tsu", 't');
    CannotFire("chi", "si", "shi", 's');
    CannotFire("chi", "zi", "ji", 'z');
    CannotFire("chi", "hu", "fu", 'u');
    CannotFire("chi", "sy", "sh", 's');
    CannotFire("chi", "ty", "ch", 't');
    CannotFire("chi", "zy", "j", 'z');
    Steps("txi", "ti", "chi", "chi", "chi", "chi", "chi", "chi", "chi", "chi");
  }

  /** Removing `l` and `x` from `lxsi` forms the `si` that is then rewritten. */
  lemma ExampleLxsi()
    ensures ToHepburn("lxsi") == "shi"
  {
    assert StripLX("lxsi") == "si" by {
      assert "lxsi"[1..] == "xsi" && "xsi"[1..] == "si";
      StripLXIdentity("si");
    }
    CannotFire("si", "ti", "chi", 't');
    CannotFire("si", "tu", "tsu", 't');
    ReplaceOnlyAtFront("si", "", "shi", 's');
    assert "si" + "" == "si" && "shi" + "" == "shi";
    CannotFire("shi", "zi", "ji", 'z');
    CannotFire("shi", "hu", "fu", 'u');
    CannotFire("shi", "sy", "sh", 'y');
    CannotFire("shi", "ty", "ch", 't');
    CannotFire("shi", "zy", "j", 'z');
    Steps("lxsi", "si", "si", "si", "shi", "shi", "shi", "shi", "shi", "shi");
  }

  /** Upper-case input is not rewritten: the rules match lower case only. */
  lemma ExampleUpperCase()
    ensures ToHepburn("TI") == "TI" && ToHepburn("L") == "L"
  {
    UpperCaseUntouched("TI");
    UpperCaseUntouched("L");
  }

  /** The rewrite is not idempotent: `hu` is rewritten before `sy`, so the `hu` that
      the `sy` rule leaves behind is only caught by a second pass. */
  lemma NotIdempotent()
    ensures ToHepburn("syu") == "shu"
    ensures ToHepburn(ToHepburn("syu")) == "sfu"
  {
    ExampleSyu();
    ExampleShu();
  }

  lemma ExampleSyu()
    ensures ToHepburn("syu") == "shu"
  {
    StripLXIdentity("syu");
    CannotFire("syu", "ti", "chi", 't');
    CannotFire("syu", "tu", "tsu", 't');
    CannotFire("syu", "si", "shi", 'i');
    CannotFire("syu", "zi", "ji", 'z');
    CannotFire("syu", "hu", "fu", 'h');
    ReplaceOnlyAtFront("sy", "u", "sh", 's');
    assert "sy" + "u" == "syu" && "sh" + "u" == "shu";
    CannotFire("shu", "ty", "ch", 't');
    CannotFire("shu", "zy", "j", 'z');
    Steps("syu", "syu", "syu", "syu", "syu", "syu", "syu", "shu", "shu", "shu");
  }

  lemma ExampleShu()
    ensures ToHepburn("shu") == "sfu"
  {
    StripLXIdentity("shu");
    CannotFire("shu", "ti", "chi", 't');
    CannotFire("shu", "tu", "tsu", 't');
    CannotFire("shu", "si", "shi", 'i');
    CannotFire("shu", "zi", "ji", 'z');
    ReplaceAllSkip('s', "hu", "hu", "fu");
    ReplaceOnlyAtFront("hu", "", "fu", 'h');
    assert "hu" + "" == "hu" && "fu" + "" == "fu";
    assert ['s'] + "hu" == "shu" && ['s'] + "fu" == "sfu";
    CannotFire("sfu", "sy", "sh", 'y');
    CannotFire("sfu", "ty", "ch", 't');
    CannotFire("sfu", "zy", "j", 'z');
    Steps("shu", "shu", "shu", "shu", "shu", "shu", "sfu", "sfu", "sfu", "sfu");
  }
}
