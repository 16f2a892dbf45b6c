/** Words as the scorer and the worker handle them once validation has accepted them:
    a plain string, or an object with a `word` text and an optional pronunciation hint. */
module Words {
  import opened Js

  /** A word. In `Annotated`, an empty `pronounce` stands for every falsy value
      (absent, "", null, ...): the core treats all of them alike. */
  datatype Word = Plain(text: string) | Annotated(text: string, pronounce: string)

  predicate IsAsciiLetter(c: char) {
    ('A' <= c <= 'Z') || ('a' <= c <= 'z')
  }

  /** Stand-in for `src/isAlphabetOnly`, which is not part of this model: a non-empty
      string made of the letters A-Z and a-z only. */
  predicate AlphabetOnly(s: string) {
    |s| > 0 && forall i :: 0 <= i < |s| ==> IsAsciiLetter(s[i])
  }

  /** `isAlphabetOnly` applied to an arbitrary value: only strings can pass. */
  predicate IsAlphabetOnly(v: Value) {
    v.Str? && AlphabetOnly(v.s)
  }

  /** A value that denotes a word the model can carry: a string, or an object whose
      `word` is a string and whose truthy `pronounce`, if any, is a string. */
  predicate IsWordValue(v: Value) {
    v.Str? || (v.Obj? && v.word.Str? && (Truthy(v.pronounce) ==> v.pronounce.Str?))
  }

  /** The typed word a value denotes. */
  function ToWord(v: Value): (w: Word)
    requires IsWordValue(v)
    ensures v.Str? ==> w == Plain(v.s)
    ensures v.Obj? ==> w.Annotated? && w.text == v.word.s
    ensures v.Obj? ==> (w.pronounce != "" <==> Truthy(v.pronounce))
    ensures v.Obj? && Truthy(v.pronounce) ==> w.pronounce == v.pronounce.s
  {
    if v.Str? then Plain(v.s)
    else Annotated(v.word.s, if Truthy(v.pronounce) then v.pronounce.s else "")
  }
}
