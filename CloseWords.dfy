/** `closeWords(word, candidates, raw)` (index.js:61-162): validation of the arguments, one
    romanization batch holding the reference and then the candidates, a score per
    candidate, a stable sort by descending score, and either the words tied at the top
    or the whole ranked list. The worker thread is modelled by `Worker.WorkerContext`;
    Jaro-Winkler similarity is the parameter `jw`. */
module CloseWords {
  import opened Js
  import opened Words
  import opened Scoring
  import opened Ranking
  import opened Worker

  const WordShapeError := Failure("Error", "word must be a string or an object with 'word'.")
  const WordPronounceError := Failure("Error", "word.pronounce must be an alphabetic string.")
  const CandidatesShapeError := Failure("Error", "Candidates must be an array of strings or objects with 'word'.")
  const CandidatePronounceError := Failure("Error", "pronounces within candidates must be alphabetic strings.")
  const RawTypeError := Failure("Error", "raw must be boolean.")
  /** What reading `.word` of null throws. */
  const NullWordAccess := Failure("TypeError", "Cannot read properties of null (reading 'word')")

  /** Reading the property `word`: a TypeError on null, undefined on anything that is
      not an object with that property. */
  function GetWord(v: Value): Result<Value, Failure> {
    if v.Null? then Err(NullWordAccess) else if v.Obj? then Ok(v.word) else Ok(Undefined)
  }

  /** The shape test of lines 64-69 (negated there) and 81-85: a string, or an object
      whose `word` is truthy. Null makes the property read throw. */
  function HasWordTest(v: Value): Result<bool, Failure> {
    if TypeOf(v) == "string" then Ok(true)
    else if TypeOf(v) != "object" then Ok(false)
    else
      match GetWord(v)
      case Err(e) => Err(e)
      case Ok(w) => Ok(Truthy(w))
  }

  /** The shape the test accepts. */
  predicate HasWord(v: Value) {
    v.Str? || (v.Obj? && Truthy(v.word))
  }

  lemma HasWordTestMeaning(v: Value)
    ensures HasWordTest(v) == Ok(true) <==> HasWord(v)
    ensures HasWordTest(v).Err? <==> v.Null?
    ensures HasWordTest(v).Err? ==> HasWordTest(v) == Err(NullWordAccess)
  {
  }

  /** The first failing item, counted in the tail, is the first failing item one place
      later in the whole list. */
  lemma FirstFailureInTail(items: seq<Value>, r: Result<bool, Failure>)
    requires items != [] && HasWordTest(items[0]) == Ok(true)
    requires exists i :: 0 <= i < |items| - 1 && HasWordTest(items[1..][i]) == r
                         && forall j :: 0 <= j < i ==> HasWordTest(items[1..][j]) == Ok(true)
    ensures exists i :: 0 <= i < |items| && HasWordTest(items[i]) == r
                        && forall j :: 0 <= j < i ==> HasWordTest(items[j]) == Ok(true)
  {
    var i :| 0 <= i < |items| - 1 && HasWordTest(items[1..][i]) == r
             && forall j :: 0 <= j < i ==> HasWordTest(items[1..][j]) == Ok(true);
    assert HasWordTest(items[i + 1]) == r;
    forall j | 0 <= j < i + 1 ensures HasWordTest(items[j]) == Ok(true) {
      if j > 0 {
        assert items[j] == items[1..][j - 1];
      }
    }
  }

  /** `candidates.every(test)`: stops at the first item that fails or throws. */
  function Every(items: seq<Value>): (r: Result<bool, Failure>)
    ensures r == Ok(true) <==> forall i :: 0 <= i < |items| ==> HasWordTest(items[i]) == Ok(true)
    ensures r != Ok(true) ==> exists i :: 0 <= i < |items| && HasWordTest(items[i]) == r
                                 && forall j :: 0 <= j < i ==> HasWordTest(items[j]) == Ok(true)
  {
    if items == [] then Ok(true)
    else if HasWordTest(items[0]) != Ok(true) then HasWordTest(items[0])
    else
      var rest := Every(items[1..]);
      assert forall i :: 1 <= i < |items| ==> items[i] == items[1..][i - 1];
      if rest != Ok(true) then
        FirstFailureInTail(items, rest);
        rest
      else rest
  }

  /** Lines 72-76 and 89-91: a truthy `pronounce` of an object must pass `isAlphabetOnly`;
      a falsy one (absent, "", null) is not checked. */
  predicate PronounceAccepted(v: Value) {
    v.Obj? && Truthy(v.pronounce) ==> IsAlphabetOnly(v.pronounce)
  }

  /** The reference and the candidates that validation lets through. */
  predicate ShapesAccepted(word: Value, candidates: Value) {
    && HasWord(word) && PronounceAccepted(word)
    && candidates.Arr?
    && forall i :: 0 <= i < |candidates.items| ==> HasWord(candidates.items[i]) && PronounceAccepted(candidates.items[i])
  }

  /** `raw = false`: the default applies to an undefined argument only; then it must be
      a boolean. */
  function RawFlag(raw: Value): Result<bool, Failure> {
    match raw
    case Undefined => Ok(false)
    case Bool(b) => Ok(b)
    case _ => Err(RawTypeError)
  }

  /** Lines 64-93, in their order: the raw flag, or the first error thrown. */
  function Validate(word: Value, candidates: Value, raw: Value): (r: Result<bool, Failure>)
    ensures r.Ok? <==> ShapesAccepted(word, candidates) && (raw.Undefined? || raw.Bool?)
    ensures r.Ok? ==> r.value == (raw == Bool(true))
  {
    HasWordTestMeaning(word);
    match HasWordTest(word)
    case Err(e) => Err(e)
    case Ok(shaped) =>
      if !shaped then Err(WordShapeError)
      else if !PronounceAccepted(word) then Err(WordPronounceError)
      else if !candidates.Arr? then Err(CandidatesShapeError)
      else
        var items := candidates.items;
        match Every(items)
        case Err(e) =>
          var i :| 0 <= i < |items| && HasWordTest(items[i]) == Err(e);
          HasWordTestMeaning(items[i]);
          Err(e)
        case Ok(all) =>
          if !all then
            var i :| 0 <= i < |items| && HasWordTest(items[i]) == Ok(false);
            HasWordTestMeaning(items[i]);
            Err(CandidatesShapeError)
          else
            assert forall i :: 0 <= i < |items| ==> HasWordTest(items[i]) == Ok(true);
            assert forall i :: 0 <= i < |items| ==> HasWord(items[i]) by {
              forall i | 0 <= i < |items| ensures HasWord(items[i]) {
                HasWordTestMeaning(items[i]);
              }
            }
            if !(forall i :: 0 <= i < |items| ==> PronounceAccepted(items[i])) then Err(CandidatePronounceError)
            else RawFlag(raw)
  }

  /** A reference of the wrong shape is rejected first; null makes the test throw. */
  lemma ReferenceRejected(word: Value, candidates: Value, raw: Value)
    requires !HasWord(word)
    ensures Validate(word, candidates, raw) == Err(if word.Null? then NullWordAccess else WordShapeError)
  {
    HasWordTestMeaning(word);
  }

  lemma ReferencePronounceRejected(word: Value, candidates: Value, raw: Value)
    requires HasWord(word) && !PronounceAccepted(word)
    ensures Validate(word, candidates, raw) == Err(WordPronounceError)
  {
    HasWordTestMeaning(word);
  }

  lemma CandidatesNotAnArray(word: Value, candidates: Value, raw: Value)
    requires HasWord(word) && PronounceAccepted(word) && !candidates.Arr?
    ensures Validate(word, candidates, raw) == Err(CandidatesShapeError)
  {
    HasWordTestMeaning(word);
  }

  /** The first candidate of the wrong shape decides the error: a TypeError when it is
      null, the candidates error otherwise. Later candidates are not looked at. */
  lemma FirstBadCandidate(word: Value, items: seq<Value>, raw: Value, i: nat)
    requires HasWord(word) && PronounceAccepted(word)
    requires i < |items| && !HasWord(items[i]) && forall j :: 0 <= j < i ==> HasWord(items[j])
    ensures Validate(word, Arr(items), raw) == Err(if items[i].Null? then NullWordAccess else CandidatesShapeError)
  {
    HasWordTestMeaning(word);
    HasWordTestMeaning(items[i]);
    forall j | 0 <= j < i ensures HasWordTest(items[j]) == Ok(true) {
      HasWordTestMeaning(items[j]);
    }
    var r := Every(items);
    assert r != Ok(true);
    var k :| 0 <= k < |items| && HasWordTest(items[k]) == r && forall j :: 0 <= j < k ==> HasWordTest(items[j]) == Ok(true);
    HasWordTestMeaning(items[k]);
    assert k == i;
  }

  lemma CandidatePronounceRejected(word: Value, items: seq<Value>, raw: Value, i: nat)
    requires HasWord(word) && PronounceAccepted(word)
    requires forall j :: 0 <= j < |items| ==> HasWord(items[j])
    requires i < |items| && !PronounceAccepted(items[i])
    ensures Validate(word, Arr(items), raw) == Err(CandidatePronounceError)
  {
    HasWordTestMeaning(word);
    forall j | 0 <= j < |items| ensures HasWordTest(items[j]) == Ok(true) {
      HasWordTestMeaning(items[j]);
    }
  }

  lemma RawRejected(word: Value, candidates: Value, raw: Value)
    requires ShapesAccepted(word, candidates) && !raw.Undefined? && !raw.Bool?
    ensures Validate(word, candidates, raw) == Err(RawTypeError)
  {
    HasWordTestMeaning(word);
    forall j | 0 <= j < |candidates.items| ensures HasWordTest(candidates.items[j]) == Ok(true) {
      HasWordTestMeaning(candidates.items[j]);
    }
  }

  /** An empty `pronounce` is falsy and escapes the alphabetic check, which it would fail. */
  lemma EmptyPronounceIsNotChecked(text: string)
    requires text != ""
    ensures !IsAlphabetOnly(Str(""))
    ensures Validate(Obj(Str(text), Str("")), Arr([Obj(Str(text), Str(""))]), Undefined) == Ok(false)
  {
  }

  /** A truthy `word` of an object is a string: the model carries no other word text. */
  predicate TextIsString(v: Value) {
    v.Obj? && Truthy(v.word) ==> v.word.Str?
  }

  predicate TextsAreStrings(word: Value, candidates: Value) {
    && TextIsString(word)
    && (candidates.Arr? ==> forall i :: 0 <= i < |candidates.items| ==> TextIsString(candidates.items[i]))
  }

  /** An empty reference string compared with an empty candidate string divides zero by
      zero; such calls are outside the model. */
  predicate LengthsDefined(word: Value, candidates: Value) {
    word == Str("") ==> !(candidates.Arr? && Str("") in candidates.items)
  }

  /** The batch sent to the worker, `[word, ...candidates]`, as typed words. */
  function Batch(word: Value, candidates: Value): (ws: seq<Word>)
    requires ShapesAccepted(word, candidates) && TextsAreStrings(word, candidates)
    ensures |ws| == |candidates.items| + 1
    ensures ws[0] == ToWord(word)
    ensures forall i :: 0 <= i < |candidates.items| ==> ws[i + 1] == ToWord(candidates.items[i])
  {
    var items := candidates.items;
    [ToWord(word)] + seq(|items|, i requires 0 <= i < |items| => ToWord(items[i]))
  }

  /** The literal texts of words. */
  function Texts(ws: seq<Word>): (r: seq<string>)
    ensures |r| == |ws| && forall i :: 0 <= i < |ws| ==> r[i] == ws[i].text
  {
    seq(|ws|, i requires 0 <= i < |ws| => ws[i].text)
  }

  /** index.js:14-20: a posted `{ error }` is rethrown as `new Error(message.error)`,
      whose message is the text of the posted error. */
  function Receive(m: Message): Result<seq<string>, Failure> {
    match m
    case Romanized(romaji) => Ok(romaji)
    case Errored(e) => Err(Failure("Error", e.Text()))
  }

  /** The romanization of a batch by a freshly started worker. */
  function Romanization(words: seq<Word>, build: Result<Tokenizer, string>, an: Analyzer): (r: Result<seq<string>, Failure>)
    ensures r.Ok? ==> |r.value| == |words|
    ensures r.Ok? ==> build.Ok? && forall i :: 0 <= i < |words| ==> ConvertWord(build.value, an, words[i]) == Ok(r.value[i])
  {
    Receive(BatchMessage(None, words, build, an))
  }

  /** A tokenizer build failure reaches the caller as an Error whose message is the
      worker's error text. */
  lemma BuildFailureReachesCaller(words: seq<Word>, e: string, an: Analyzer)
    ensures Romanization(words, Err(e), an) == Err(Failure("Error", "Error: " + InitFailurePrefix + e))
  {
    var m := InitFailurePrefix + e;
    assert |InitFailurePrefix| > 0;
    assert Failure("Error", m).Text() == "Error" + ": " + m;
    assert "Error" + ": " == "Error: ";
    assert "Error: " + m == "Error: " + InitFailurePrefix + e;
  }

  /** Lines 104-145: the entry of one candidate `c`, whose romanization is `rc`, against
      the reference, whose romanization is `r0`. */
  function ScoreOne(reference: string, c: string, r0: string, rc: string, jw: (string, string) -> real): (e: Scored)
    requires MaxLength(reference, c) > 0
    requires forall a, b :: 0.0 <= jw(a, b) <= 1.0
    ensures e.word == c && 0.0 <= e.score <= 1.0
  {
    Scored(c, FinalScore(reference, c, jw(r0, rc)))
  }

  /** Lines 104-145 for every candidate: candidate i is scored against the reference with
      the similarity of romaji[0] and romaji[i + 1]. */
  function ScoreAll(reference: string, cands: seq<string>, romaji: seq<string>, jw: (string, string) -> real): (r: seq<Scored>)
    requires |romaji| == |cands| + 1
    requires forall i :: 0 <= i < |cands| ==> MaxLength(reference, cands[i]) > 0
    requires forall a, b :: 0.0 <= jw(a, b) <= 1.0
    ensures |r| == |cands|
    ensures forall i :: 0 <= i < |cands| ==> r[i].word == cands[i] && 0.0 <= r[i].score <= 1.0
    ensures forall i :: 0 <= i < |cands| ==> r[i] == ScoreOne(reference, cands[i], romaji[0], romaji[i + 1], jw)
  {
    seq(|cands|, i requires 0 <= i < |cands| => ScoreOne(reference, cands[i], romaji[0], romaji[i + 1], jw))
  }

  /** Reindexing moves a candidate together with its romanization. */
  lemma ReindexedEntry(reference: string, cands: seq<string>, romaji: seq<string>, jw: (string, string) -> real, p: seq<nat>, k: nat)
    requires |romaji| == |cands| + 1
    requires forall i :: 0 <= i < |cands| ==> MaxLength(reference, cands[i]) > 0
    requires forall a, b :: 0.0 <= jw(a, b) <= 1.0
    requires forall k :: 0 <= k < |p| ==> p[k] < |cands|
    requires k < |p|
    ensures Reindex(cands, p)[k] == cands[p[k]]
    ensures ([romaji[0]] + Reindex(romaji[1..], p))[k + 1] == romaji[p[k] + 1]
  {
  }

  /** A score depends on its own candidate and romanization only: reindexing the candidates
      together with their romanizations reindexes the scores the same way. */
  lemma ScoresAreReindexed(reference: string, cands: seq<string>, romaji: seq<string>, jw: (string, string) -> real, p: seq<nat>)
    requires |romaji| == |cands| + 1
    requires forall i :: 0 <= i < |cands| ==> MaxLength(reference, cands[i]) > 0
    requires forall a, b :: 0.0 <= jw(a, b) <= 1.0
    requires forall k :: 0 <= k < |p| ==> p[k] < |cands|
    ensures ScoreAll(reference, Reindex(cands, p), [romaji[0]] + Reindex(romaji[1..], p), jw)
         == Reindex(ScoreAll(reference, cands, romaji, jw), p)
  {
    var cs := Reindex(cands, p);
    var rs := [romaji[0]] + Reindex(romaji[1..], p);
    var all := ScoreAll(reference, cands, romaji, jw);
    var lhs := ScoreAll(reference, cs, rs, jw);
    var rhs := Reindex(all, p);
    forall k | 0 <= k < |p| ensures lhs[k] == rhs[k] {
      ReindexedEntry(reference, cands, romaji, jw, p, k);
    }
    assert lhs == rhs;
  }

  /** Validated texts are never both empty. */
  lemma LengthsArePositive(word: Value, candidates: Value)
    requires ShapesAccepted(word, candidates) && TextsAreStrings(word, candidates)
    requires LengthsDefined(word, candidates)
    ensures forall i :: 0 <= i < |candidates.items| ==>
      MaxLength(ToWord(word).text, ToWord(candidates.items[i]).text) > 0
  {
    forall i | 0 <= i < |candidates.items|
      ensures MaxLength(ToWord(word).text, ToWord(candidates.items[i]).text) > 0
    {
      var c := candidates.items[i];
      if word == Str("") {
        assert c in candidates.items;
        assert ToWord(c).text != "";
      } else {
        assert ToWord(word).text != "";
      }
    }
  }

  /** The unsorted scores of a validated call, given the romanized batch. */
  function ScoresOf(word: Value, candidates: Value, romaji: seq<string>, jw: (string, string) -> real): (r: seq<Scored>)
    requires ShapesAccepted(word, candidates) && TextsAreStrings(word, candidates)
    requires LengthsDefined(word, candidates)
    requires |romaji| == |candidates.items| + 1
    requires forall a, b :: 0.0 <= jw(a, b) <= 1.0
    ensures |r| == |candidates.items|
    ensures forall i :: 0 <= i < |r| ==> r[i].word == ToWord(candidates.items[i]).text && 0.0 <= r[i].score <= 1.0
  {
    LengthsArePositive(word, candidates);
    var ws := Batch(word, candidates);
    ScoreAll(ws[0].text, Texts(ws[1..]), romaji, jw)
  }

  /** The batch of the reindexed candidates is the batch reindexed by `Shifted(p)`, which
      keeps the reference in front. */
  function Shifted(p: seq<nat>): (q: seq<nat>)
    ensures |q| == |p| + 1 && q[0] == 0 && forall k :: 0 <= k < |p| ==> q[k + 1] == p[k] + 1
  {
    [0] + seq(|p|, k requires 0 <= k < |p| => p[k] + 1)
  }

  lemma BatchReindex(word: Value, items: seq<Value>, p: seq<nat>)
    requires ShapesAccepted(word, Arr(items)) && TextsAreStrings(word, Arr(items))
    requires forall k :: 0 <= k < |p| ==> p[k] < |items|
    ensures ShapesAccepted(word, Arr(Reindex(items, p))) && TextsAreStrings(word, Arr(Reindex(items, p)))
    ensures Batch(word, Arr(Reindex(items, p))) == Reindex(Batch(word, Arr(items)), Shifted(p))
  {
    var ws := Batch(word, Arr(items));
    var ws' := Batch(word, Arr(Reindex(items, p)));
    var q := Shifted(p);
    forall k | 0 <= k < |ws'| ensures ws'[k] == Reindex(ws, q)[k] {
      if k > 0 {
        assert ws'[k] == ToWord(Reindex(items, p)[k - 1]);
      }
    }
  }

  /** Reindexed candidates still pass validation and the model's assumptions. */
  lemma ReindexedInputs(word: Value, items: seq<Value>, p: seq<nat>)
    requires ShapesAccepted(word, Arr(items)) && TextsAreStrings(word, Arr(items)) && LengthsDefined(word, Arr(items))
    requires forall k :: 0 <= k < |p| ==> p[k] < |items|
    ensures ShapesAccepted(word, Arr(Reindex(items, p))) && TextsAreStrings(word, Arr(Reindex(items, p)))
    ensures LengthsDefined(word, Arr(Reindex(items, p)))
  {
    var items' := Reindex(items, p);
    assert forall k :: 0 <= k < |items'| ==> items'[k] in items;
  }

  /** The worker romanizes the reindexed batch into the reindexed romanizations. */
  lemma ReindexedRomanization(word: Value, items: seq<Value>, p: seq<nat>, build: Result<Tokenizer, string>, an: Analyzer)
    requires ShapesAccepted(word, Arr(items)) && TextsAreStrings(word, Arr(items))
    requires forall k :: 0 <= k < |p| ==> p[k] < |items|
    requires Romanization(Batch(word, Arr(items)), build, an).Ok?
    ensures ShapesAccepted(word, Arr(Reindex(items, p))) && TextsAreStrings(word, Arr(Reindex(items, p)))
    ensures var romaji := Romanization(Batch(word, Arr(items)), build, an).value;
      Romanization(Batch(word, Arr(Reindex(items, p))), build, an) == Ok([romaji[0]] + Reindex(romaji[1..], p))
  {
    BatchReindex(word, items, p);
    var ws := Batch(word, Arr(items));
    var ws' := Batch(word, Arr(Reindex(items, p)));
    var q := Shifted(p);
    var tok := build.value;
    var rs := ConvertAll(tok, an, ws).value;
    assert Romanization(ws, build, an).value == rs;
    ConvertAllReindex(tok, an, ws, q);
    assert Reindex(rs, q) == [rs[0]] + Reindex(rs[1..], p);
  }

  /** Scoring the reindexed candidates with the reindexed romanizations reindexes the
      scores. */
  lemma ReindexedScores(word: Value, items: seq<Value>, p: seq<nat>, romaji: seq<string>, jw: (string, string) -> real)
    requires ShapesAccepted(word, Arr(items)) && TextsAreStrings(word, Arr(items)) && LengthsDefined(word, Arr(items))
    requires forall k :: 0 <= k < |p| ==> p[k] < |items|
    requires |romaji| == |items| + 1
    requires forall a, b :: 0.0 <= jw(a, b) <= 1.0
    ensures ShapesAccepted(word, Arr(Reindex(items, p))) && TextsAreStrings(word, Arr(Reindex(items, p)))
    ensures LengthsDefined(word, Arr(Reindex(items, p)))
    ensures ScoresOf(word, Arr(Reindex(items, p)), [romaji[0]] + Reindex(romaji[1..], p), jw)
         == Reindex(ScoresOf(word, Arr(items), romaji, jw), p)
  {
    ReindexedInputs(word, items, p);
    BatchReindex(word, items, p);
    var ws := Batch(word, Arr(items));
    var ws' := Batch(word, Arr(Reindex(items, p)));
    LengthsArePositive(word, Arr(items));
    var cands := Texts(ws[1..]);
    assert Texts(ws'[1..]) == Reindex(cands, p) by {
      forall k | 0 <= k < |p| ensures Texts(ws'[1..])[k] == Reindex(cands, p)[k] {
        assert ws'[k + 1] == ws[p[k] + 1];
      }
    }
    ScoresAreReindexed(ws[0].text, cands, romaji, jw, p);
  }

  /** The order of the candidates does not matter beyond itself: permuting (or otherwise
      reindexing) them reindexes the romanized candidates and their scores the same way,
      the reference and its romanization staying in front. */
  lemma CandidateOrder(word: Value, items: seq<Value>, p: seq<nat>, build: Result<Tokenizer, string>,
                       an: Analyzer, jw: (string, string) -> real)
    requires ShapesAccepted(word, Arr(items)) && TextsAreStrings(word, Arr(items)) && LengthsDefined(word, Arr(items))
    requires forall k :: 0 <= k < |p| ==> p[k] < |items|
    requires forall a, b :: 0.0 <= jw(a, b) <= 1.0
    requires Romanization(Batch(word, Arr(items)), build, an).Ok?
    ensures ShapesAccepted(word, Arr(Reindex(items, p))) && TextsAreStrings(word, Arr(Reindex(items, p)))
    ensures LengthsDefined(word, Arr(Reindex(items, p)))
    ensures var romaji := Romanization(Batch(word, Arr(items)), build, an).value;
      && Romanization(Batch(word, Arr(Reindex(items, p))), build, an) == Ok([romaji[0]] + Reindex(romaji[1..], p))
      && ScoresOf(word, Arr(Reindex(items, p)), [romaji[0]] + Reindex(romaji[1..], p), jw)
         == Reindex(ScoresOf(word, Arr(items), romaji, jw), p)
  {
    ReindexedRomanization(word, items, p, build, an);
    ReindexedScores(word, items, p, Romanization(Batch(word, Arr(items)), build, an).value, jw);
  }

  /** No candidates: no scores, and both result forms are empty. */
  lemma EmptyCandidates(word: Value, romaji: seq<string>, jw: (string, string) -> real, entries: seq<Scored>)
    requires ShapesAccepted(word, Arr([])) && TextsAreStrings(word, Arr([]))
    requires |romaji| == 1
    requires forall a, b :: 0.0 <= jw(a, b) <= 1.0
    requires StablySorted(entries, ScoresOf(word, Arr([]), romaji, jw))
    ensures ScoresOf(word, Arr([]), romaji, jw) == []
    ensures BestWords(ScoresOf(word, Arr([]), romaji, jw)) == []
    ensures entries == []
  {
    assert |multiset(entries)| == 0;
  }

  /** The two result forms: the words tied at the top, or all `{ word, score }` entries. */
  datatype Answer = Best(words: seq<string>) | Ranked(entries: seq<Scored>)

  /** Lines 147-157: sort the entries in place, then return them all or only the words
      tied at the top score. */
  method Assemble(scores: seq<Scored>, raw: bool) returns (answer: Answer)
    ensures raw ==> answer.Ranked? && StablySorted(answer.entries, scores)
    ensures !raw ==> answer == Best(BestWords(scores))
  {
    var a := new Scored[|scores|](i requires 0 <= i < |scores| => scores[i]);
    assert a[..] == scores;
    SortByScore(a);
    if !raw {
      TopWordsAreBest(a[..], scores);
      answer := Best(TopWords(a[..]));
    } else {
      answer := Ranked(a[..]);
    }
  }

  /** `closeWords(word, candidates, raw)`. `build` is what the worker's tokenizer builder
      delivers, `an` the tokenizer and romanizer, `jw` the Jaro-Winkler similarity. */
  method CloseWords(word: Value, candidates: Value, raw: Value, build: Result<Tokenizer, string>,
                    an: Analyzer, jw: (string, string) -> real)
    returns (r: Result<Answer, Failure>)
    requires Validate(word, candidates, raw).Ok? ==> TextsAreStrings(word, candidates) && LengthsDefined(word, candidates)
    requires forall a, b :: 0.0 <= jw(a, b) <= 1.0
    ensures Validate(word, candidates, raw).Err? ==> r == Err(Validate(word, candidates, raw).error)
    ensures Validate(word, candidates, raw).Ok? && Romanization(Batch(word, candidates), build, an).Err? ==>
      r == Err(Romanization(Batch(word, candidates), build, an).error)
    ensures Validate(word, candidates, raw) == Ok(true) && Romanization(Batch(word, candidates), build, an).Ok? ==>
      && r.Ok? && r.value.Ranked?
      && StablySorted(r.value.entries, ScoresOf(word, candidates, Romanization(Batch(word, candidates), build, an).value, jw))
    ensures Validate(word, candidates, raw) == Ok(false) && Romanization(Batch(word, candidates), build, an).Ok? ==>
      r == Ok(Best(BestWords(ScoresOf(word, candidates, Romanization(Batch(word, candidates), build, an).value, jw))))
  {
    var v := Validate(word, candidates, raw);
    if v.Err? {
      return Err(v.error);
    }
    var words := Batch(word, candidates);
    var worker := new WorkerContext();
    var posted := worker.Run(words, build, an);
    var received := Receive(posted);
    if received.Err? {
      return Err(received.error);
    }
    var romaji := received.value;
    assert received == Romanization(words, build, an);
    var answer := Assemble(ScoresOf(word, candidates, romaji, jw), v.value);
    r := Ok(answer);
  }
}
