/** The romanization worker (src/worker.js): per-word conversion to romaji, the batch
    over all words with all-or-nothing failure, and the lazily built tokenizer kept in a
    module-level variable. The tokenizer (kuromoji) and the romanizer (wanakana) are
    foreign code and appear as the function fields of an `Analyzer`. */
module Worker {
  import opened Js
  import opened Words
  import Hepburn

  /** A token: its `reading` and its `surface_form`; "" stands for a falsy or absent
      field. */
  datatype Token = Token(reading: string, surfaceForm: string)

  /** A built tokenizer instance; `id` tells instances apart. */
  datatype Tokenizer = Tokenizer(id: nat)

  /** `tokenizer.tokenize(text)`, which may throw, and `wanakana.toRomaji`. */
  datatype Analyzer = Analyzer(
    tokenize: (Tokenizer, string) -> Result<seq<Token>, Failure>,
    toRomaji: string -> string)

  /** What a worker posts: the romanized list, or `{ error }`. */
  datatype Message = Romanized(romaji: seq<string>) | Errored(error: Failure)

  /** `token.reading || token.surface_form`. */
  function Reading(t: Token): string {
    if t.reading != "" then t.reading else t.surfaceForm
  }

  /** `tokens.map(Reading).join('')`. */
  function JoinReadings(tokens: seq<Token>): string {
    if tokens == [] then "" else Reading(tokens[0]) + JoinReadings(tokens[1..])
  }

  /** Joining is a homomorphism: the readings of a split token list join to the same
      text, so the result follows token order. */
  lemma {:induction false} JoinReadingsConcat(a: seq<Token>, b: seq<Token>)
    ensures JoinReadings(a + b) == JoinReadings(a) + JoinReadings(b)
  {
    if a == [] {
      assert a + b == b;
    } else {
      assert (a + b)[1..] == a[1..] + b;
      JoinReadingsConcat(a[1..], b);
    }
  }

  /** The `try` block of lines 30-36: the value it returns or the error it throws. */
  function Attempt(tok: Tokenizer, an: Analyzer, w: Word): Result<string, Failure> {
    if w.Annotated? && w.pronounce != "" then Ok(w.pronounce)
    else if w.Plain? && AlphabetOnly(w.text) then Ok(w.text)
    else
      match an.tokenize(tok, w.text)
      case Err(e) => Err(e)
      case Ok(tokens) => Ok(an.toRomaji(JoinReadings(tokens)))
  }

  /** The error the catch block of line 38 is evidently meant to throw. */
  function ProcessingError(text: string, cause: Failure): Failure {
    Failure("Error", "Error processing word \"" + text + "\": " + cause.Text())
  }

  /** The per-word conversion with the catch block as intended. */
  function ConvertWord(tok: Tokenizer, an: Analyzer, w: Word): Result<string, Failure> {
    match Attempt(tok, an, w)
    case Ok(r) => Ok(r)
    case Err(e) => Err(ProcessingError(w.text, e))
  }

  /** The error the catch block of line 38 actually throws: `targetWord` is declared with
      `const` inside the `try` block and is out of scope in the `catch` block. */
  const UndefinedTargetWord := Failure("ReferenceError", "targetWord is not defined")

  /** The per-word conversion as written. */
  function ConvertWordAsWritten(tok: Tokenizer, an: Analyzer, w: Word): Result<string, Failure> {
    match Attempt(tok, an, w)
    case Ok(r) => Ok(r)
    case Err(_) => Err(UndefinedTargetWord)
  }

  /** A truthy pronunciation hint is the result, whatever the tokenizer and romanizer do;
      in particular it is not rewritten to Hepburn ("tu" stays "tu"). */
  lemma PronounceIsVerbatim(tok: Tokenizer, an: Analyzer, tok': Tokenizer, an': Analyzer, text: string, p: string)
    requires p != ""
    ensures ConvertWord(tok, an, Annotated(text, p)) == Ok(p)
    ensures ConvertWord(tok, an, Annotated(text, p)) == ConvertWord(tok', an', Annotated(text, p))
  {
  }

  lemma PronounceIsNotHepburn(tok: Tokenizer, an: Analyzer, text: string)
    ensures ConvertWord(tok, an, Annotated(text, "tu")) == Ok("tu")
    ensures Hepburn.ToHepburn("tu") == "tsu"
  {
    Hepburn.ExampleTu();
  }

  /** A plain alphabetic word is returned unchanged, whatever the tokenizer does. */
  lemma AlphabeticIsUnchanged(tok: Tokenizer, an: Analyzer, tok': Tokenizer, an': Analyzer, text: string)
    requires AlphabetOnly(text)
    ensures ConvertWord(tok, an, Plain(text)) == Ok(text)
    ensures ConvertWord(tok', an', Plain(text)) == Ok(text)
  {
  }

  /** The other words are tokenized (the object's `word`, or the string itself), and the
      readings joined in token order are romanized. An empty pronunciation is falsy and
      falls through: even an alphabetic `word` of an object is tokenized, since the
      alphabetic test on line 32 receives the object. */
  lemma TokenizedWords(tok: Tokenizer, an: Analyzer, w: Word, tokens: seq<Token>)
    requires w == Plain(w.text) ==> !AlphabetOnly(w.text)
    requires w.Annotated? ==> w.pronounce == ""
    requires an.tokenize(tok, w.text) == Ok(tokens)
    ensures ConvertWord(tok, an, w) == Ok(an.toRomaji(JoinReadings(tokens)))
  {
  }

  /** A tokenizer failure on a word the tokenizer must handle becomes an error that names
      the word and carries the cause. */
  lemma FailureNamesTheWord(tok: Tokenizer, an: Analyzer, w: Word, cause: Failure)
    requires w == Plain(w.text) ==> !AlphabetOnly(w.text)
    requires w.Annotated? ==> w.pronounce == ""
    requires an.tokenize(tok, w.text) == Err(cause)
    ensures ConvertWord(tok, an, w) == Err(Failure("Error", "Error processing word \"" + w.text + "\": " + cause.Text()))
  {
  }

  /** As written, the two conversions agree on every word that converts, and every
      failure becomes the same ReferenceError, which neither names the word nor carries
      the cause. */
  lemma AsWrittenLosesTheCause(tok: Tokenizer, an: Analyzer, w: Word)
    ensures ConvertWordAsWritten(tok, an, w).Ok? <==> ConvertWord(tok, an, w).Ok?
    ensures ConvertWord(tok, an, w).Ok? ==> ConvertWordAsWritten(tok, an, w) == ConvertWord(tok, an, w)
    ensures ConvertWord(tok, an, w).Err? ==> ConvertWordAsWritten(tok, an, w) == Err(UndefinedTargetWord)
  {
  }

  /** A word the tokenizer rejects: as written, the error is the ReferenceError instead
      of the processing error that names the word. */
  lemma TargetWordOutOfScope(cause: Failure)
    ensures var an := Analyzer((t: Tokenizer, s: string) => Err(cause), (s: string) => s);
      && ConvertWordAsWritten(Tokenizer(0), an, Plain("京")) == Err(UndefinedTargetWord)
      && ConvertWord(Tokenizer(0), an, Plain("京")) == Err(ProcessingError("京", cause))
      && UndefinedTargetWord != ProcessingError("京", cause)
  {
    assert !IsAsciiLetter("京"[0]);
  }

  /** `words.map(...)`: the romanized list, or the error of the first word that fails.
      Element i of the list comes from word i. */
  function ConvertAll(tok: Tokenizer, an: Analyzer, words: seq<Word>): (r: Result<seq<string>, Failure>)
    ensures r.Ok? ==> |r.value| == |words|
    ensures r.Ok? ==> forall i :: 0 <= i < |words| ==> ConvertWord(tok, an, words[i]) == Ok(r.value[i])
    ensures r.Err? ==> exists i :: 0 <= i < |words| && ConvertWord(tok, an, words[i]) == Err(r.error)
                          && forall j :: 0 <= j < i ==> ConvertWord(tok, an, words[j]).Ok?
  {
    if words == [] then Ok([])
    else
      match ConvertWord(tok, an, words[0])
      case Err(e) => Err(e)
      case Ok(first) =>
        match ConvertAll(tok, an, words[1..])
        case Err(e) =>
          assert forall i :: 1 <= i < |words| ==> words[i] == words[1..][i - 1];
          Err(e)
        case Ok(rest) =>
          assert forall i :: 1 <= i < |words| ==> words[i] == words[1..][i - 1];
          Ok([first] + rest)
  }

  /** The batch succeeds exactly when every word converts. */
  lemma AllOrNothing(tok: Tokenizer, an: Analyzer, words: seq<Word>)
    ensures ConvertAll(tok, an, words).Ok? <==> forall i :: 0 <= i < |words| ==> ConvertWord(tok, an, words[i]).Ok?
  {
    var r := ConvertAll(tok, an, words);
    if r.Err? {
      var i :| 0 <= i < |words| && ConvertWord(tok, an, words[i]) == Err(r.error);
    }
  }

  /** `s` reindexed by `p`: element k is s[p[k]]. */
  function Reindex<T>(s: seq<T>, p: seq<nat>): (r: seq<T>)
    requires forall k :: 0 <= k < |p| ==> p[k] < |s|
    ensures |r| == |p| && forall k :: 0 <= k < |p| ==> r[k] == s[p[k]]
  {
    seq(|p|, k requires 0 <= k < |p| => s[p[k]])
  }

  /** Conversion is per word: permuting (or otherwise reindexing) the words reindexes the
      romanized list the same way. */
  lemma ConvertAllReindex(tok: Tokenizer, an: Analyzer, words: seq<Word>, p: seq<nat>)
    requires forall k :: 0 <= k < |p| ==> p[k] < |words|
    requires ConvertAll(tok, an, words).Ok?
    ensures ConvertAll(tok, an, Reindex(words, p)) == Ok(Reindex(ConvertAll(tok, an, words).value, p))
  {
    var rs := ConvertAll(tok, an, words).value;
    var ws := Reindex(words, p);
    AllOrNothing(tok, an, ws);
    var r := ConvertAll(tok, an, ws);
    assert r.Ok?;
    assert r.value == Reindex(rs, p) by {
      forall k | 0 <= k < |p|
        ensures r.value[k] == rs[p[k]]
      {
        assert ConvertWord(tok, an, ws[k]) == Ok(r.value[k]);
        assert ConvertWord(tok, an, words[p[k]]) == Ok(rs[p[k]]);
      }
    }
  }

  /** The message prefix of a tokenizer build failure (line 15). */
  const InitFailurePrefix := "Failed to initialize tokenizer: "

  /** Lines 10-19: the cached tokenizer if one was assigned, else the outcome of the build,
      a build failure becoming an Error whose message starts with a fixed prefix. */
  function InitOutcome(cached: Option<Tokenizer>, build: Result<Tokenizer, string>): Result<Tokenizer, Failure> {
    if cached.Some? then Ok(cached.value)
    else
      match build
      case Ok(t) => Ok(t)
      case Err(e) => Err(Failure("Error", InitFailurePrefix + e))
  }

  /** Lines 25-45: what the worker posts, given the tokenizer it starts with. */
  function BatchMessage(cached: Option<Tokenizer>, words: seq<Word>, build: Result<Tokenizer, string>, an: Analyzer): Message {
    match InitOutcome(cached, build)
    case Err(e) => Errored(e)
    case Ok(tok) =>
      match ConvertAll(tok, an, words)
      case Err(e) => Errored(e)
      case Ok(romaji) => Romanized(romaji)
  }

  /** A build failure posts only `{ error }`, with the fixed message prefix. */
  lemma BuildFailureIsReported(words: seq<Word>, e: string, an: Analyzer)
    ensures BatchMessage(None, words, Err(e), an).Errored?
    ensures InitFailurePrefix <= BatchMessage(None, words, Err(e), an).error.message
  {
  }

  /** A list is posted exactly when the tokenizer is available and every word converts;
      it has one element per word, in order. */
  lemma PostedList(cached: Option<Tokenizer>, words: seq<Word>, build: Result<Tokenizer, string>, an: Analyzer)
    ensures BatchMessage(cached, words, build, an).Romanized? <==>
      InitOutcome(cached, build).Ok? && forall i :: 0 <= i < |words| ==> ConvertWord(InitOutcome(cached, build).value, an, words[i]).Ok?
    ensures BatchMessage(cached, words, build, an).Romanized? ==>
      var romaji := BatchMessage(cached, words, build, an).romaji;
      |romaji| == |words| && forall i :: 0 <= i < |words| ==> ConvertWord(InitOutcome(cached, build).value, an, words[i]) == Ok(romaji[i])
  {
    if InitOutcome(cached, build).Ok? {
      AllOrNothing(InitOutcome(cached, build).value, an, words);
    }
  }

  /** With a tokenizer already assigned the builder plays no part. */
  lemma CachedTokenizerIgnoresBuild(t: Tokenizer, words: seq<Word>, b: Result<Tokenizer, string>, b': Result<Tokenizer, string>, an: Analyzer)
    ensures BatchMessage(Some(t), words, b, an) == BatchMessage(Some(t), words, b', an)
    ensures InitOutcome(Some(t), b) == Ok(t)
  {
  }

  /** The worker's module state: `let tokenizer` (line 7). `builds` counts the calls of
      the builder. */
  class WorkerContext {
    var tokenizer: Option<Tokenizer>
    ghost var builds: nat

    /** A freshly loaded worker module: no tokenizer yet. */
    constructor ()
      ensures tokenizer == None && builds == 0
    {
      tokenizer := None;
      builds := 0;
    }

    /** `initializeTokenizer()`: `build` is what the builder's callback delivers. */
    method InitializeTokenizer(build: Result<Tokenizer, string>) returns (r: Result<Tokenizer, Failure>)
      modifies this
      ensures r == InitOutcome(old(tokenizer), build)
      ensures old(tokenizer).Some? ==> tokenizer == old(tokenizer) && builds == old(builds)
      ensures old(tokenizer).None? ==> builds == old(builds) + 1
      ensures old(tokenizer).None? ==> tokenizer == (if build.Ok? then Some(build.value) else None)
    {
      if tokenizer.Some? {
        return Ok(tokenizer.value);
      }
      builds := builds + 1;
      match build {
        case Err(e) =>
          r := Err(Failure("Error", InitFailurePrefix + e));
        case Ok(t) =>
          tokenizer := Some(t);
          r := Ok(t);
      }
    }

    /** Two initializations: once the first has built a tokenizer, the second returns the
        same instance and does not build again. */
    method InitializeTwice(first: Result<Tokenizer, string>, second: Result<Tokenizer, string>)
      returns (r1: Result<Tokenizer, Failure>, r2: Result<Tokenizer, Failure>)
      modifies this
      ensures old(tokenizer).None? && first.Ok? ==> r1 == Ok(first.value) && r2 == r1 && builds == old(builds) + 1
      ensures old(tokenizer).Some? ==> r1 == r2 == Ok(old(tokenizer).value) && builds == old(builds)
    {
      r1 := InitializeTokenizer(first);
      r2 := InitializeTokenizer(second);
    }

    /** The worker's main block: initialize the tokenizer, convert every word, and post
        the list or the error. */
    method Run(words: seq<Word>, build: Result<Tokenizer, string>, an: Analyzer) returns (posted: Message)
      modifies this
      ensures posted == BatchMessage(old(tokenizer), words, build, an)
      ensures old(tokenizer).Some? ==> tokenizer == old(tokenizer) && builds == old(builds)
      ensures old(tokenizer).None? ==> builds == old(builds) + 1
      ensures old(tokenizer).None? ==> tokenizer == (if build.Ok? then Some(build.value) else None)
    {
      var init := InitializeTokenizer(build);
      match init {
        case Err(e) =>
          posted := Errored(e);
        case Ok(tok) =>
          match ConvertAll(tok, an, words) {
            case Err(e) => posted := Errored(e);
            case Ok(romaji) => posted := Romanized(romaji);
          }
      }
    }
  }
}
