# closeword in Dafny

A model of the core of the `closeword` library, with proofs. `closeWords(word, candidates, raw)` finds the candidates closest to a reference word. Words may be Japanese (kanji or kana) or Latin-alphabet text, and each may carry a pronunciation hint.

The model has three parts.

- **The entry point** (`index.js`):
  - it validates the arguments, with the library's exact error messages and in the code's order;
  - it sends the reference and the candidates to a worker as one batch, and splits the romanized batch by position;
  - it scores each candidate from counts: positional equality, characters that occur in the other word, Levenshtein distance and the lengths;
  - it stably sorts by descending score;
  - it returns either the words tied at the top score or the whole ranked list.
- **The worker** (`src/worker.js`):
  - it converts each word to romaji: a pronunciation hint verbatim, an alphabetic string unchanged, anything else tokenized and romanized;
  - it converts the whole batch with all-or-nothing failure;
  - it builds the tokenizer lazily and caches it in a module variable.
- **The Hepburn rewrite** (`src/toHepburn.js`): nine ordered, global, case-sensitive literal replacements.

Modules, one per file:

| file | module | contents |
|---|---|---|
| `Js.dfy` | `Js` | JavaScript values as validation sees them (`typeof`, truthiness), Error objects and their string form, `Option`/`Result` |
| `Words.dfy` | `Words` | validated words (`Plain` / `Annotated`), the alphabetic test |
| `Hepburn.dfy` | `Hepburn` | `ReplaceAll`, `ToHepburn` and their lemmas |
| `EditDistance.dfy` | `EditDistance` | Levenshtein distance |
| `Scoring.dfy` | `Scoring` | the score of one candidate, over exact reals |
| `Ranking.dfy` | `Ranking` | the in-place stable sort on an `array`, the tie filter |
| `Worker.dfy` | `Worker` | per-word conversion, the batch, the `WorkerContext` class holding the tokenizer |
| `CloseWords.dfy` | `CloseWords` | validation, the batch split, scoring all candidates, result assembly, the `CloseWords` method |

Three points of the code's behaviour that a reader might not expect:

- A pronunciation hint is returned as given: `src/worker.js:31` returns `word.pronounce` untouched, and nothing in the modelled files calls `toHepburn`. `Worker.PronounceIsNotHepburn` states the difference.
- `src/worker.js:32` applies the alphabetic test to the whole word, not to its text, so an object word without a hint is always tokenized, even when its `word` is alphabetic. `Worker.TokenizedWords` states this.
- Validation errors do not throw out of the call: `index.js:62-63` runs the checks inside the executor of the returned promise, so they reject it. The model returns `Err`.

## Model

| member | source | states |
|---|---|---|
| Js.Failure.Text | src/worker.js:38 | The string form of an Error is `name: message`, or just the name when the message is empty |
| Js.TypeOf | index.js:64-69 | `typeof` is "object" exactly for null, arrays and objects, and "string" exactly for strings |
| Words.ToWord | index.js:100-105 | The word a validated value denotes keeps the value's text; an object's hint is non-empty exactly when its `pronounce` is truthy, and is then that `pronounce` string itself |
| Hepburn.ToHepburn | src/toHepburn.js:1-12 | The nine replaces chained in source order; its properties are stated by `DropsLAndX`, `UnchangedWhenNothingToRewrite`, `UpperCaseUntouched`, `NotIdempotent` and the worked examples below |
| Hepburn.ReplaceAll | src/toHepburn.js:4-11 | A literal global replace; its properties are stated by `ReplaceAllKeepsAbsent`, `ReplaceAllIdentity`, `ReplaceAllRepeat`, `ReplaceAllFront`, `ReplaceAllSkip` and `CannotFire` |
| Hepburn.StripLX | src/toHepburn.js:3 | After the first replace, no `l` and no `x` remain |
| Hepburn.ReplaceAllKeepsAbsent | src/toHepburn.js:4-11 | A character absent from both the input and the replacement text is absent from the output |
| Hepburn.DropsLAndX | src/toHepburn.js:3-11 | The output of the whole rewrite contains no `l` and no `x` |
| Hepburn.StripLXIdentity | src/toHepburn.js:3 | Removal leaves a string without `l` and `x` unchanged |
| Hepburn.ReplaceAllIdentity | src/toHepburn.js:4-11 | A global replace whose pattern does not occur leaves the string unchanged |
| Hepburn.UnchangedWhenNothingToRewrite | src/toHepburn.js:2-11 | A string containing none of l, x, ti, tu, si, zi, hu, sy, ty, zy is returned unchanged |
| Hepburn.UpperCaseUntouched | src/toHepburn.js:3-11 | Matching is case-sensitive: a string without lower-case letters is returned unchanged |
| Hepburn.ReplaceAllRepeat | src/toHepburn.js:4 | A global replace rewrites every one of k back-to-back occurrences |
| Hepburn.ReplaceAllFront | src/toHepburn.js:4-11 | An occurrence at the front is replaced and scanning resumes after it |
| Hepburn.ReplaceAllSkip | src/toHepburn.js:4-11 | A leading character that cannot start a match is kept |
| Hepburn.CannotFire | src/toHepburn.js:4-11 | A rule one of whose characters is missing from the input changes nothing |
| Hepburn.ExampleTu | src/toHepburn.js:5 | "tu" becomes "tsu" |
| Hepburn.TyuHasNoTu | src/toHepburn.js:5 | "tyu" holds the letters of "tu" but no match, so the `tu` rule leaves it alone |
| Hepburn.ExampleSya | src/toHepburn.js:9 | "sya" becomes "sha" |
| Hepburn.ExampleTyu | src/toHepburn.js:10 | "tyu" becomes "chu" |
| Hepburn.ExampleZya | src/toHepburn.js:11 | "zya" becomes "ja" |
| Hepburn.TiRuleIsGlobal | src/toHepburn.js:4 | The `ti` rule replaces both occurrences in "titi" |
| Hepburn.ChichiIsFinal | src/toHepburn.js:5-11 | No later rule fires on "chichi" |
| Hepburn.ExampleTiti | src/toHepburn.js:4-11 | "titi" becomes "chichi" |
| Hepburn.ExampleTxi | src/toHepburn.js:3-4 | Removing `x` forms a `ti` that is then rewritten: "txi" becomes "chi" |
| Hepburn.ExampleLxsi | src/toHepburn.js:3-6 | "lxsi" becomes "shi" |
| Hepburn.ExampleUpperCase | src/toHepburn.js:3-11 | "TI" and "L" are returned unchanged |
| Hepburn.ExampleSyu | src/toHepburn.js:8-9 | "syu" becomes "shu" |
| Hepburn.ExampleShu | src/toHepburn.js:8 | "shu" becomes "sfu", because the `hu` rule fires |
| Hepburn.NotIdempotent | src/toHepburn.js:8-9 | Applying the rewrite twice to "syu" gives "sfu", not "shu" |
| EditDistance.Levenshtein | index.js:110 | The edit distance never exceeds the longer length |
| EditDistance.ZeroIffEqual | index.js:110 | The distance is 0 exactly when the texts are equal |
| EditDistance.AtLeastLengthDifference | index.js:110 | The distance is at least the difference of the lengths |
| Scoring.Ratio | index.js:118-122 | A count over a positive length is non-negative; it is at most 1 when the count is at most the length; it is 1 exactly when they are equal and 0 exactly when the count is 0 |
| Scoring.PositionalMatches | index.js:116 | The positional overlap is at most both lengths |
| Scoring.CommonSubstringLength | index.js:113-117 | The `Math.min` cap never changes the overlap count |
| Scoring.SubstringRatio | index.js:118 | substringRatio is in [0, 1] |
| Scoring.KanjiMatchCount | index.js:121 | The occurrence count, duplicates included, is at most the reference length |
| Scoring.KanjiRatio | index.js:122 | kanjiRatio is in [0, 1] |
| Scoring.ExactKanjiBonus | index.js:125 | The bonus is 0.3 for identical texts and otherwise in [0, 0.4] |
| Scoring.StringScore | index.js:110 | stringScore is in [0, 1], and 1 exactly when the texts are equal |
| Scoring.LengthPenalty | index.js:128 | The penalty is in [0.7, 1]; it is 1 for equal lengths and 0.7 for an empty reference |
| Scoring.SubstringBonus | index.js:131 | The bonus is 0 unless substringRatio exceeds 0.5, and never more than 0.05 |
| Scoring.CombinedScore | index.js:134-137 | The blended score is non-negative when the similarity is in [0, 1] |
| Scoring.FinalScore | index.js:139 | The final score is in [0, 1]; it is the blended score or the cap 1 |
| Scoring.PositionalMatchesSelf | index.js:116 | A text matches itself at every position |
| Scoring.KanjiMatchCountAll | index.js:121 | Every position counts when all of the reference's characters occur in the candidate |
| Scoring.IdenticalTexts | index.js:110-139 | For identical texts every ratio and the penalty are 1, the bonuses are 0.3 and 0.05, and the score is min(0.65 + 0.7·jw, 1), which is 1 once jw ≥ 0.5 |
| Scoring.PenaltyIsDirectional | index.js:128 | The penalty divides by the reference length only: 0.75 for "abcd" against "abc", 0.7 the other way round |
| Ranking.WithScore | index.js:152 | The entries kept by the score filter all have that score, and there are no more of them than entries |
| Ranking.WithScoreCounts | index.js:152 | The score filter keeps every entry whose score is the given one, as many times as it occurs, and no other entry |
| Ranking.WithScoreMembers | index.js:152 | An entry is kept by the score filter exactly when it is in the list and has the given score |
| Ranking.WithScoreConcat | index.js:152 | Filtering a concatenation concatenates the filtered parts |
| Ranking.PairClasses | index.js:147 | Two entries with different scores lie in different tie classes, in either order |
| Ranking.SwapKeepsClasses | index.js:147 | Exchanging neighbours with different scores keeps every tie class in order |
| Ranking.SortByScore | index.js:147 | The array ends up sorted by descending score, a permutation of its old contents, each tie class in its old relative order |
| Ranking.MaxScore | index.js:150 | The maximum is at least every score and is the score of some entry |
| Ranking.Words | index.js:153 | The list of words has one word per entry, in order |
| Ranking.TopWords | index.js:150-153 | The words of the entries whose score equals the first entry's, [] for an empty list; `TopWordsAreBest` states what this is after the sort |
| Ranking.FirstIsMax | index.js:147-150 | The first entry of a descending permutation carries the maximum score |
| Ranking.TopWordsAreBest | index.js:147-153 | After the stable sort, the tie filter keeps exactly the words with the maximum score, in original order; an empty list gives [] |
| Worker.JoinReadings | src/worker.js:35 | `reading || surface_form` of each token, joined; `JoinReadingsConcat` states that it follows token order |
| Worker.Attempt | src/worker.js:30-36 | The `try` block: the hint, the alphabetic word, or the romanized readings; `PronounceIsVerbatim`, `AlphabeticIsUnchanged` and `TokenizedWords` state its three branches |
| Worker.ConvertWord | src/worker.js:29-39 | The per-word conversion with the catch block corrected; `FailureNamesTheWord` states its error case |
| Worker.ConvertWordAsWritten | src/worker.js:29-39 | The per-word conversion as written; `AsWrittenLosesTheCause` and `TargetWordOutOfScope` relate it to the corrected one |
| Worker.JoinReadingsConcat | src/worker.js:35 | Joining the readings follows token order: a split token list joins to the concatenation of its parts |
| Worker.PronounceIsVerbatim | src/worker.js:30-31 | A truthy hint is the result, whatever the tokenizer and romanizer are |
| Worker.PronounceIsNotHepburn | src/worker.js:31 | The hint "tu" is returned as "tu", although the Hepburn rewrite makes it "tsu" |
| Worker.AlphabeticIsUnchanged | src/worker.js:32 | An alphabetic plain word is returned unchanged, whatever the tokenizer is |
| Worker.TokenizedWords | src/worker.js:33-36 | Other words are converted to the romaji of their joined token readings; this includes object words whose hint is empty |
| Worker.FailureNamesTheWord | src/worker.js:37-38 | With the catch block corrected, a tokenizer failure becomes an Error that names the word and carries the cause |
| Worker.AsWrittenLosesTheCause | src/worker.js:37-38 | The catch block as written agrees with the corrected one on every word that converts, and turns every failure into the same ReferenceError |
| Worker.TargetWordOutOfScope | src/worker.js:33-38 | Concrete word whose failure, as written, gives the ReferenceError instead of the processing error |
| Worker.ConvertAll | src/worker.js:28-40 | A successful batch has one element per word, element i converted from word i; a failed batch carries the error of the first word that fails |
| Worker.AllOrNothing | src/worker.js:28-44 | The batch succeeds exactly when every word converts |
| Worker.ConvertAllReindex | src/worker.js:28-40 | Permuting the words permutes the romanized list the same way |
| Worker.InitOutcome | src/worker.js:10-19 | The cached tokenizer, the built one, or the prefixed build error; `CachedTokenizerIgnoresBuild` and `BuildFailureIsReported` state its cases |
| Worker.BatchMessage | src/worker.js:25-45 | What the worker posts; `PostedList` and `BuildFailureIsReported` state when it is a list and when an error |
| Worker.BuildFailureIsReported | src/worker.js:9-20 | A build failure posts only an error, whose message starts with "Failed to initialize tokenizer: " |
| Worker.PostedList | src/worker.js:25-45 | A list is posted exactly when the tokenizer is available and every word converts; it has one element per word, in order |
| Worker.CachedTokenizerIgnoresBuild | src/worker.js:10 | Once a tokenizer is assigned, the builder plays no part and the cached instance is used |
| Worker.WorkerContext.constructor | src/worker.js:7 | A fresh worker module has no tokenizer and has built nothing |
| Worker.WorkerContext.InitializeTokenizer | src/worker.js:9-20 | A cached tokenizer is returned with no build; otherwise one build, whose success is cached and returned and whose failure is reported with the fixed prefix |
| Worker.WorkerContext.InitializeTwice | src/worker.js:10-16 | After a successful first initialization, the second returns the same instance without building again |
| Worker.WorkerContext.Run | src/worker.js:22-46 | The posted message is the batch outcome from the starting tokenizer state; the tokenizer is cached as `initializeTokenizer` leaves it, with one build exactly when none was cached |
| CloseWords.GetWord | index.js:64-69 | Reading `.word`: a TypeError on null, undefined on a non-object; `HasWordTestMeaning` states its effect on the shape test |
| CloseWords.HasWordTest | index.js:81-85 | The shape test of one value; `HasWordTestMeaning` states what it accepts and when it throws |
| CloseWords.HasWordTestMeaning | index.js:64-69 | The shape test accepts exactly strings and objects with a truthy `word`, and throws exactly on null |
| CloseWords.Every | index.js:78-87 | `every` holds exactly when every item passes; otherwise its result is that of the first item that fails or throws |
| CloseWords.Validate | index.js:64-93 | Validation succeeds exactly when the reference and every candidate are well shaped, every truthy hint is alphabetic, and `raw` is undefined or boolean; the flag is true only for `raw === true` |
| CloseWords.ReferenceRejected | index.js:64-70 | A badly shaped reference gives the reference error, or a TypeError for null |
| CloseWords.ReferencePronounceRejected | index.js:72-76 | A non-alphabetic truthy reference hint gives its error |
| CloseWords.CandidatesNotAnArray | index.js:78-87 | A non-array `candidates` gives the candidates error |
| CloseWords.FirstBadCandidate | index.js:78-87 | The first badly shaped candidate decides the error: a TypeError for null, the candidates error otherwise |
| CloseWords.CandidatePronounceRejected | index.js:89-91 | A non-alphabetic truthy candidate hint gives its error |
| CloseWords.RawRejected | index.js:93 | A `raw` that is neither undefined nor boolean gives its error |
| CloseWords.EmptyPronounceIsNotChecked | index.js:72-91 | An empty hint is falsy and escapes the alphabetic check, which it would fail |
| CloseWords.RawFlag | index.js:93 | The `raw = false` default of line 61 for undefined only, then the boolean test; `Validate` and `RawRejected` state its outcome |
| CloseWords.Batch | index.js:95 | The batch is the reference followed by the candidates, in order |
| CloseWords.Romanization | index.js:95-98 | A received batch has one romanization per word; element i is word i's conversion |
| CloseWords.Receive | index.js:14-20 | A posted list resolves, a posted error is rethrown as `new Error(message.error)`; `BuildFailureReachesCaller` states the resulting message |
| CloseWords.BuildFailureReachesCaller | index.js:14-17 | A tokenizer build failure reaches the caller as an Error with message "Error: Failed to initialize tokenizer: …" |
| CloseWords.ScoreOne | index.js:104-145 | An entry carries the candidate's literal text and a score in [0, 1] |
| CloseWords.ScoreAll | index.js:104-145 | One entry per candidate, in order; entry i is scored from candidate i and romanizations 0 and i + 1 |
| CloseWords.ScoresAreReindexed | index.js:104-108 | Reindexing the candidates with their romanizations reindexes the scores the same way |
| CloseWords.LengthsArePositive | index.js:100-106 | Validated texts are never both empty under the model's assumption |
| CloseWords.ScoresOf | index.js:95-145 | One score per candidate, carrying its literal text, in [0, 1] |
| CloseWords.BatchReindex | index.js:95 | The batch of permuted candidates is the batch permuted, with the reference kept first |
| CloseWords.CandidateOrder | index.js:95-145 | Permuting the candidates permutes their romanizations and their scores the same way, and nothing else changes |
| CloseWords.EmptyCandidates | index.js:147-157 | No candidates: no scores, and both result forms are empty |
| CloseWords.Assemble | index.js:147-157 | With `raw`, the whole list stably sorted by descending score; without it, exactly the words with the maximum score, in original order |
| CloseWords.CloseWords | index.js:61-162 | Every input that fails validation gets its validation error, before any romanization. A worker error is returned as received. Otherwise the result is the ranked list or the top words of the candidates' scores |

## Left out

- Threads and I/O are not modelled. The worker is a `WorkerContext` object: its `Run` returns the message that `postMessage` would send. `workerData` and the dictionary path are not modelled.
- The worker's `error` and `exit` events (index.js:22-28) are not modelled. In a normal run they fire after the promise has settled and change nothing; a crashed worker is not modelled.
- The tokenizer (kuromoji) and the romanizer (wanakana) are foreign code. They are the fields of `Worker.Analyzer`, the builder's outcome is a parameter, and nothing about them is assumed.
- Worker.Analyzer: `toRomaji` is total. A romanizer that throws is not modelled.
- Jaro-Winkler similarity is foreign code. It is the parameter `jw`, assumed to lie in [0, 1].
- Levenshtein distance is the textbook recursive definition, not `fast-levenshtein` itself.
- Words.AlphabetOnly: `src/isAlphabetOnly` is not part of this model. It is taken to be a non-empty string of the letters A-Z and a-z, and false on anything that is not a string.
- Scoring.FinalScore: scores are exact reals. Floating-point rounding, NaN and Infinity are not modelled, and the tie test `===` is exact equality.
- CloseWords.CloseWords requires, only for inputs that pass validation, that an empty reference string is never compared with an empty candidate string. There the source divides 0 by 0 and scores NaN.
- CloseWords.CloseWords requires, only for inputs that pass validation, that the truthy `word` field of an object is a string. The source would pass other values on to the tokenizer and to `.length`.
- Text is treated as code units only. `.length` and `candidateWord[i]` count UTF-16 units while `[...searchWord]` counts code points; the two agree for BMP text, and non-BMP text is not modelled.
- The promise is not modelled: `resolve` and `reject` become `Ok` and `Err`. A thrown value that is not an Error is not modelled.
- Each `closeWords` call starts a new worker, and `src/worker.js:26` calls `initializeTokenizer` once per worker, so the cached return of line 10 is never taken in the shown code. `CloseWords.CloseWords` always starts a fresh `WorkerContext`; the cached path is modelled by `WorkerContext.InitializeTokenizer` and `InitializeTwice`.

## Findings

`Worker.AsWrittenLosesTheCause` relates the two conversions on every word. `Worker.ConvertAll` and everything built on it use the corrected conversion.

| source | as written | input that shows it | evidently intended | confidence | as-written member | corrected member |
|---|---|---|---|---|---|---|
| src/worker.js:33-38 | The catch block interpolates `targetWord`, a `const` declared inside the `try` block and out of scope in `catch`. Every per-word failure therefore becomes a ReferenceError "targetWord is not defined". | a plain word "京" whose tokenization throws | an Error `Error processing word "京": <cause>` naming the word and carrying the cause | high, not executed | Worker.ConvertWordAsWritten, Worker.TargetWordOutOfScope | Worker.ConvertWord, Worker.FailureNamesTheWord |
