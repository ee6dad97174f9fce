# Spoken-answer scoring, modelled in Dafny

This project models the scoring core of a service that scores a spoken
answer. The service transcribes an uploaded recording, then scores the
transcript on four scales from 0 to 10:

- **fluency** — pauses, speaking rate and filled pauses;
- **vocabulary** — lexical diversity and readability;
- **grammar** — the density of a grammar checker's findings;
- **relevancy** — the cosine similarity between the answer and the topic.

It keeps each job's state in two in-memory dictionaries behind an HTTP API.

The model has one module per source file:

| module | file | form |
|---|---|---|
| `Common` | `common.dfy` | shared pieces: the transcript, the `[0, 10]` clamp, two-decimal rounding, and the `str` operations the scorers use (`lower`, `strip`, `isspace`, `isalpha`, `in`) |
| `Fluency` | `fluency.dfy` | an imperative method that fills the ordered pause dictionary in a loop, builds the pause table as an array and classifies it in place; it is proved against pure specification functions |
| `Grammar` | `grammar.dfy` | pure text cleaning and rule-id classification, and a penalty loop proved against its specification function |
| `Vocabulary` | `vocabulary.dfy` | pure functions |
| `Relevancy` | `relevancy.dfy` | pure functions |
| `Api` | `api.dfy` | a `JobStore` class whose `resultsDb` and `processingStatus` map fields are updated by its methods; each method is tied to a pure transition on a `Store` value |

Library code is passed in as parameters:

- the word tokenizer, the stopword set and the lemmatizer;
- the MTLD and HD-D measures, which return `None` where the library raises;
- the Flesch and Gunning-fog formulas;
- the grammar checker, which is `None` when it failed to start and otherwise gives the rule ids of its matches;
- the embedding cosine.

Three behaviours of the code that the model keeps:

- **Filler removal is case-sensitive.** The regex at `grammar_score.py:35-37` has no ignore-case flag, so "Um" is kept (`Grammar.RemoveFillersCaseSensitive`).
- **Fluency fails on a transcript without words.** `fluency_score.py:38` indexes the first and last word without a guard, so `Fluency.CalculateFluencyScore` returns `None` for that input. `Api.JobStore.RunScoring` then leaves the job in "processing", as the failed background task does.
- **There is no failed status.** `api.py` records only "transcribing", "processing" and "completed" (`api.py:37, 59, 95`), so a job whose scoring fails stays "processing".

## Model

| member | source | states |
|---|---|---|
| `Common.Clamp` | fluency_score.py:122 | the result lies in [0, 10], is the input itself inside that range, and is the nearer bound outside it |
| `Common.ClampMonotone` | vocabulary_score.py:100 | clamping preserves order |
| `Common.Round2` | api.py:54-57 | two-decimal rounding gives a whole number of hundredths and moves the value by at most half a hundredth |
| `Common.Round2Monotone` | relevancy_score.py:35 | rounding preserves order |
| `Common.Round2Bounded` | relevancy_score.py:35 | rounding a score in [0, 10] keeps it in [0, 10] |
| `Common.Round2OfHundredths` | api.py:54-57 | a value with two decimals is left unchanged |
| `Common.Round2Idempotent` | api.py:54-57 | rounding twice equals rounding once |
| `Common.LowerChar` | vocabulary_score.py:36 | an upper-case ASCII letter becomes the lower-case letter at the same alphabet position; every other character is left as it is |
| `Common.Lower` | vocabulary_score.py:36 | `str.lower` keeps the length and lowers each character in place |
| `Common.LowerIdempotent` | relevancy_score.py:18-19 | lowering twice equals lowering once |
| `Common.TrimStart` | relevancy_score.py:18-19 | the result is a suffix of the input that does not start with whitespace, and everything dropped is whitespace |
| `Common.TrimEnd` | relevancy_score.py:18-19 | the result is a prefix of the input that does not end with whitespace, and everything dropped is whitespace |
| `Common.Strip` | grammar_score.py:39 | `str.strip` gives the slice of the input between its leading and trailing whitespace: the slice neither starts nor ends with whitespace, and everything outside it is whitespace |
| `Common.StripIdempotent` | relevancy_score.py:18-19 | stripping twice equals stripping once |
| `Common.StripLowerCommute` | relevancy_score.py:18-19 | lowering and stripping commute |
| `Common.Contains` | grammar_score.py:66-70 | the search is true exactly when the needle occurs somewhere in the text |
| `Fluency.DictOf` | fluency_score.py:41-53 | the dictionary after `n` words has at most `n` keys |
| `Fluency.DictOfWellFormed` | fluency_score.py:41-53 | the pause dictionary's keys are distinct, are exactly its domain, and are exactly the words seen so far |
| `Fluency.DictOfLastOccurrence` | fluency_score.py:53 | a repeated word holds the pause and duration of its last occurrence |
| `Fluency.DictOfFirstSeenOrder` | fluency_score.py:53-55 | keys stand in first-seen order: wherever a later key's word occurs, every earlier key has already occurred |
| `Fluency.DictOfSize` | fluency_score.py:55 | the table has exactly one row per distinct word |
| `Fluency.FrameOf` | fluency_score.py:55 | the data frame has one row per key, in key order, with that key's pause and duration |
| `Fluency.Classify` | fluency_score.py:8-24 | a pause is valid exactly when it exceeds 0.2 s; a valid pause is linguistic after a word with punctuation and a hesitation otherwise; the two never overlap and add up to the valid pause; all three columns are 0 for an invalid pause |
| `Fluency.ClassifyAll` | fluency_score.py:8-24 | every row of the table is classified, and the table keeps its length |
| `Fluency.AddPauses` | fluency_score.py:8-24 | the in-place row-by-row update leaves exactly the classified table |
| `Fluency.CountHesitation` | fluency_score.py:68 | the number of hesitation pauses is at most the number of rows |
| `Fluency.CountHesitationZero` | fluency_score.py:68 | no hesitation pause is counted exactly when no row has a positive hesitation pause |
| `Fluency.SumValidNonNegative` | fluency_score.py:65 | a column of non-negative valid pauses has a non-negative total |
| `Fluency.SumHesitationNonNegative` | fluency_score.py:71 | a column of non-negative hesitation pauses has a non-negative total |
| `Fluency.HesitationSums` | fluency_score.py:65-71 | hesitation time is non-negative and at most the valid pause time; each hesitation pause is longer than 0.2 s, so their total exceeds 0.2 s times their count; there are no more of them than rows |
| `Fluency.PerMinute` | fluency_score.py:80-84 | the guarded rate is count × 60 / time for a positive time, 0 otherwise, and never negative for a non-negative count |
| `Fluency.CountOccurrences` | fluency_score.py:90-91 | the count of non-overlapping matches is 0 exactly when the pattern does not occur, and the matches fit in the text |
| `Fluency.CountOccurrencesAttained` | fluency_score.py:90-91 | there are that many non-overlapping occurrences, listed left to right |
| `Fluency.CountOccurrencesMaximal` | fluency_score.py:90-91 | no list of non-overlapping occurrences is longer than the count |
| `Fluency.CountAll` | fluency_score.py:90-91 | the filled-pause count is 0 exactly when none of the patterns occurs |
| `Fluency.FilledPauseCount` | fluency_score.py:88-91 | the filled-pause count is 0 exactly when none of the nine patterns occurs in the text |
| `Fluency.FilledPauseInsideWord` | fluency_score.py:88-90 | matching is by plain, case-sensitive substring: "so" counts once in "also" and not at all in "So" |
| `Fluency.RatePoints` | fluency_score.py:99-104 | 30 points exactly in [110, 160] words per minute, 15 exactly in the rest of [90, 180], 5 exactly outside it |
| `Fluency.PausePoints` | fluency_score.py:108-111 | the hesitation part is never negative, is at most 20 for non-negative statistics, and is 20 without hesitation pauses |
| `Fluency.PausePointsMonotone` | fluency_score.py:111 | more frequent or longer hesitation pauses never raise the hesitation points |
| `Fluency.FilledPausePoints` | fluency_score.py:115 | the filled-pause part lies in [0, 20] and is 20 without filled pauses |
| `Fluency.ConsistencyBonus` | fluency_score.py:118-119 | the bonus is 10 exactly when the articulation rate lies strictly between 1.05 and 1.5 times the speech rate, and 0 otherwise |
| `Fluency.RawScoreBounds` | fluency_score.py:96-119 | the four-part sum lies in [5, 80] |
| `Fluency.FluencyFromMetrics` | fluency_score.py:122 | the normalised score lies in [0.5, 8], so the clamp never applies and the score is the raw sum divided by 10 |
| `Fluency.FluencyMonotoneInHesitation` | fluency_score.py:106-122 | with the other statistics fixed, worse hesitation never raises the fluency score |
| `Fluency.Rows` | fluency_score.py:55-62 | the classified table has one row per distinct word |
| `Fluency.AverageHesitation` | fluency_score.py:75 | the average is 0 without hesitation pauses |
| `Fluency.FilledPercentage` | fluency_score.py:92 | the percentage is non-negative, and for a non-empty table it is filled × 100 / rows |
| `Fluency.AverageHesitationOfTable` | fluency_score.py:75 | the average hesitation is non-negative, and above 0.2 s whenever there is a hesitation pause |
| `Fluency.MetricsFromTable` | fluency_score.py:65-92 | all rates and the filled percentage are non-negative; a non-positive time span gives a speech rate and hesitation rate of 0; the hesitation count is at most the number of rows; the average is 0 without hesitation pauses; the percentage is 0 when no filled pause occurs |
| `Fluency.TimeAccountedTelescopes` | fluency_score.py:38-53 | the durations of the words and the gaps after them add up to the time from the first start to the start of the next word, and over all words to the last end |
| `Fluency.FullTimeScale` | fluency_score.py:38 | `full_time_scale` is the total of the word durations and the gaps between the words |
| `Fluency.MetricsOfSane` | fluency_score.py:65-92 | for any transcript with words, both rates, the hesitation rate, the average hesitation and the filled percentage are non-negative |
| `Fluency.FluencyScore` | fluency_score.py:27-123 | the fluency score of a transcript with words lies in [0.5, 8] |
| `Fluency.SpeechRateCountsDistinctWords` | fluency_score.py:80 | the speech rate counts distinct words over the span from the first start to the last end |
| `Fluency.AverageHesitationAboveThreshold` | fluency_score.py:75 | when a transcript has a hesitation pause, the average hesitation is above 0.2 s |
| `Fluency.RepeatedWordCollapses` | fluency_score.py:44-55 | a word said twice gives one row, holding the second occurrence's pause and duration |
| `Fluency.BuildPauseTaken` | fluency_score.py:41-53 | the loop leaves exactly the specification dictionary of all the words, with distinct keys that are exactly its domain |
| `Fluency.PauseTable` | fluency_score.py:55-62 | the array built from the dictionary and classified in place holds exactly the specification table, one row per distinct word |
| `Fluency.TableMetrics` | fluency_score.py:65-92 | the guarded step-by-step statistics equal the specification metrics of the table; on a classified table they are all non-negative, and the average hesitation exceeds 0.2 s whenever there is a hesitation pause |
| `Fluency.AccumulatePoints` | fluency_score.py:96-119 | the four `+=` steps give exactly the specification sum, which lies in [5, 80] |
| `Fluency.CalculateFluencyScore` | fluency_score.py:27-123 | no words gives `None` (the source fails); otherwise the loop-built table and the step-by-step sum give exactly the specification score, which lies in [0.5, 8] |
| `Grammar.FillerMatchAt` | grammar_score.py:35 | a match never runs past the end of the text and, when no alternative is empty, is never empty |
| `Grammar.FillerMatchAtNone` | grammar_score.py:35 | there is no match exactly when no alternative matches as a whole word at the position |
| `Grammar.FillerMatchAtFirst` | grammar_score.py:35 | a match is the length of the first alternative, in the regex's order, that matches there |
| `Grammar.RemoveFillersFrom` | grammar_score.py:37 | removing fillers never lengthens the rest of the text |
| `Grammar.RemoveFillers` | grammar_score.py:37 | removing fillers never lengthens the text |
| `Grammar.RemoveFillersDeletes` | grammar_score.py:37 | removing fillers only deletes characters: the result is a subsequence of the text |
| `Grammar.RemoveFillersKeepsUnmatched` | grammar_score.py:37 | a stretch of text at none of whose positions a filler matches is copied through unchanged |
| `Grammar.RemoveFillersShortens` | grammar_score.py:37 | a filler that matches anywhere in the text makes the result shorter than the text |
| `Grammar.RemoveFillersIdentity` | grammar_score.py:37 | removing fillers leaves the text as it is exactly when no filler matches anywhere in it |
| `Grammar.RemoveFillersUnchanged` | grammar_score.py:37 | text in which no filler matches is left as it is |
| `Grammar.RemoveFillersDropsFiller` | grammar_score.py:35-37 | a lone "um" is removed |
| `Grammar.RemoveFillersCaseSensitive` | grammar_score.py:35-37 | "Um" is kept, since the match is case-sensitive |
| `Grammar.CollapseSpaces` | grammar_score.py:39 | the only whitespace left is the plain space, there are never two spaces in a row, the result is empty exactly when the input is, and it starts with whitespace exactly when the input does |
| `Grammar.CollapseSpacesKeepsNonSpace` | grammar_score.py:39 | every non-whitespace character is kept, in order |
| `Grammar.CollapseSpacesWords` | grammar_score.py:39 | collapsing whitespace runs keeps the words (`str.split()`) of the text |
| `Grammar.WordsStrip` | grammar_score.py:39 | stripping keeps the words of the text |
| `Grammar.CleanTextWords` | grammar_score.py:37-39 | the cleaned text has the words of the text with fillers removed |
| `Grammar.CleanTextShape` | grammar_score.py:37-39 | the cleaned text neither starts nor ends with whitespace, and its only whitespace is single spaces |
| `Grammar.MentionsAny` | grammar_score.py:66-70 | true exactly when some keyword is a substring of the rule id |
| `Grammar.Categorize` | grammar_score.py:64-71 | the first keyword group that the rule id mentions gives the category; the groups are tried as grammar, then typographical, then style; a rule id that mentions none is uncategorised |
| `Grammar.CategorizePrecedence` | grammar_score.py:66-68 | every rule id that mentions both a comma and a pronoun is a grammar error, because the grammar keywords are tested first |
| `Grammar.CategorizeCommaPronoun` | grammar_score.py:66-68 | the rule id "COMMA_PRONOUN" is a grammar error |
| `Grammar.Penalty` | grammar_score.py:46-51 | a penalty lies in 1..5; it is 5 exactly for a grammar error and 1 exactly for a typographical error |
| `Grammar.TotalPenalty` | grammar_score.py:60-74 | the penalty sum lies between one and five points per match |
| `Grammar.TotalPenaltySnoc` | grammar_score.py:74 | adding a match adds its category's penalty |
| `Grammar.DensityScore` | grammar_score.py:77-83 | the score lies in [0, 10]; it is 10 with no words or no penalty, and 0 once the penalty reaches two points per word |
| `Grammar.DensityMonotoneInPenalty` | grammar_score.py:79-81 | more penalty never raises the score |
| `Grammar.DensityMonotoneInWords` | grammar_score.py:79-81 | with a fixed penalty, more words never lower the score |
| `Grammar.GrammarScore` | grammar_score.py:25-88 | the score lies in [0, 10], and is 0 when the checker is unavailable |
| `Grammar.GrammarScoreWithChecker` | grammar_score.py:42-83 | with a checker, the score is the density of the penalties of its matches on the original text over the tokens of the cleaned text |
| `Grammar.GrammarScoreNoWords` | grammar_score.py:82-83 | with a checker and nothing left after cleaning, the score is 10 |
| `Grammar.GrammarScoreNoMatches` | grammar_score.py:57-83 | with a checker that finds nothing, the score is 10 |
| `Grammar.GrammarScoreChecksOriginal` | grammar_score.py:57 | the checker sees the original text: checkers that agree on it give the same score |
| `Grammar.SumPenalties` | grammar_score.py:60-74 | the loop's sum equals the specification penalty, between one and five points per match |
| `Grammar.PenaltyDensityScore` | grammar_score.py:77-83 | the scaling steps give exactly the density score, in [0, 10] |
| `Grammar.CalculateGrammarScore` | grammar_score.py:25-88 | the method's score equals the specification score, lies in [0, 10], and is 0 without a checker |
| `Vocabulary.AlphaWords` | vocabulary_score.py:41 | exactly the alphabetic tokens are kept, and the list never grows |
| `Vocabulary.AlphaWordsSingleton` | vocabulary_score.py:41 | a single token is kept exactly when it is alphabetic |
| `Vocabulary.AlphaWordsAppend` | vocabulary_score.py:41 | the filter distributes over concatenation, so order and repeats are kept |
| `Vocabulary.ContentLemmas` | vocabulary_score.py:50 | a word is in the corpus exactly when it is the lemma of some token that is not a stopword |
| `Vocabulary.ContentLemmasSingleton` | vocabulary_score.py:50 | a single token gives its lemma unless it is a stopword, and nothing if it is |
| `Vocabulary.ContentLemmasAppend` | vocabulary_score.py:50 | the comprehension distributes over concatenation, giving one lemma per kept token, in order |
| `Vocabulary.CorpusOrigin` | vocabulary_score.py:36-50 | every corpus word is the lemma of an alphabetic, non-stopword token of the lowered text |
| `Vocabulary.StopWordsDropped` | vocabulary_score.py:50 | a text made only of stopwords gives an empty corpus, whatever the lemmas are |
| `Vocabulary.UniqueCount` | vocabulary_score.py:62 | the number of distinct lemmas is at most the corpus length, and 0 exactly for an empty corpus |
| `Vocabulary.HddDraws` | vocabulary_score.py:62-67 | the number of draws is always below the number of distinct words: -1 for none, 0 for one, half (rounded down) from two on |
| `Vocabulary.LexicalRichness` | vocabulary_score.py:57-72 | both measures default to 0; if MTLD raises, both stay 0; if HD-D raises, MTLD keeps its value and HD-D stays 0 |
| `Vocabulary.HddFailureKeepsMtld` | vocabulary_score.py:68-72 | a failing HD-D keeps the computed MTLD value |
| `Vocabulary.Diversity` | vocabulary_score.py:85-86 | the diversity part is at most 100, and non-negative for non-negative measures |
| `Vocabulary.FogPoints` | vocabulary_score.py:93 | the fog term is never negative, is 0 from a fog index of 10 on, and is positive below it |
| `Vocabulary.Readability` | vocabulary_score.py:92-93 | the readability part lies between the capped Flesch term and 50 plus the fog term |
| `Vocabulary.Combine` | vocabulary_score.py:98-100 | the vocabulary score lies in [0, 10] |
| `Vocabulary.VocabularyScore` | vocabulary_score.py:29-102 | the vocabulary score of any transcript lies in [0, 10] |
| `Vocabulary.CombineMonotoneInMtld` | vocabulary_score.py:85-100 | a higher MTLD never lowers the score |
| `Vocabulary.CombineMonotoneInHdd` | vocabulary_score.py:86-100 | a higher HD-D never lowers the score |
| `Vocabulary.CombineMonotoneInFlesch` | vocabulary_score.py:92-100 | a higher Flesch reading ease never lowers the score |
| `Vocabulary.CombineAntitoneInFog` | vocabulary_score.py:93-100 | a higher fog index never raises the score |
| `Vocabulary.CombineTop` | vocabulary_score.py:85-100 | with every measure at or past its cap, the score is 10 |
| `Vocabulary.RichnessFailureScore` | vocabulary_score.py:68-100 | when MTLD raises, diversity contributes nothing and the score is the clamped readability divided by 20 |
| `Relevancy.Normalize` | relevancy_score.py:18-19 | the normalised text is the lowered slice of the input between its leading and trailing whitespace; it has no upper-case letter and neither starts nor ends with whitespace |
| `Relevancy.NormalizeLowersThenStrips` | relevancy_score.py:18-19 | the normal form is `text.lower().strip()` in the source's order |
| `Relevancy.ScoreFromCosine` | relevancy_score.py:32-35 | the score lies in [0, 10] for any cosine value |
| `Relevancy.RelevancyScore` | relevancy_score.py:10-37 | the relevancy score lies in [0, 10] |
| `Relevancy.NormalizeIdempotent` | relevancy_score.py:18-19 | normalising twice equals normalising once |
| `Relevancy.SameNormalFormSameScore` | relevancy_score.py:17-35 | case and surrounding whitespace never change the score |
| `Relevancy.CosineLandmarks` | relevancy_score.py:32 | cosine 1 gives 10, cosine 0 gives 5, cosine -1 gives 0 |
| `Relevancy.CosineOutOfRange` | relevancy_score.py:35 | a cosine of at least 1 gives 10, and one of at most -1 gives 0 |
| `Relevancy.ScoreMonotone` | relevancy_score.py:32-35 | a higher cosine never gives a lower score |
| `Relevancy.ScoreNearLinear` | relevancy_score.py:32-35 | inside [-1, 1] the score is 5 × (cosine + 1), up to rounding |
| `Api.Label` | api.py:37 | no status is labelled "unknown", and only the completed status is labelled "completed" |
| `Api.StatusLabel` | api.py:122 | a recorded status gives its label, which is never "unknown"; a job without a status gives "unknown" |
| `Api.ViewOf` | api.py:115-147 | an id absent from the results is not found; scores are shown exactly when the status dictionary says completed, and they are the stored ones; any other view carries the status label, which is not "completed", and the stored transcription |
| `Api.AfterSubmit` | api.py:94-95 | a submitted job shows "transcribing" with the transcript text; other jobs are unchanged; the dictionaries stay consistent and bounded |
| `Api.AfterStart` | api.py:37-38 | a job being scored shows "processing" with its transcript and holds no scores; other jobs are unchanged; the dictionaries stay consistent and bounded |
| `Api.AfterComplete` | api.py:54-59 | a completed job shows the four scores rounded to two decimals and keeps its transcription and topic; other jobs are unchanged; the dictionaries stay consistent, and stay bounded when the scores are in [0, 10] |
| `Api.StatusNeverUnknown` | api.py:122 | in consistent dictionaries a known job always has a status, so "unknown" is never shown |
| `Api.CompletedShowsScores` | api.py:124-137 | a completed job shows all four scores |
| `Api.OtherJobsUnaffected` | api.py:37-59 | work on one job never changes what a poll of another job shows |
| `Api.PollWhileScoring` | api.py:37-38 | polled between submission and completion, a job shows "processing" and its transcript, not scores |
| `Api.FullCycle` | api.py:33-59 | after submit, start and complete, the dictionaries are consistent and bounded, and the job shows the four rounded scores |
| `Api.JobStore.constructor` | api.py:21-22 | the store starts with both dictionaries empty and consistent |
| `Api.JobStore.Submit` | api.py:94-95 | the dictionaries become exactly `AfterSubmit` of the old ones, and consistency is kept |
| `Api.JobStore.StartScoring` | api.py:37-38 | the dictionaries become exactly `AfterStart` of the old ones, and consistency is kept |
| `Api.JobStore.CompleteScoring` | api.py:54-59 | the five single-key writes leave exactly `AfterComplete` of the old dictionaries, and consistency is kept for scores in [0, 10] |
| `Api.JobStore.RunScoring` | api.py:33-59 | the store ends as `AfterComplete` of the started job with the four specification scores; for a transcript without words it ends as just `AfterStart`; consistency is kept |
| `Api.JobStore.GetResults` | api.py:115-147 | the answer is `ViewOf` the current dictionaries, and it is "not found" exactly for an unknown id |
| `Api.JobStore.PollTwice` | api.py:115-147 | two polls in a row give the same answer |
| `Api.Lifecycle` | api.py:66-147 | a submitted job first shows "transcribing"; after scoring it shows exactly the four specification scores rounded to two decimals, all in [0, 10], or "processing" indefinitely for a transcript without words |

## Left out

- The transcriber, the model and NLTK asset downloads, and the web application wiring: `transcribe.py`, `download_parakeet_nltk.py` and `main.py` are not part of this model.
- Saving the upload to disk (`api.py:76-89`), the generated job id and the HTTP responses: the model takes the id and the transcriber output as inputs, and `View` records which answer is given.
- The background task, the thread pool and `asyncio.gather`: the four scorers run in turn, with no interleaving of jobs.
- Library calls are parameters. These are the tokenizer, lemmatizer, stopword list, lexical richness measures, readability formulas, grammar checker and embedding cosine. Their own behaviour is not modelled.
- The NLTK download blocks at module load (`vocabulary_score.py:11-27`, `grammar_score.py:9-21`). All that remains of them is whether the grammar checker is present.
- Floating point: scores are `real`. `Common.Round2` rounds half up, while Python's `round` on floats rounds the nearest binary value half to even.
- `Common.Lower`, `Common.IsAlpha` and `Common.IsWordChar` treat only ASCII letters as letters. `Common.IsSpace` covers Python's whitespace set.
- `Grammar.RemoveFillers` uses ASCII word characters for `\b`, where Python's `re` uses the Unicode definition.
- The fluency metrics that no score reads are not modelled: `avg_pause_duration_sec`, `avg_valid_pause_duration_sec`, `pauses_per_minute` and the linguistic-pause count (`fluency_score.py:66-67, 70, 73-74, 83`).
- The vocabulary list that keeps stopwords (`vocabulary_score.py:52`) feeds no metric and is left out. The `message` of each grammar match (`grammar_score.py:63`) is never used and is left out too.
- The pandas data frame is the array `pauseTable`, holding one row per key of the ordered dictionary.
- The JSON bodies of the results endpoint are not modelled. For a job still in progress the transcription is a plain string or the transcript the scorers read (`api.py:145`); `View` records which, not how it is serialised.
- `Grammar.DensityMonotoneInWords` requires at least one word: with none the score is 10 whatever the penalty, so there is no monotone comparison from zero words.
- Grammar.CollapseSpaces: its own contract gives the shape of the result; that every non-whitespace character is kept in order is the separate lemma `Grammar.CollapseSpacesKeepsNonSpace`.
- Grammar.FillerMatchAt: its own contract says that a match fits in the text and is not empty. When there is a match is the separate lemma `Grammar.FillerMatchAtNone`, and which alternative matches is `Grammar.FillerMatchAtFirst`.
- Fluency.DictOf: its own contract bounds the number of keys; the keys, their first-seen order and the last entry per word are the lemmas `Fluency.DictOfWellFormed`, `Fluency.DictOfFirstSeenOrder` and `Fluency.DictOfLastOccurrence`.
- Where `api.py:38` stores the transcriber's whole result list, the model stores one `Transcript`: the text and word timings the scorers read. The other fields of that list are not modelled.
