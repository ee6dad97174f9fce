/** The job store behind the HTTP API: `results_db`, the record of every
    submitted job, and `processing_status`, each job's status, moved by
    submission (transcribing), the start of scoring (processing) and its
    completion (completed), and read by the results endpoint.

    The four scorers run one after another here; the background task
    runner and the thread pool that run them concurrently are not part of
    the model. */
module Api {
  import opened Common
  import Fluency
  import Grammar
  import Vocabulary
  import Relevancy

  datatype Status = Transcribing | Processing | Completed

  /** The string stored in `processing_status`. */
  function Label(s: Status): (l: string)
    ensures l != "unknown"
    ensures l == "completed" <==> s == Completed
  {
    match s
    case Transcribing => assert "transcribing"[0] != "completed"[0]; "transcribing"
    case Processing => assert "processing"[0] != "completed"[0]; "processing"
    case Completed => "completed"
  }

  /** Submission stores the transcript's text; the start of scoring
      replaces it with the whole transcriber output. */
  datatype Transcription = Text(text: string) | Output(output: Transcript)

  /** One entry of `results_db`.  A score is `None` while its key is
      absent from the record's dictionary. */
  datatype Record = Record(status: Status, transcription: Transcription, topic: string,
                           fluency: Option<real>, vocabulary: Option<real>,
                           grammar: Option<real>, relevancy: Option<real>)

  /** Both dictionaries at one moment. */
  datatype Store = Store(results: map<string, Record>, status: map<string, Status>)

  /** What the results endpoint answers: not found (HTTP 404), the four
      scores of a completed job (200), or the status and transcription of
      any other job (202). */
  datatype View =
    | NotFound
    | Scores(fluency: Option<real>, vocabulary: Option<real>,
             grammar: Option<real>, relevancy: Option<real>)
    | InProgress(status: string, transcription: Transcription)

  /** The two dictionaries describe the same jobs with the same status, and
      a completed job holds all four scores. */
  ghost predicate Consistent(s: Store) {
    s.results.Keys == s.status.Keys &&
    (forall id :: id in s.results ==> s.results[id].status == s.status[id]) &&
    (forall id :: id in s.results && s.results[id].status == Completed ==>
       s.results[id].fluency.Some? && s.results[id].vocabulary.Some? &&
       s.results[id].grammar.Some? && s.results[id].relevancy.Some?)
  }

  predicate InRange(o: Option<real>) {
    o.None? || LowerBound <= o.value <= UpperBound
  }

  /** Every stored score lies in [0, 10]. */
  ghost predicate Bounded(s: Store) {
    forall id :: id in s.results ==>
      InRange(s.results[id].fluency) && InRange(s.results[id].vocabulary) &&
      InRange(s.results[id].grammar) && InRange(s.results[id].relevancy)
  }

  /** `s'` agrees with `s` on every job other than `id`, in both
      dictionaries. */
  ghost predicate SameOutside(s: Store, s': Store, id: string) {
    (forall k :: k != id ==> (k in s'.results <==> k in s.results)) &&
    (forall k :: k != id && k in s.results ==> s'.results[k] == s.results[k]) &&
    (forall k :: k != id ==> (k in s'.status <==> k in s.status)) &&
    (forall k :: k != id && k in s.status ==> s'.status[k] == s.status[k])
  }

  /** `processing_status.get(id, "unknown")`: the recorded status's label,
      or "unknown" for a job with no status. */
  function StatusLabel(s: Store, id: string): (l: string)
    ensures id in s.status ==> l == Label(s.status[id]) && l != "unknown"
    ensures id !in s.status ==> l == "unknown"
  {
    if id in s.status then Label(s.status[id]) else "unknown"
  }

  /** `get_results`: an unknown id is not found; a job whose status reads
      "completed" shows its scores; any other shows its status label and
      its transcription. */
  function ViewOf(s: Store, id: string): (v: View)
    ensures v.NotFound? <==> id !in s.results
    ensures v.Scores? <==> id in s.results && id in s.status && s.status[id] == Completed
    ensures v.Scores? ==> v == Scores(s.results[id].fluency, s.results[id].vocabulary,
                                      s.results[id].grammar, s.results[id].relevancy)
    ensures v.InProgress? ==> v.status == StatusLabel(s, id) && v.status != "completed"
    ensures v.InProgress? ==> v.transcription == s.results[id].transcription
  {
    if id !in s.results then NotFound
    else
      var statusLabel := StatusLabel(s, id);
      if statusLabel == "completed" then
        var r := s.results[id];
        Scores(r.fluency, r.vocabulary, r.grammar, r.relevancy)
      else
        InProgress(statusLabel, s.results[id].transcription)
  }

  /** `process_input`, lines 94-95: the job is recorded as transcribing,
      with the transcript's text and the topic. */
  function AfterSubmit(s: Store, id: string, output: Transcript, topic: string): (s': Store)
    ensures id in s'.results && s'.results[id].topic == topic
    ensures ViewOf(s', id) == InProgress("transcribing", Text(output.text))
    ensures SameOutside(s, s', id)
    ensures Consistent(s) ==> Consistent(s')
    ensures Bounded(s) ==> Bounded(s')
  {
    Store(s.results[id := Record(Transcribing, Text(output.text), topic, None, None, None, None)],
          s.status[id := Transcribing])
  }

  /** The start of `run_scoring_in_background`: both dictionaries say
      processing, and the record is replaced by one holding the whole
      transcriber output and no scores. */
  function AfterStart(s: Store, id: string, output: Transcript, topic: string): (s': Store)
    ensures id in s'.results && s'.results[id].topic == topic
    ensures ViewOf(s', id) == InProgress("processing", Output(output))
    ensures s'.results[id].fluency.None? && s'.results[id].vocabulary.None?
    ensures s'.results[id].grammar.None? && s'.results[id].relevancy.None?
    ensures SameOutside(s, s', id)
    ensures Consistent(s) ==> Consistent(s')
    ensures Bounded(s) ==> Bounded(s')
  {
    Store(s.results[id := Record(Processing, Output(output), topic, None, None, None, None)],
          s.status[id := Processing])
  }

  /** The end of `run_scoring_in_background`: the four scores, rounded to
      two decimals, then the completed status in both dictionaries.  The
      record's transcription and topic are kept. */
  function AfterComplete(s: Store, id: string, fluency: real, vocabulary: real,
                         grammar: real, relevancy: real): (s': Store)
    requires id in s.results
    ensures id in s'.results
    ensures s'.results[id].transcription == s.results[id].transcription
    ensures s'.results[id].topic == s.results[id].topic
    ensures ViewOf(s', id) == Scores(Some(Round2(fluency)), Some(Round2(vocabulary)),
                                     Some(Round2(grammar)), Some(Round2(relevancy)))
    ensures SameOutside(s, s', id)
    ensures Consistent(s) ==> Consistent(s')
    ensures (Bounded(s) && LowerBound <= fluency <= UpperBound &&
             LowerBound <= vocabulary <= UpperBound && LowerBound <= grammar <= UpperBound &&
             LowerBound <= relevancy <= UpperBound) ==> Bounded(s')
  {
    RoundedScoreInRange(fluency);
    RoundedScoreInRange(vocabulary);
    RoundedScoreInRange(grammar);
    RoundedScoreInRange(relevancy);
    var r := s.results[id];
    Store(s.results[id := r.(status := Completed,
                             fluency := Some(Round2(fluency)), vocabulary := Some(Round2(vocabulary)),
                             grammar := Some(Round2(grammar)), relevancy := Some(Round2(relevancy)))],
          s.status[id := Completed])
  }

  lemma RoundedScoreInRange(x: real)
    ensures LowerBound <= x <= UpperBound ==> InRange(Some(Round2(x)))
  {
    if LowerBound <= x <= UpperBound {
      Round2Bounded(x);
    }
  }

  // ---------------------------------------------------------------------
  // Properties of the job life cycle

  /** A job the store knows always has a status: the "unknown" fallback is
      never shown. */
  lemma StatusNeverUnknown(s: Store, id: string)
    requires Consistent(s) && id in s.results
    ensures ViewOf(s, id).InProgress? ==> ViewOf(s, id).status in {"transcribing", "processing"}
    ensures StatusLabel(s, id) != "unknown"
  {
    assert id in s.status;
  }

  /** A completed job shows all four scores. */
  lemma CompletedShowsScores(s: Store, id: string)
    requires Consistent(s) && id in s.results && s.status[id] == Completed
    ensures ViewOf(s, id).Scores?
    ensures ViewOf(s, id).fluency.Some? && ViewOf(s, id).vocabulary.Some?
    ensures ViewOf(s, id).grammar.Some? && ViewOf(s, id).relevancy.Some?
  {
  }

  /** Work on one job never changes what another job's poll shows. */
  lemma OtherJobsUnaffected(s: Store, s': Store, id: string, other: string)
    requires SameOutside(s, s', id) && other != id
    ensures ViewOf(s', other) == ViewOf(s, other)
  {
    assert other in s'.results <==> other in s.results;
    assert other in s'.status <==> other in s.status;
    if other in s.results {
      assert s'.results[other] == s.results[other];
    }
    assert StatusLabel(s', other) == StatusLabel(s, other);
  }

  /** Polled between submission and completion, a job shows "processing"
      and the whole transcriber output, and no scores. */
  lemma PollWhileScoring(s: Store, id: string, output: Transcript, topic: string)
    ensures ViewOf(AfterStart(AfterSubmit(s, id, output, topic), id, output, topic), id) ==
            InProgress("processing", Output(output))
  {
  }

  /** After the whole cycle, from any consistent store the job shows four
      scores, each the two-decimal rounding of a score in [0, 10]. */
  lemma FullCycle(s: Store, id: string, output: Transcript, topic: string,
                  fluency: real, vocabulary: real, grammar: real, relevancy: real)
    requires Consistent(s) && Bounded(s)
    requires LowerBound <= fluency <= UpperBound && LowerBound <= vocabulary <= UpperBound
    requires LowerBound <= grammar <= UpperBound && LowerBound <= relevancy <= UpperBound
    ensures var s' := AfterComplete(AfterStart(AfterSubmit(s, id, output, topic), id, output, topic),
                                    id, fluency, vocabulary, grammar, relevancy);
            Consistent(s') && Bounded(s') &&
            ViewOf(s', id) == Scores(Some(Round2(fluency)), Some(Round2(vocabulary)),
                                     Some(Round2(grammar)), Some(Round2(relevancy))) &&
            s'.results[id].transcription == Output(output)
  {
    var s1 := AfterSubmit(s, id, output, topic);
    var s2 := AfterStart(s1, id, output, topic);
    assert Consistent(s2) && Bounded(s2);
  }

  /** The five single-key writes of the completion step leave the same
      dictionary as the one write of `AfterComplete`. */
  lemma CompletedRecord(db: map<string, Record>, id: string, fluency: real, vocabulary: real,
                        grammar: real, relevancy: real, db': map<string, Record>)
    requires id in db
    requires db' == db[id := db[id].(fluency := Some(Round2(fluency)))]
                      [id := db[id].(fluency := Some(Round2(fluency)),
                                     vocabulary := Some(Round2(vocabulary)))]
                      [id := db[id].(fluency := Some(Round2(fluency)),
                                     vocabulary := Some(Round2(vocabulary)),
                                     grammar := Some(Round2(grammar)))]
                      [id := db[id].(fluency := Some(Round2(fluency)),
                                     vocabulary := Some(Round2(vocabulary)),
                                     grammar := Some(Round2(grammar)),
                                     relevancy := Some(Round2(relevancy)))]
                      [id := db[id].(fluency := Some(Round2(fluency)),
                                     vocabulary := Some(Round2(vocabulary)),
                                     grammar := Some(Round2(grammar)),
                                     relevancy := Some(Round2(relevancy)),
                                     status := Completed)]
    ensures db' == AfterComplete(Store(db, map[]), id, fluency, vocabulary, grammar, relevancy).results
  {
  }

  /** The library code the four scorers call. */
  datatype Services = Services(
    tokenize: string -> seq<string>,
    stopWords: set<string>,
    lemmatize: string -> string,
    mtld: seq<string> -> Option<real>,
    hdd: (seq<string>, int) -> Option<real>,
    flesch: string -> real,
    fog: string -> real,
    checker: Option<string -> seq<string>>,
    cosine: (string, string) -> real)

  /** The two dictionaries as module-level state. */
  class JobStore {
    var resultsDb: map<string, Record>
    var processingStatus: map<string, Status>

    function Snapshot(): Store
      reads this
    {
      Store(resultsDb, processingStatus)
    }

    ghost predicate Valid()
      reads this
    {
      Consistent(Snapshot()) && Bounded(Snapshot())
    }

    constructor ()
      ensures resultsDb == map[] && processingStatus == map[]
      ensures Valid()
    {
      resultsDb := map[];
      processingStatus := map[];
    }

    /** `process_input` after the transcription: records the new job. */
    method Submit(id: string, output: Transcript, topic: string)
      modifies this
      ensures Snapshot() == AfterSubmit(old(Snapshot()), id, output, topic)
      ensures old(Valid()) ==> Valid()
    {
      resultsDb := resultsDb[id := Record(Transcribing, Text(output.text), topic,
                                          None, None, None, None)];
      processingStatus := processingStatus[id := Transcribing];
    }

    /** `run_scoring_in_background`, lines 37-38. */
    method StartScoring(id: string, output: Transcript, topic: string)
      modifies this
      ensures Snapshot() == AfterStart(old(Snapshot()), id, output, topic)
      ensures old(Valid()) ==> Valid()
    {
      processingStatus := processingStatus[id := Processing];
      resultsDb := resultsDb[id := Record(Processing, Output(output), topic,
                                          None, None, None, None)];
    }

    /** `run_scoring_in_background`, lines 54-59: one key at a time, the
        status last. */
    method CompleteScoring(id: string, fluency: real, vocabulary: real,
                           grammar: real, relevancy: real)
      requires id in resultsDb
      modifies this
      ensures Snapshot() == AfterComplete(old(Snapshot()), id, fluency, vocabulary,
                                          grammar, relevancy)
      ensures (old(Valid()) && LowerBound <= fluency <= UpperBound &&
               LowerBound <= vocabulary <= UpperBound && LowerBound <= grammar <= UpperBound &&
               LowerBound <= relevancy <= UpperBound) ==> Valid()
    {
      ghost var db := resultsDb;
      resultsDb := resultsDb[id := resultsDb[id].(fluency := Some(Round2(fluency)))];
      resultsDb := resultsDb[id := resultsDb[id].(vocabulary := Some(Round2(vocabulary)))];
      resultsDb := resultsDb[id := resultsDb[id].(grammar := Some(Round2(grammar)))];
      resultsDb := resultsDb[id := resultsDb[id].(relevancy := Some(Round2(relevancy)))];
      resultsDb := resultsDb[id := resultsDb[id].(status := Completed)];
      processingStatus := processingStatus[id := Completed];
      CompletedRecord(db, id, fluency, vocabulary, grammar, relevancy, resultsDb);
    }

    /** The whole of `run_scoring_in_background`, the scorers run in turn.
        The fluency scorer raises on a transcript without words; the
        gathered task then fails and the job stays processing. */
    method RunScoring(id: string, output: Transcript, topic: string, lib: Services)
      modifies this
      ensures output.words == [] ==>
                Snapshot() == AfterStart(old(Snapshot()), id, output, topic)
      ensures output.words != [] ==>
                Snapshot() == AfterComplete(AfterStart(old(Snapshot()), id, output, topic), id,
                                            Fluency.FluencyScore(output),
                                            Vocabulary.VocabularyScore(output, lib.tokenize, lib.stopWords,
                                                                       lib.lemmatize, lib.mtld, lib.hdd,
                                                                       lib.flesch, lib.fog),
                                            Grammar.GrammarScore(output.text, lib.checker, lib.tokenize),
                                            Relevancy.RelevancyScore(output, topic, lib.cosine))
      ensures old(Valid()) ==> Valid()
    {
      StartScoring(id, output, topic);
      var fluency := Fluency.CalculateFluencyScore(output);
      var vocabulary := Vocabulary.VocabularyScore(output, lib.tokenize, lib.stopWords,
                                                   lib.lemmatize, lib.mtld, lib.hdd,
                                                   lib.flesch, lib.fog);
      var grammar := Grammar.CalculateGrammarScore(output.text, lib.checker, lib.tokenize);
      var relevancy := Relevancy.RelevancyScore(output, topic, lib.cosine);
      if fluency.Some? {
        CompleteScoring(id, fluency.value, vocabulary, grammar, relevancy);
      }
    }

    /** `get_results`; reads and changes nothing. */
    method GetResults(id: string) returns (v: View)
      ensures v == ViewOf(Snapshot(), id)
      ensures v.NotFound? <==> id !in resultsDb
    {
      if id !in resultsDb {
        return NotFound;
      }
      var transcribeStatus := if id in processingStatus then Label(processingStatus[id])
                              else "unknown";
      if transcribeStatus == "completed" {
        var r := resultsDb[id];
        v := Scores(r.fluency, r.vocabulary, r.grammar, r.relevancy);
      } else {
        v := InProgress(transcribeStatus, resultsDb[id].transcription);
      }
    }

    /** Polling twice in a row gives the same answer. */
    method PollTwice(id: string) returns (first: View, second: View)
      ensures first == second
      ensures first == ViewOf(Snapshot(), id)
    {
      first := GetResults(id);
      second := GetResults(id);
    }
  }

  /** One job from submission to the first poll after scoring: with words
      in the transcript it shows four scores in [0, 10]; without, it
      shows "processing" for ever. */
  method Lifecycle(store: JobStore, id: string, output: Transcript, topic: string, lib: Services)
      returns (before: View, after: View)
    requires store.Valid()
    modifies store
    ensures store.Valid()
    ensures before == InProgress("transcribing", Text(output.text))
    ensures output.words == [] ==> after == InProgress("processing", Output(output))
    ensures output.words != [] ==>
              after == Scores(Some(Round2(Fluency.FluencyScore(output))),
                              Some(Round2(Vocabulary.VocabularyScore(output, lib.tokenize, lib.stopWords,
                                                                     lib.lemmatize, lib.mtld, lib.hdd,
                                                                     lib.flesch, lib.fog))),
                              Some(Round2(Grammar.GrammarScore(output.text, lib.checker, lib.tokenize))),
                              Some(Round2(Relevancy.RelevancyScore(output, topic, lib.cosine))))
    ensures output.words != [] ==>
              (after.Scores? &&
               InRange(after.fluency) && InRange(after.vocabulary) &&
               InRange(after.grammar) && InRange(after.relevancy))
  {
    store.Submit(id, output, topic);
    before := store.GetResults(id);
    store.RunScoring(id, output, topic, lib);
    after := store.GetResults(id);
  }
}
