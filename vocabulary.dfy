/** The vocabulary scorer: lexical diversity (MTLD and HD-D over the
    lemmatised content words) and readability (Flesch reading ease and the
    Gunning fog index), averaged and scaled to [0, 10].

    The tokenizer, the stopword list, the lemmatizer, the two lexical
    richness measures and the two readability formulas are library code;
    they are parameters here.  A richness measure that raises is a `None`. */
module Vocabulary {
  import opened Common

  /** `word.isalpha()`: non-empty and made of letters only. */
  predicate IsAlphaWord(w: string) {
    |w| > 0 && forall i :: 0 <= i < |w| ==> IsAlpha(w[i])
  }

  /** The tokens kept by the punctuation filter, in order. */
  function AlphaWords(tokens: seq<string>): (r: seq<string>)
    ensures |r| <= |tokens|
    ensures forall w :: w in r <==> w in tokens && IsAlphaWord(w)
  {
    if tokens == [] then []
    else
      var rest := AlphaWords(tokens[1..]);
      assert forall w :: w in tokens <==> w == tokens[0] || w in tokens[1..];
      if IsAlphaWord(tokens[0]) then [tokens[0]] + rest else rest
  }

  /** The corpus the richness measures see: the lemma of every token that
      is not a stopword.  The stopword test is on the token, before
      lemmatising, so a lemma may itself be a stopword. */
  function ContentLemmas(tokens: seq<string>, stopWords: set<string>,
                         lemmatize: string -> string): (r: seq<string>)
    ensures |r| <= |tokens|
    ensures forall w :: w in r <==>
              exists t :: t in tokens && t !in stopWords && w == lemmatize(t)
  {
    if tokens == [] then []
    else
      var rest := ContentLemmas(tokens[1..], stopWords, lemmatize);
      assert forall t :: t in tokens <==> t == tokens[0] || t in tokens[1..];
      if tokens[0] in stopWords then rest else [lemmatize(tokens[0])] + rest
  }

  /** `len(set(lem_word))`: never more than the corpus's length, and zero
      only for an empty corpus. */
  function UniqueCount(corpus: seq<string>): (n: nat)
    ensures n <= |corpus|
    ensures n == 0 <==> corpus == []
  {
    DistinctAtMostLength(corpus);
    assert corpus != [] ==> {corpus[0]} <= (set w | w in corpus);
    assert corpus == [] ==> (set w | w in corpus) == {};
    |set w | w in corpus|
  }

  lemma {:induction false} DistinctAtMostLength(corpus: seq<string>)
    ensures |set w | w in corpus| <= |corpus|
    decreases |corpus|
  {
    if corpus != [] {
      var init := corpus[..|corpus| - 1];
      DistinctAtMostLength(init);
      assert (set w | w in corpus) == (set w | w in init) + {corpus[|corpus| - 1]};
    }
  }

  /** The `draws` argument of HD-D: half the distinct words, at least one,
      then forced below the number of distinct words. */
  function HddDraws(unique: nat): (d: int)
    ensures d < unique
    ensures unique == 0 ==> d == -1
    ensures unique == 1 ==> d == 0
    ensures unique >= 2 ==> d == unique / 2
  {
    var d := if unique / 2 > 1 then unique / 2 else 1;
    if d >= unique then unique - 1 else d
  }

  /** The mtld and hdd values after the `try` block. */
  datatype Richness = Richness(mtld: real, hdd: real)

  /** Both start at 0.0; mtld is computed first and hdd second, and an
      exception leaves whatever was already assigned. */
  function LexicalRichness(corpus: seq<string>,
                           mtld: seq<string> -> Option<real>,
                           hdd: (seq<string>, int) -> Option<real>): (r: Richness)
    ensures mtld(corpus).None? ==> r.mtld == 0.0 && r.hdd == 0.0
    ensures mtld(corpus).Some? ==> r.mtld == mtld(corpus).value
    ensures hdd(corpus, HddDraws(UniqueCount(corpus))).None? ==> r.hdd == 0.0
    ensures mtld(corpus).Some? && hdd(corpus, HddDraws(UniqueCount(corpus))).Some? ==>
              r.hdd == hdd(corpus, HddDraws(UniqueCount(corpus))).value
  {
    match mtld(corpus)
    case None => Richness(0.0, 0.0)
    case Some(m) =>
      match hdd(corpus, HddDraws(UniqueCount(corpus)))
      case None => Richness(m, 0.0)
      case Some(h) => Richness(m, h)
  }

  /** `min(mtld, 50) + min(hdd * 10, 50)`. */
  function Diversity(r: Richness): (d: real)
    ensures d <= 100.0
    ensures r.mtld >= 0.0 && r.hdd >= 0.0 ==> d >= 0.0
  {
    Min(r.mtld, 50.0) + Min(r.hdd * 10.0, 50.0)
  }

  /** `max(0, 5 * (10 - fog))`: a fog index of 10 or more earns nothing. */
  function FogPoints(fog: real): (p: real)
    ensures p >= 0.0
    ensures fog >= 10.0 ==> p == 0.0
    ensures fog < 10.0 ==> p > 0.0
  {
    Max(0.0, 5.0 * (10.0 - fog))
  }

  /** `min(flesch, 50) + max(0, 5 * (10 - fog))`. */
  function Readability(flesch: real, fog: real): (s: real)
    ensures s >= Min(flesch, 50.0)
    ensures s <= 50.0 + FogPoints(fog)
  {
    Min(flesch, 50.0) + FogPoints(fog)
  }

  /** The average of the two parts, divided by ten and clamped. */
  function Combine(r: Richness, flesch: real, fog: real): (s: real)
    ensures LowerBound <= s <= UpperBound
  {
    Clamp(((Diversity(r) + Readability(flesch, fog)) / 2.0) / UpperBound)
  }

  /** `calculate_vocabulary_score`: the lowered text is tokenized, the
      alphabetic tokens kept, the non-stopwords lemmatised; richness is
      measured on those lemmas and readability on the lowered text. */
  function VocabularyScore(t: Transcript,
                           tokenize: string -> seq<string>,
                           stopWords: set<string>,
                           lemmatize: string -> string,
                           mtld: seq<string> -> Option<real>,
                           hdd: (seq<string>, int) -> Option<real>,
                           flesch: string -> real,
                           fog: string -> real): (s: real)
    ensures LowerBound <= s <= UpperBound
  {
    var text := Lower(t.text);
    var words := AlphaWords(tokenize(text));
    var corpus := ContentLemmas(words, stopWords, lemmatize);
    Combine(LexicalRichness(corpus, mtld, hdd), flesch(text), fog(text))
  }

  // ---------------------------------------------------------------------
  // Properties

  /** The punctuation filter is a list comprehension: it keeps an
      alphabetic token and drops any other ... */
  lemma AlphaWordsSingleton(w: string)
    ensures AlphaWords([w]) == if IsAlphaWord(w) then [w] else []
  {
    assert [w][1..] == [];
  }

  /** ... and goes through the list in order, so it distributes over
      concatenation; with the singleton case this fixes the order and the
      number of times each kept token appears. */
  lemma {:induction false} AlphaWordsAppend(a: seq<string>, b: seq<string>)
    ensures AlphaWords(a + b) == AlphaWords(a) + AlphaWords(b)
    decreases |a|
  {
    if a == [] {
      assert a + b == b;
    } else {
      assert (a + b)[0] == a[0];
      assert (a + b)[1..] == a[1..] + b;
      AlphaWordsAppend(a[1..], b);
    }
  }

  /** The stopword filter keeps the lemma of a non-stopword token and
      drops a stopword ... */
  lemma ContentLemmasSingleton(w: string, stopWords: set<string>, lemmatize: string -> string)
    ensures ContentLemmas([w], stopWords, lemmatize) ==
            if w in stopWords then [] else [lemmatize(w)]
  {
    assert [w][1..] == [];
  }

  /** ... in order, one lemma for each kept token. */
  lemma {:induction false} ContentLemmasAppend(a: seq<string>, b: seq<string>,
                                               stopWords: set<string>, lemmatize: string -> string)
    ensures ContentLemmas(a + b, stopWords, lemmatize) ==
            ContentLemmas(a, stopWords, lemmatize) + ContentLemmas(b, stopWords, lemmatize)
    decreases |a|
  {
    if a == [] {
      assert a + b == b;
    } else {
      assert (a + b)[0] == a[0];
      assert (a + b)[1..] == a[1..] + b;
      ContentLemmasAppend(a[1..], b, stopWords, lemmatize);
    }
  }

  /** Every token of the corpus came from an alphabetic, non-stopword
      token of the lowered text. */
  lemma CorpusOrigin(t: Transcript, tokenize: string -> seq<string>,
                     stopWords: set<string>, lemmatize: string -> string, w: string)
    requires w in ContentLemmas(AlphaWords(tokenize(Lower(t.text))), stopWords, lemmatize)
    ensures exists u :: u in tokenize(Lower(t.text)) && IsAlphaWord(u) &&
                        u !in stopWords && w == lemmatize(u)
  {
    var words := AlphaWords(tokenize(Lower(t.text)));
    var u :| u in words && u !in stopWords && w == lemmatize(u);
    assert u in tokenize(Lower(t.text)) && IsAlphaWord(u);
  }

  /** A stopword token never reaches the corpus, whatever its lemma. */
  lemma StopWordsDropped(tokens: seq<string>, stopWords: set<string>,
                         lemmatize: string -> string)
    requires forall t :: t in tokens ==> t in stopWords
    ensures ContentLemmas(tokens, stopWords, lemmatize) == []
  {
  }

  /** When mtld succeeds and hdd raises, the computed mtld is kept. */
  lemma HddFailureKeepsMtld(corpus: seq<string>, mtld: seq<string> -> Option<real>,
                            hdd: (seq<string>, int) -> Option<real>)
    requires mtld(corpus).Some?
    requires hdd(corpus, HddDraws(UniqueCount(corpus))).None?
    ensures LexicalRichness(corpus, mtld, hdd) == Richness(mtld(corpus).value, 0.0)
  {
  }

  lemma CombineMonotoneInMtld(m: real, m': real, h: real, flesch: real, fog: real)
    requires m <= m'
    ensures Combine(Richness(m, h), flesch, fog) <= Combine(Richness(m', h), flesch, fog)
  {
    ClampMonotone(((Diversity(Richness(m, h)) + Readability(flesch, fog)) / 2.0) / UpperBound,
                  ((Diversity(Richness(m', h)) + Readability(flesch, fog)) / 2.0) / UpperBound);
  }

  lemma CombineMonotoneInHdd(m: real, h: real, h': real, flesch: real, fog: real)
    requires h <= h'
    ensures Combine(Richness(m, h), flesch, fog) <= Combine(Richness(m, h'), flesch, fog)
  {
    ClampMonotone(((Diversity(Richness(m, h)) + Readability(flesch, fog)) / 2.0) / UpperBound,
                  ((Diversity(Richness(m, h')) + Readability(flesch, fog)) / 2.0) / UpperBound);
  }

  lemma CombineMonotoneInFlesch(r: Richness, flesch: real, flesch': real, fog: real)
    requires flesch <= flesch'
    ensures Combine(r, flesch, fog) <= Combine(r, flesch', fog)
  {
    ClampMonotone(((Diversity(r) + Readability(flesch, fog)) / 2.0) / UpperBound,
                  ((Diversity(r) + Readability(flesch', fog)) / 2.0) / UpperBound);
  }

  /** A higher fog index (harder text) never raises the score. */
  lemma CombineAntitoneInFog(r: Richness, flesch: real, fog: real, fog': real)
    requires fog <= fog'
    ensures Combine(r, flesch, fog') <= Combine(r, flesch, fog)
  {
    ClampMonotone(((Diversity(r) + Readability(flesch, fog')) / 2.0) / UpperBound,
                  ((Diversity(r) + Readability(flesch, fog)) / 2.0) / UpperBound);
  }

  /** The best the readability part can give is 50 + 50 at fog 0, and the
      diversity part is at most 100, so 10 needs both parts at their cap. */
  lemma CombineTop(r: Richness, flesch: real, fog: real)
    requires r.mtld >= 50.0 && r.hdd >= 5.0 && flesch >= 50.0 && fog <= 0.0
    ensures Combine(r, flesch, fog) == UpperBound
  {
  }

  /** If every richness measure raises, diversity contributes nothing and
      the score depends on readability alone. */
  lemma RichnessFailureScore(corpus: seq<string>, mtld: seq<string> -> Option<real>,
                             hdd: (seq<string>, int) -> Option<real>, flesch: real, fog: real)
    requires mtld(corpus).None?
    ensures Diversity(LexicalRichness(corpus, mtld, hdd)) == 0.0
    ensures Combine(LexicalRichness(corpus, mtld, hdd), flesch, fog) ==
            Clamp(Readability(flesch, fog) / 20.0)
  {
    var r := LexicalRichness(corpus, mtld, hdd);
    assert r.mtld == 0.0 && r.hdd == 0.0;
    DiversityOfZero(r);
    CombineOfZeroDiversity(r, flesch, fog);
  }

  lemma DiversityOfZero(r: Richness)
    requires r.mtld == 0.0 && r.hdd == 0.0
    ensures Diversity(r) == 0.0
  {
  }

  lemma CombineOfZeroDiversity(r: Richness, flesch: real, fog: real)
    requires Diversity(r) == 0.0
    ensures Combine(r, flesch, fog) == Clamp(Readability(flesch, fog) / 20.0)
  {
  }
}
