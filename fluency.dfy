/** The fluency scorer: a pause table built from the word timestamps, pause
    classification, speaking rates, filled-pause counting and the
    four-part heuristic score. */
module Fluency {
  import opened Common

  /** A gap must be strictly longer than this many seconds to count. */
  const MinimumPauseDuration: real := 0.2

  /** A word containing one of these characters ends a phrase, so a pause
      after it is linguistic rather than a hesitation. */
  const Punctuation: string := ".?!,;:-"

  /** The literal patterns searched for in the text, in their order. */
  const FilledPauses: seq<string> := ["um", "uh", "ah", "err", "hmm", "like", "you know", "i mean", "so"]

  // ---------------------------------------------------------------------
  // The pause table

  /** A value of the `pause_taken` dictionary. */
  datatype PauseEntry = PauseEntry(pause: real, duration: real)

  /** An ordered dictionary: its keys in insertion order and its values. */
  datatype PauseDict = PauseDict(keys: seq<string>, entries: map<string, PauseEntry>)

  /** A row of the pause DataFrame, indexed by its word, with the three
      columns that the classification writes. */
  datatype PauseRow = PauseRow(
    word: string, pause: real, duration: real,
    pauseValid: real, linguisticPause: real, hesitationPause: real)

  /** The gap between word `i` and the next word; 0 after the last word. */
  function PauseAfter(words: seq<WordTiming>, i: nat): real
    requires i < |words|
  {
    if i == |words| - 1 then 0.0 else words[i + 1].start - words[i].end
  }

  function EntryAt(words: seq<WordTiming>, i: nat): PauseEntry
    requires i < |words|
  {
    PauseEntry(PauseAfter(words, i), words[i].end - words[i].start)
  }

  /** `d[key] = value`: a new key goes last, an existing key keeps its place. */
  function Put(d: PauseDict, key: string, value: PauseEntry): PauseDict {
    PauseDict(if key in d.entries then d.keys else d.keys + [key], d.entries[key := value])
  }

  /** The dictionary once the loop has stored the first `n` words. */
  function DictOf(words: seq<WordTiming>, n: nat): (d: PauseDict)
    requires n <= |words|
    ensures |d.keys| <= n
    decreases n
  {
    if n == 0 then PauseDict([], map[])
    else Put(DictOf(words, n - 1), words[n - 1].word, EntryAt(words, n - 1))
  }

  ghost predicate Distinct(s: seq<string>) {
    forall i, j :: 0 <= i < j < |s| ==> s[i] != s[j]
  }

  /** Word `w` is among the first `n` words. */
  ghost predicate OccursIn(words: seq<WordTiming>, n: nat, w: string) {
    exists i :: 0 <= i < n && i < |words| && words[i].word == w
  }

  function DistinctWords(words: seq<WordTiming>): set<string> {
    set i | 0 <= i < |words| :: words[i].word
  }

  /** The dictionary's keys are distinct, are exactly its domain, and are
      exactly the words seen so far. */
  lemma {:induction false} DictOfWellFormed(words: seq<WordTiming>, n: nat)
    requires n <= |words|
    ensures Distinct(DictOf(words, n).keys)
    ensures forall k :: k in DictOf(words, n).entries <==> k in DictOf(words, n).keys
    ensures forall k :: k in DictOf(words, n).keys <==> OccursIn(words, n, k)
    decreases n
  {
    if n > 0 {
      DictOfWellFormed(words, n - 1);
      var w := words[n - 1].word;
      forall k | OccursIn(words, n, k) ensures OccursIn(words, n - 1, k) || k == w {
        var i :| 0 <= i < n && i < |words| && words[i].word == k;
        if i < n - 1 { assert OccursIn(words, n - 1, k); }
      }
      forall k | OccursIn(words, n - 1, k) ensures OccursIn(words, n, k) {
        var i :| 0 <= i < n - 1 && i < |words| && words[i].word == k;
      }
      assert OccursIn(words, n, w);
    }
  }

  /** A repeated word takes the pause and duration of its last occurrence. */
  lemma {:induction false} DictOfLastOccurrence(words: seq<WordTiming>, n: nat, i: nat)
    requires i < n <= |words|
    requires forall j :: i < j < n ==> words[j].word != words[i].word
    ensures words[i].word in DictOf(words, n).entries
    ensures DictOf(words, n).entries[words[i].word] == EntryAt(words, i)
    decreases n
  {
    if i < n - 1 {
      DictOfLastOccurrence(words, n - 1, i);
    }
  }

  /** `keys` stand in the order the words were first seen: wherever a later
      key occurs among the first `n` words, every earlier key has already
      occurred before it. */
  ghost predicate FirstSeenOrdered(words: seq<WordTiming>, n: nat, keys: seq<string>) {
    forall a, b, i :: 0 <= a < b < |keys| && 0 <= i < n && i < |words| && words[i].word == keys[b]
                      ==> OccursIn(words, i, keys[a])
  }

  /** The dictionary's keys stand in first-seen order. */
  lemma {:induction false} DictOfFirstSeenOrder(words: seq<WordTiming>, n: nat)
    requires n <= |words|
    ensures FirstSeenOrdered(words, n, DictOf(words, n).keys)
    decreases n
  {
    if n > 0 {
      DictOfFirstSeenOrder(words, n - 1);
      DictOfWellFormed(words, n - 1);
      var d := DictOf(words, n - 1);
      var w := words[n - 1].word;
      assert DictOf(words, n) == Put(d, w, EntryAt(words, n - 1));
      if w in d.keys {
        assert w in d.entries;
        FirstSeenOldKey(words, n, d.keys);
      } else {
        assert w !in d.entries;
        FirstSeenNewKey(words, n, d.keys);
      }
    }
  }

  /** The step when word `n - 1` repeats a key: the keys do not change. */
  lemma FirstSeenOldKey(words: seq<WordTiming>, n: nat, prev: seq<string>)
    requires 0 < n <= |words| && FirstSeenOrdered(words, n - 1, prev)
    requires forall k :: k in prev <==> OccursIn(words, n - 1, k)
    requires words[n - 1].word in prev
    ensures FirstSeenOrdered(words, n, prev)
  {
    forall a, b, i | 0 <= a < b < |prev| && 0 <= i < n && words[i].word == prev[b]
      ensures OccursIn(words, i, prev[a])
    {
      if i == n - 1 {
        // the key was seen earlier, at some i' < i
        assert OccursIn(words, n - 1, prev[b]);
        var i' :| 0 <= i' < n - 1 && i' < |words| && words[i'].word == prev[b];
        assert OccursIn(words, i', prev[a]);
        var j :| 0 <= j < i' && j < |words| && words[j].word == prev[a];
        assert OccursIn(words, i, prev[a]);
      }
    }
  }

  /** The step when word `n - 1` is new: it becomes the last key. */
  lemma FirstSeenNewKey(words: seq<WordTiming>, n: nat, prev: seq<string>)
    requires 0 < n <= |words| && FirstSeenOrdered(words, n - 1, prev)
    requires forall k :: k in prev <==> OccursIn(words, n - 1, k)
    requires words[n - 1].word !in prev
    ensures FirstSeenOrdered(words, n, prev + [words[n - 1].word])
  {
    var w := words[n - 1].word;
    var keys := prev + [w];
    forall a, b, i | 0 <= a < b < |keys| && 0 <= i < n && words[i].word == keys[b]
      ensures OccursIn(words, i, keys[a])
    {
      if b == |prev| {
        // the new key is first seen at n - 1
        assert keys[a] == prev[a] && prev[a] in prev;
        assert OccursIn(words, n - 1, prev[a]);
        if i < n - 1 {
          assert false;
        }
      } else {
        assert keys[b] == prev[b] && keys[a] == prev[a];
        if i == n - 1 {
          assert false;
        }
      }
    }
  }

  lemma {:induction false} DistinctCard(s: seq<string>)
    requires Distinct(s)
    ensures |set x | x in s| == |s|
    decreases |s|
  {
    if s != [] {
      var init := s[..|s| - 1];
      assert Distinct(init);
      DistinctCard(init);
      assert (set x | x in s) == (set x | x in init) + {s[|s| - 1]};
      assert s[|s| - 1] !in (set x | x in init);
    }
  }

  /** The table has one row per distinct word. */
  lemma DictOfSize(words: seq<WordTiming>)
    ensures |DictOf(words, |words|).keys| == |DistinctWords(words)|
  {
    var keys := DictOf(words, |words|).keys;
    DictOfWellFormed(words, |words|);
    DistinctCard(keys);
    forall w | w in DistinctWords(words) ensures w in keys {
      var i :| 0 <= i < |words| && words[i].word == w;
      assert OccursIn(words, |words|, w);
    }
    assert (set x | x in keys) == DistinctWords(words);
  }

  /** `pd.DataFrame.from_dict(pause_taken, orient='index')`: one row per key,
      in key order; the classification columns are not written yet. */
  function FrameOf(d: PauseDict): (rows: seq<PauseRow>)
    requires forall k :: k in d.keys ==> k in d.entries
    ensures |rows| == |d.keys|
    ensures forall i :: 0 <= i < |rows| ==>
              (rows[i].word == d.keys[i] &&
               rows[i].pause == d.entries[d.keys[i]].pause &&
               rows[i].duration == d.entries[d.keys[i]].duration)
  {
    seq(|d.keys|, i requires 0 <= i < |d.keys| =>
      var e := d.entries[d.keys[i]];
      PauseRow(d.keys[i], e.pause, e.duration, 0.0, 0.0, 0.0))
  }

  // ---------------------------------------------------------------------
  // Pause classification

  /** `any(char in punctuation for char in word)`. */
  predicate HasPunctuation(word: string) {
    exists i :: 0 <= i < |word| && word[i] in Punctuation
  }

  /** What `add_pauses_to_df` writes into one row. A pause is valid only
      when longer than the threshold; a valid pause is exactly one of
      linguistic (after a word with punctuation) or hesitation; an invalid
      one leaves all three columns 0. */
  function Classify(r: PauseRow): (c: PauseRow)
    ensures c.word == r.word && c.pause == r.pause && c.duration == r.duration
    ensures c.pauseValid == (if r.pause > MinimumPauseDuration then r.pause else 0.0)
    ensures c.pauseValid > 0.0 <==> r.pause > MinimumPauseDuration
    ensures c.linguisticPause > 0.0 <==> c.pauseValid > 0.0 && HasPunctuation(r.word)
    ensures c.hesitationPause > 0.0 <==> c.pauseValid > 0.0 && !HasPunctuation(r.word)
    ensures c.linguisticPause >= 0.0 && c.hesitationPause >= 0.0
    ensures c.linguisticPause + c.hesitationPause == c.pauseValid
  {
    if r.pause > MinimumPauseDuration then
      if HasPunctuation(r.word) then r.(pauseValid := r.pause, linguisticPause := r.pause, hesitationPause := 0.0)
      else r.(pauseValid := r.pause, hesitationPause := r.pause, linguisticPause := 0.0)
    else r.(pauseValid := 0.0, hesitationPause := 0.0, linguisticPause := 0.0)
  }

  function ClassifyAll(rows: seq<PauseRow>): (c: seq<PauseRow>)
    ensures |c| == |rows|
    ensures forall i :: 0 <= i < |rows| ==> c[i] == Classify(rows[i])
  {
    seq(|rows|, i requires 0 <= i < |rows| => Classify(rows[i]))
  }

  /** `add_pauses_to_df`: classifies every row of the table in place. */
  method AddPauses(table: array<PauseRow>)
    modifies table
    ensures table[..] == ClassifyAll(old(table[..]))
  {
    var index := 0;
    while index < table.Length
      invariant 0 <= index <= table.Length
      invariant forall i :: 0 <= i < index ==> table[i] == Classify(old(table[i]))
      invariant forall i :: index <= i < table.Length ==> table[i] == old(table[i])
    {
      var row := table[index];
      if row.pause > MinimumPauseDuration {
        table[index] := table[index].(pauseValid := row.pause);
        if HasPunctuation(row.word) {
          table[index] := table[index].(linguisticPause := row.pause);
          table[index] := table[index].(hesitationPause := 0.0);
        } else {
          table[index] := table[index].(hesitationPause := row.pause);
          table[index] := table[index].(linguisticPause := 0.0);
        }
      } else {
        table[index] := table[index].(pauseValid := 0.0);
        table[index] := table[index].(hesitationPause := 0.0);
        table[index] := table[index].(linguisticPause := 0.0);
      }
      index := index + 1;
    }
  }

  // ---------------------------------------------------------------------
  // Column sums and counts over the classified table

  /** `pause_df['pause_valid'].sum()`. */
  function SumValid(rows: seq<PauseRow>): real {
    if rows == [] then 0.0 else rows[0].pauseValid + SumValid(rows[1..])
  }

  /** `pause_df['hesitation_pause'].sum()`. */
  function SumHesitation(rows: seq<PauseRow>): real {
    if rows == [] then 0.0 else rows[0].hesitationPause + SumHesitation(rows[1..])
  }

  /** `len(pause_df[pause_df['hesitation_pause'] > 0])`. */
  function CountHesitation(rows: seq<PauseRow>): (r: nat)
    ensures r <= |rows|
  {
    if rows == [] then 0 else (if rows[0].hesitationPause > 0.0 then 1 else 0) + CountHesitation(rows[1..])
  }

  /** A column of non-negative values sums to a non-negative total. */
  lemma {:induction false} SumValidNonNegative(rows: seq<PauseRow>)
    requires forall i :: 0 <= i < |rows| ==> rows[i].pauseValid >= 0.0
    ensures SumValid(rows) >= 0.0
    decreases |rows|
  {
    if rows != [] {
      assert forall i :: 0 <= i < |rows| - 1 ==> rows[1..][i] == rows[i + 1];
      SumValidNonNegative(rows[1..]);
    }
  }

  lemma {:induction false} SumHesitationNonNegative(rows: seq<PauseRow>)
    requires forall i :: 0 <= i < |rows| ==> rows[i].hesitationPause >= 0.0
    ensures SumHesitation(rows) >= 0.0
    decreases |rows|
  {
    if rows != [] {
      assert forall i :: 0 <= i < |rows| - 1 ==> rows[1..][i] == rows[i + 1];
      SumHesitationNonNegative(rows[1..]);
    }
  }

  /** No row is counted exactly when no row has a positive hesitation pause. */
  lemma {:induction false} CountHesitationZero(rows: seq<PauseRow>)
    ensures CountHesitation(rows) == 0 <==>
            forall i :: 0 <= i < |rows| ==> rows[i].hesitationPause <= 0.0
    decreases |rows|
  {
    if rows != [] {
      assert forall i :: 0 <= i < |rows| - 1 ==> rows[1..][i] == rows[i + 1];
      CountHesitationZero(rows[1..]);
    }
  }

  /** On a classified table the hesitation time is part of the valid pause
      time, and every hesitation pause is longer than the threshold, so the
      average hesitation exceeds it. */
  lemma {:induction false} HesitationSums(raw: seq<PauseRow>)
    ensures 0.0 <= SumHesitation(ClassifyAll(raw)) <= SumValid(ClassifyAll(raw))
    ensures CountHesitation(ClassifyAll(raw)) as real * MinimumPauseDuration <= SumHesitation(ClassifyAll(raw))
    ensures CountHesitation(ClassifyAll(raw)) > 0 ==>
              CountHesitation(ClassifyAll(raw)) as real * MinimumPauseDuration < SumHesitation(ClassifyAll(raw))
    ensures CountHesitation(ClassifyAll(raw)) <= |raw|
    decreases |raw|
  {
    if raw != [] {
      assert ClassifyAll(raw)[1..] == ClassifyAll(raw[1..]);
      HesitationSums(raw[1..]);
    }
  }

  // ---------------------------------------------------------------------
  // Rates and filled pauses

  /** `(count / time) * 60 if time > 0 else 0`, the guarded per-minute rate. */
  function PerMinute(count: real, time: real): (r: real)
    ensures time > 0.0 ==> r * time == count * 60.0
    ensures time <= 0.0 ==> r == 0.0
    ensures count >= 0.0 ==> r >= 0.0
  {
    if time > 0.0 then (count / time) * 60.0 else 0.0
  }

  /** The number of non-overlapping occurrences of `pattern` in `text`,
      found left to right (`len(re.findall(pattern, text))` for a pattern of
      letters and spaces). It is zero exactly when the pattern does not
      occur at all, and the occurrences fit in the text. */
  function CountOccurrences(pattern: string, text: string): (r: nat)
    requires |pattern| > 0
    ensures r == 0 <==> !IsSubstring(pattern, text)
    ensures r * |pattern| <= |text|
    decreases |text|
  {
    if |text| < |pattern| then 0
    else if text[..|pattern|] == pattern then
      assert Contains(text, pattern);
      1 + CountOccurrences(pattern, text[|pattern|..])
    else
      var r := CountOccurrences(pattern, text[1..]);
      assert Contains(text, pattern) == Contains(text[1..], pattern);
      r
  }

  /** `sum(len(re.findall(p, text)) for p in patterns)`. */
  function CountAll(patterns: seq<string>, text: string): (r: nat)
    requires forall i :: 0 <= i < |patterns| ==> |patterns[i]| > 0
    ensures r == 0 <==> forall i :: 0 <= i < |patterns| ==> !IsSubstring(patterns[i], text)
  {
    if patterns == [] then 0
    else CountOccurrences(patterns[0], text) + CountAll(patterns[1..], text)
  }

  /** `num_filled_pauses`: zero exactly when no filler pattern occurs. */
  function FilledPauseCount(text: string): (r: nat)
    ensures r == 0 <==> forall i :: 0 <= i < |FilledPauses| ==> !IsSubstring(FilledPauses[i], text)
  {
    CountAll(FilledPauses, text)
  }

  /** Matching is by plain substring and is case-sensitive: "so" inside
      "also" is a filled pause, "So" is not. */
  lemma FilledPauseInsideWord()
    ensures CountOccurrences("so", "also") == 1
    ensures CountOccurrences("so", "So") == 0
  {
    assert "also"[..2][0] == 'a';
    assert "also"[1..] == "lso";
    assert "lso"[..2][0] == 'l';
    assert "lso"[1..] == "so";
    assert "so"[..2] == "so";
    assert "so"[2..] == "";
    assert "So"[..2][0] == 'S';
  }

  /** `p` holds start positions of occurrences of `pattern` in `text`, each
      one at or after the end of every earlier one: a set of
      non-overlapping matches listed left to right. */
  ghost predicate NonOverlapping(pattern: string, text: string, p: seq<int>) {
    (forall j :: 0 <= j < |p| ==> OccursAt(pattern, text, p[j])) &&
    (forall i, j :: 0 <= i < j < |p| ==> p[i] + |pattern| <= p[j])
  }

  lemma SliceOfSuffix(text: string, d: int, a: int, n: int)
    requires 0 <= d && 0 <= a && 0 <= n && d + a + n <= |text|
    ensures text[d..][a..a + n] == text[d + a..d + a + n]
  {
  }

  /** Matches in a suffix are matches in the whole text, `d` further on. */
  lemma NonOverlappingInText(pattern: string, text: string, p: seq<int>, d: int)
    requires 0 <= d <= |text|
    requires NonOverlapping(pattern, text[d..], p)
    ensures NonOverlapping(pattern, text, Shift(p, -d))
  {
    forall j | 0 <= j < |p| ensures OccursAt(pattern, text, p[j] + d) {
      assert OccursAt(pattern, text[d..], p[j]);
      SliceOfSuffix(text, d, p[j], |pattern|);
    }
  }

  /** Matches that all start at `d` or later are matches in `text[d..]`. */
  lemma NonOverlappingInSuffix(pattern: string, text: string, p: seq<int>, d: int)
    requires 0 <= d <= |text|
    requires NonOverlapping(pattern, text, p)
    requires forall j :: 0 <= j < |p| ==> p[j] >= d
    ensures NonOverlapping(pattern, text[d..], Shift(p, d))
  {
    forall j | 0 <= j < |p| ensures OccursAt(pattern, text[d..], p[j] - d) {
      assert OccursAt(pattern, text, p[j]);
      SliceOfSuffix(text, d, p[j] - d, |pattern|);
    }
  }

  /** A match at 0 followed by matches in the rest of the text. */
  lemma MatchThenRest(pattern: string, text: string, q: seq<int>)
    requires |pattern| <= |text| && text[..|pattern|] == pattern
    requires NonOverlapping(pattern, text[|pattern|..], q)
    ensures NonOverlapping(pattern, text, [0] + Shift(q, -|pattern|))
  {
    NonOverlappingInText(pattern, text, q, |pattern|);
    var p := [0] + Shift(q, -|pattern|);
    assert OccursAt(pattern, text, 0);
    assert forall j :: 1 <= j < |p| ==> p[j] == Shift(q, -|pattern|)[j - 1];
  }

  /** `CountOccurrences` is attained: that many non-overlapping matches,
      left to right, exist. */
  lemma {:induction false} CountOccurrencesAttained(pattern: string, text: string)
    requires |pattern| > 0
    ensures exists p :: |p| == CountOccurrences(pattern, text) && NonOverlapping(pattern, text, p)
    decreases |text|
  {
    if |text| < |pattern| {
      assert NonOverlapping(pattern, text, []);
    } else if text[..|pattern|] == pattern {
      var rest := text[|pattern|..];
      CountOccurrencesAttained(pattern, rest);
      var q :| |q| == CountOccurrences(pattern, rest) && NonOverlapping(pattern, rest, q);
      MatchThenRest(pattern, text, q);
      assert |[0] + Shift(q, -|pattern|)| == CountOccurrences(pattern, text);
    } else {
      CountOccurrencesAttained(pattern, text[1..]);
      var q :| |q| == CountOccurrences(pattern, text[1..]) && NonOverlapping(pattern, text[1..], q);
      NonOverlappingInText(pattern, text, q, 1);
    }
  }

  /** No set of non-overlapping matches is larger than `CountOccurrences`:
      the leftmost-first scan of `re.findall` finds the most there are. */
  lemma {:induction false} CountOccurrencesMaximal(pattern: string, text: string, p: seq<int>)
    requires |pattern| > 0
    requires NonOverlapping(pattern, text, p)
    ensures |p| <= CountOccurrences(pattern, text)
    decreases |text|
  {
    if p != [] {
      assert OccursAt(pattern, text, p[0]);
      if text[..|pattern|] == pattern {
        var tail := p[1..];
        assert forall j :: 0 <= j < |tail| ==> tail[j] == p[j + 1];
        assert NonOverlapping(pattern, text, tail);
        assert OccursAt(pattern, text, p[0]);
        assert forall j :: 0 <= j < |tail| ==> p[0] + |pattern| <= tail[j];
        NonOverlappingInSuffix(pattern, text, tail, |pattern|);
        CountOccurrencesMaximal(pattern, text[|pattern|..], Shift(tail, |pattern|));
      } else {
        assert p[0] != 0;
        NonOverlappingInSuffix(pattern, text, p, 1);
        CountOccurrencesMaximal(pattern, text[1..], Shift(p, 1));
      }
    }
  }

  // ---------------------------------------------------------------------
  // The heuristic score

  /** The statistics the heuristic reads. */
  datatype FluencyMetrics = FluencyMetrics(
    speechRate: real,
    articulationRate: real,
    hesitationCount: nat,
    hesitationPerMinute: real,
    avgHesitation: real,
    filledPercentage: real)

  /** Speech-rate band: 30 in [110, 160] words per minute, 15 in [90, 180],
      5 otherwise. */
  function RatePoints(speechRate: real): (p: real)
    ensures p == 30.0 <==> 110.0 <= speechRate <= 160.0
    ensures p == 15.0 <==> (90.0 <= speechRate <= 180.0 && !(110.0 <= speechRate <= 160.0))
    ensures p == 5.0 <==> !(90.0 <= speechRate <= 180.0)
  {
    if 110.0 <= speechRate <= 160.0 then 30.0
    else if 90.0 <= speechRate <= 180.0 then 15.0
    else 5.0
  }

  /** Hesitation part: full marks without hesitation pauses, otherwise
      reduced by their rate and length but never below 0. */
  function PausePoints(count: nat, perMinute: real, avgDuration: real): (p: real)
    ensures 0.0 <= p
    ensures perMinute >= 0.0 && avgDuration >= 0.0 ==> p <= 20.0
    ensures count == 0 ==> p == 20.0
  {
    if count == 0 then 20.0
    else Max(0.0, 20.0 - (perMinute * 2.5) - (avgDuration * 10.0))
  }

  /** More frequent or longer hesitation pauses never raise the points. */
  lemma PausePointsMonotone(count: nat, perMinute: real, avg: real, perMinute': real, avg': real)
    requires perMinute <= perMinute' && avg <= avg'
    ensures PausePoints(count, perMinute', avg') <= PausePoints(count, perMinute, avg)
  {
  }

  /** Filled-pause part: `max(0, 20 - 3 * percentage)`. */
  function FilledPausePoints(percentage: real): (p: real)
    ensures 0.0 <= p
    ensures percentage >= 0.0 ==> p <= 20.0
    ensures percentage == 0.0 ==> p == 20.0
  {
    Max(0.0, 20.0 - (percentage * 3.0))
  }

  /** The bonus for an articulation rate strictly between 1.05 and 1.5
      times the speech rate. */
  function ConsistencyBonus(speechRate: real, articulationRate: real): (p: real)
    ensures p == 0.0 || p == 10.0
    ensures p == 10.0 <==> speechRate * 1.05 < articulationRate < speechRate * 1.5
  {
    if articulationRate > speechRate * 1.05 && articulationRate < speechRate * 1.5 then 10.0 else 0.0
  }

  /** What the statistics of any table satisfy: rates and averages are
      never negative. */
  predicate Sane(m: FluencyMetrics) {
    m.hesitationPerMinute >= 0.0 && m.avgHesitation >= 0.0 && m.filledPercentage >= 0.0
  }

  function RawScore(m: FluencyMetrics): real {
    RatePoints(m.speechRate)
    + PausePoints(m.hesitationCount, m.hesitationPerMinute, m.avgHesitation)
    + FilledPausePoints(m.filledPercentage)
    + ConsistencyBonus(m.speechRate, m.articulationRate)
  }

  /** The raw sum lies in [5, 80], never more than the four parts' maxima. */
  lemma RawScoreBounds(m: FluencyMetrics)
    requires Sane(m)
    ensures 5.0 <= RawScore(m) <= 80.0
  {
  }

  /** The final normalisation `max(0, min(raw / 10, 10))`. */
  function FluencyFromMetrics(m: FluencyMetrics): (score: real)
    requires Sane(m)
    ensures 0.5 <= score <= 8.0
    ensures score == RawScore(m) / 10.0
  {
    RawScoreBounds(m);
    Clamp(RawScore(m) / UpperBound)
  }

  /** Holding the other statistics fixed, worse hesitation never raises
      the fluency score. */
  lemma FluencyMonotoneInHesitation(m: FluencyMetrics, perMinute': real, avg': real)
    requires Sane(m)
    requires m.hesitationPerMinute <= perMinute' && m.avgHesitation <= avg'
    ensures FluencyFromMetrics(m.(hesitationPerMinute := perMinute', avgHesitation := avg'))
            <= FluencyFromMetrics(m)
  {
    PausePointsMonotone(m.hesitationCount, m.hesitationPerMinute, m.avgHesitation, perMinute', avg');
  }

  // ---------------------------------------------------------------------
  // The whole scorer

  /** The classified pause table of a word list. */
  function Rows(words: seq<WordTiming>): (rows: seq<PauseRow>)
    ensures |rows| == |DistinctWords(words)|
  {
    DictOfWellFormed(words, |words|);
    DictOfSize(words);
    ClassifyAll(FrameOf(DictOf(words, |words|)))
  }

  /** `hesitation_pause_durations / num_hesitation_pauses`, 0 without any. */
  function AverageHesitation(rows: seq<PauseRow>): (r: real)
    ensures CountHesitation(rows) == 0 ==> r == 0.0
    ensures CountHesitation(rows) > 0 ==> r * CountHesitation(rows) as real == SumHesitation(rows)
  {
    var count, total := CountHesitation(rows), SumHesitation(rows);
    if count > 0 then
      var r := total / count as real;
      DivTimes(total, count as real, r);
      r
    else 0.0
  }

  /** `(num_filled_pauses / rows) * 100`, 0 for an empty table. */
  function FilledPercentage(filled: nat, rowCount: nat): (r: real)
    ensures r >= 0.0
    ensures rowCount > 0 ==> r * rowCount as real == filled as real * 100.0
  {
    if rowCount > 0 then (filled as real / rowCount as real) * 100.0 else 0.0
  }

  /** The statistics of a classified table over a recording of
      `fullTimeScale` seconds, whose text is `text`. */
  function MetricsFromTable(fullTimeScale: real, rows: seq<PauseRow>, text: string): (m: FluencyMetrics)
    ensures m.speechRate >= 0.0 && m.articulationRate >= 0.0
    ensures m.hesitationPerMinute >= 0.0 && m.filledPercentage >= 0.0
    ensures fullTimeScale <= 0.0 ==> m.speechRate == 0.0 && m.hesitationPerMinute == 0.0
    ensures m.hesitationCount <= |rows|
    ensures m.hesitationCount == 0 ==> m.avgHesitation == 0.0
    ensures FilledPauseCount(text) == 0 ==> m.filledPercentage == 0.0
  {
    FluencyMetrics(
      PerMinute(|rows| as real, fullTimeScale),
      PerMinute(|rows| as real, fullTimeScale - SumValid(rows)),
      CountHesitation(rows),
      PerMinute(CountHesitation(rows) as real, fullTimeScale),
      AverageHesitation(rows),
      FilledPercentage(FilledPauseCount(text), |rows|))
  }

  /** The time taken by the first `n` words and the gap after each. */
  function TimeAccounted(words: seq<WordTiming>, n: nat): real
    requires n <= |words|
  {
    if n == 0 then 0.0
    else TimeAccounted(words, n - 1) + EntryAt(words, n - 1).duration + EntryAt(words, n - 1).pause
  }

  lemma {:induction false} TimeAccountedTelescopes(words: seq<WordTiming>, n: nat)
    requires 0 < |words| && n <= |words|
    ensures n < |words| ==> TimeAccounted(words, n) == words[n].start - words[0].start
    ensures n == |words| ==> TimeAccounted(words, n) == words[n - 1].end - words[0].start
  {
    if n > 0 {
      TimeAccountedTelescopes(words, n - 1);
    }
  }

  /** `full_time_scale`, from the first word's start to the last word's end:
      the words' durations and the gaps between them add up to it. */
  function FullTimeScale(words: seq<WordTiming>): (r: real)
    requires |words| > 0
    ensures r == TimeAccounted(words, |words|)
  {
    TimeAccountedTelescopes(words, |words|);
    words[|words| - 1].end - words[0].start
  }

  function MetricsOf(t: Transcript): (m: FluencyMetrics)
    requires |t.words| > 0
  {
    MetricsFromTable(FullTimeScale(t.words), Rows(t.words), t.text)
  }

  /** On the classified table, the average hesitation is either 0 (no
      hesitation pause) or above the 0.2 s threshold. */
  lemma {:induction false} AverageHesitationOfTable(raw: seq<PauseRow>)
    ensures AverageHesitation(ClassifyAll(raw)) >= 0.0
    ensures CountHesitation(ClassifyAll(raw)) > 0 ==>
              AverageHesitation(ClassifyAll(raw)) > MinimumPauseDuration
  {
    var rows := ClassifyAll(raw);
    HesitationSums(raw);
    if CountHesitation(rows) > 0 {
      var c := CountHesitation(rows) as real;
      var s := SumHesitation(rows);
      DivAbove(s, c, MinimumPauseDuration);
    }
  }

  /** Every statistic of a transcript's table is non-negative. */
  lemma MetricsOfSane(t: Transcript)
    requires |t.words| > 0
    ensures Sane(MetricsOf(t))
    ensures MetricsOf(t).speechRate >= 0.0 && MetricsOf(t).articulationRate >= 0.0
  {
    DictOfWellFormed(t.words, |t.words|);
    AverageHesitationOfTable(FrameOf(DictOf(t.words, |t.words|)));
  }

  /** The fluency score of a transcript with at least one word. */
  function FluencyScore(t: Transcript): (score: real)
    requires |t.words| > 0
    ensures 0.5 <= score <= 8.0
  {
    MetricsOfSane(t);
    FluencyFromMetrics(MetricsOf(t))
  }

  /** The rates count distinct words, not words: the table has one row per
      distinct word text. */
  lemma SpeechRateCountsDistinctWords(t: Transcript)
    requires |t.words| > 0
    ensures MetricsOf(t).speechRate ==
              PerMinute(|DistinctWords(t.words)| as real, t.words[|t.words| - 1].end - t.words[0].start)
  {
  }

  /** A hesitation pause always lasts longer than the threshold, so when
      there is one the average hesitation is above 0.2 s. */
  lemma AverageHesitationAboveThreshold(t: Transcript)
    requires |t.words| > 0
    requires MetricsOf(t).hesitationCount > 0
    ensures MetricsOf(t).avgHesitation > MinimumPauseDuration
  {
    DictOfWellFormed(t.words, |t.words|);
    AverageHesitationOfTable(FrameOf(DictOf(t.words, |t.words|)));
  }

  /** A word said twice gives one row, holding the second occurrence's
      pause (0, as it is the last word) and duration. */
  lemma RepeatedWordCollapses(a: WordTiming, b: WordTiming)
    requires a.word == b.word
    ensures |Rows([a, b])| == 1
    ensures Rows([a, b])[0].word == a.word
    ensures Rows([a, b])[0].pause == 0.0 && Rows([a, b])[0].pauseValid == 0.0
    ensures Rows([a, b])[0].duration == b.end - b.start
  {
    var words := [a, b];
    assert DictOf(words, 1) == PauseDict([a.word], map[a.word := EntryAt(words, 0)]);
    assert DictOf(words, 2) == PauseDict([a.word], map[a.word := EntryAt(words, 1)]);
  }

  /** The `for index in range(sentence_length)` loop that fills the
      `pause_taken` ordered dictionary. */
  method BuildPauseTaken(words: seq<WordTiming>) returns (pauseTaken: PauseDict)
    ensures pauseTaken == DictOf(words, |words|)
    ensures Distinct(pauseTaken.keys)
    ensures forall k :: k in pauseTaken.keys <==> k in pauseTaken.entries
  {
    var sentenceLength := |words|;
    var keys: seq<string> := [];
    var entries: map<string, PauseEntry> := map[];
    var index := 0;
    while index < sentenceLength
      invariant 0 <= index <= sentenceLength
      invariant PauseDict(keys, entries) == DictOf(words, index)
    {
      var word := words[index].word;
      var timeTaken := if index == sentenceLength - 1 then 0.0
                       else words[index + 1].start - words[index].end;
      var wordDuration := words[index].end - words[index].start;
      if word !in entries {
        keys := keys + [word];
      }
      entries := entries[word := PauseEntry(timeTaken, wordDuration)];
      index := index + 1;
    }
    pauseTaken := PauseDict(keys, entries);
    DictOfWellFormed(words, |words|);
  }

  /** `pause_df`: the ordered dictionary turned into a table, one row per
      distinct word, then classified in place by `add_pauses_to_df`. */
  method PauseTable(words: seq<WordTiming>) returns (rows: seq<PauseRow>)
    ensures rows == Rows(words)
    ensures |rows| == |DistinctWords(words)|
  {
    var pauseTaken := BuildPauseTaken(words);
    var frame := FrameOf(pauseTaken);
    var pauseTable := new PauseRow[|frame|](i requires 0 <= i < |frame| => frame[i]);
    assert pauseTable[..] == frame;
    AddPauses(pauseTable);
    rows := pauseTable[..];
  }

  /** The pause statistics, rates and filled-pause percentage read off
      the classified table, each division guarded as in the source. */
  method TableMetrics(fullTimeScale: real, rows: seq<PauseRow>, text: string)
      returns (m: FluencyMetrics)
    ensures m == MetricsFromTable(fullTimeScale, rows, text)
    ensures (exists raw :: rows == ClassifyAll(raw)) ==> Sane(m)
    ensures (exists raw :: rows == ClassifyAll(raw)) && m.hesitationCount > 0 ==>
              m.avgHesitation > MinimumPauseDuration
  {
    if exists raw :: rows == ClassifyAll(raw) {
      ghost var raw :| rows == ClassifyAll(raw);
      AverageHesitationOfTable(raw);
    }
    var totalPauseTime := SumValid(rows);
    var numHesitationPauses := CountHesitation(rows);
    var hesitationPauseDurations := SumHesitation(rows);
    var avgHesitation := if numHesitationPauses > 0
                         then hesitationPauseDurations / numHesitationPauses as real else 0.0;
    var speakingTime := fullTimeScale - totalPauseTime;
    var rowCount := |rows| as real;

    var speechRate := if fullTimeScale > 0.0 then (rowCount / fullTimeScale) * 60.0 else 0.0;
    var articulationRate := if speakingTime > 0.0 then (rowCount / speakingTime) * 60.0 else 0.0;
    var hesitationPerMinute := if fullTimeScale > 0.0
                               then (numHesitationPauses as real / fullTimeScale) * 60.0 else 0.0;

    var numFilledPauses := FilledPauseCount(text);
    var filledPercentage := if |rows| > 0
                            then (numFilledPauses as real / rowCount) * 100.0 else 0.0;
    assert avgHesitation == AverageHesitation(rows);
    assert filledPercentage == FilledPercentage(numFilledPauses, |rows|);
    m := FluencyMetrics(speechRate, articulationRate, numHesitationPauses,
                        hesitationPerMinute, avgHesitation, filledPercentage);
  }

  /** The four `fluency_score +=` steps of the heuristic. */
  method AccumulatePoints(m: FluencyMetrics) returns (score: real)
    requires Sane(m)
    ensures score == RawScore(m)
    ensures 5.0 <= score <= 80.0
  {
    score := 0.0;
    if 110.0 <= m.speechRate <= 160.0 {
      score := score + 30.0;
    } else if 90.0 <= m.speechRate <= 180.0 {
      score := score + 15.0;
    } else {
      score := score + 5.0;
    }
    if m.hesitationCount == 0 {
      score := score + 20.0;
    } else {
      score := score + Max(0.0, 20.0 - (m.hesitationPerMinute * 2.5) - (m.avgHesitation * 10.0));
    }
    score := score + Max(0.0, 20.0 - (m.filledPercentage * 3.0));
    if m.articulationRate > m.speechRate * 1.05 && m.articulationRate < m.speechRate * 1.5 {
      score := score + 10.0;
    }
    RawScoreBounds(m);
  }

  /** `calculate_fluency_score`. An empty word list makes the source index
      `word_timestamps[-1]` and fail; that is the `None` result. */
  method CalculateFluencyScore(t: Transcript) returns (r: Option<real>)
    ensures r.None? <==> t.words == []
    ensures r.Some? ==> r.value == FluencyScore(t)
    ensures r.Some? ==> 0.5 <= r.value <= 8.0
  {
    var words := t.words;
    if |words| == 0 {
      return None;
    }
    var fullTimeScale := words[|words| - 1].end - words[0].start;

    var rows := PauseTable(words);
    var m := TableMetrics(fullTimeScale, rows, t.text);
    assert m == MetricsOf(t);
    MetricsOfSane(t);
    var score := AccumulatePoints(m);
    score := Max(LowerBound, Min(score / UpperBound, UpperBound));
    return Some(score);
  }
}
