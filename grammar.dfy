/** The grammar scorer: filler removal and whitespace clean-up for the word
    count, classification of the checker's matches by rule id, the penalty
    sum, and the density score. */
module Grammar {
  import opened Common

  /** The alternatives of `\b(um|uh|ah|err|hmm|like|you know|i mean)\b`,
      in the order the regex tries them. */
  const Fillers: seq<string> := ["um", "uh", "ah", "err", "hmm", "like", "you know", "i mean"]

  // ---------------------------------------------------------------------
  // Cleaning the text

  /** The regex assertion `\b` at position `i` of `s`: a word character on
      exactly one side. */
  predicate BoundaryAt(s: string, i: int)
    requires 0 <= i <= |s|
  {
    (i > 0 && IsWordChar(s[i - 1])) != (i < |s| && IsWordChar(s[i]))
  }

  /** `\b f \b` matches at position `i` of `s`. */
  predicate MatchesAt(s: string, i: int, f: string)
    requires 0 <= i <= |s|
  {
    OccursAt(f, s, i) && BoundaryAt(s, i) && BoundaryAt(s, i + |f|)
  }

  /** `alts[k]` is the first alternative that matches at `i`. */
  ghost predicate FirstMatch(s: string, i: int, alts: seq<string>, k: int)
    requires 0 <= i <= |s|
  {
    0 <= k < |alts| && MatchesAt(s, i, alts[k]) &&
    forall j :: 0 <= j < k ==> !MatchesAt(s, i, alts[j])
  }

  /** The length of the first alternative that matches at `i`, if any. */
  function FillerMatchAt(s: string, i: int, alts: seq<string>): (r: Option<nat>)
    requires 0 <= i <= |s|
    ensures r.Some? ==> i + r.value <= |s|
    ensures r.Some? && (forall k :: 0 <= k < |alts| ==> alts[k] != []) ==> r.value > 0
  {
    if alts == [] then None
    else if MatchesAt(s, i, alts[0]) then Some(|alts[0]|)
    else
      assert forall k :: 1 <= k < |alts| ==> alts[1..][k - 1] == alts[k];
      FillerMatchAt(s, i, alts[1..])
  }

  /** There is no match exactly when no alternative matches. */
  lemma {:induction false} FillerMatchAtNone(s: string, i: int, alts: seq<string>)
    requires 0 <= i <= |s|
    ensures FillerMatchAt(s, i, alts).None? <==> forall k :: 0 <= k < |alts| ==> !MatchesAt(s, i, alts[k])
    decreases |alts|
  {
    if alts != [] && !MatchesAt(s, i, alts[0]) {
      FillerMatchAtNone(s, i, alts[1..]);
      assert forall k :: 1 <= k < |alts| ==> alts[1..][k - 1] == alts[k];
    }
  }

  /** A match is that of the first alternative that matches: the regex
      tries them left to right and takes the first that succeeds. */
  lemma {:induction false} FillerMatchAtFirst(s: string, i: int, alts: seq<string>)
    requires 0 <= i <= |s|
    ensures FillerMatchAt(s, i, alts).Some? ==>
              exists k :: FirstMatch(s, i, alts, k) && FillerMatchAt(s, i, alts).value == |alts[k]|
    decreases |alts|
  {
    if alts != [] {
      if MatchesAt(s, i, alts[0]) {
        assert FirstMatch(s, i, alts, 0);
      } else if FillerMatchAt(s, i, alts[1..]).Some? {
        FillerMatchAtFirst(s, i, alts[1..]);
        var k :| FirstMatch(s, i, alts[1..], k) && FillerMatchAt(s, i, alts[1..]).value == |alts[1..][k]|;
        assert forall j :: 0 <= j < k ==> alts[1..][j] == alts[j + 1];
        assert FirstMatch(s, i, alts, k + 1);
      }
    }
  }

  /** The positions `idx` pick the characters of `a` out of `b`, left to
      right. */
  ghost predicate Picks(idx: seq<int>, a: string, b: string) {
    |idx| == |a| &&
    (forall k :: 0 <= k < |idx| ==> 0 <= idx[k] < |b| && a[k] == b[idx[k]]) &&
    (forall k, l :: 0 <= k < l < |idx| ==> idx[k] < idx[l])
  }

  /** `a` is `b` with some characters deleted. */
  ghost predicate IsSubsequence(a: string, b: string) {
    exists idx :: Picks(idx, a, b)
  }

  lemma SubsequenceSkip(a: string, b: string, n: int)
    requires 0 <= n <= |b| && IsSubsequence(a, b[n..])
    ensures IsSubsequence(a, b)
  {
    var idx :| Picks(idx, a, b[n..]);
    assert Picks(Shift(idx, -n), a, b);
  }

  lemma SubsequenceCons(a: string, b: string)
    requires b != [] && IsSubsequence(a, b[1..])
    ensures IsSubsequence([b[0]] + a, b)
  {
    var idx :| Picks(idx, a, b[1..]);
    var idx' := [0] + Shift(idx, -1);
    assert forall k :: 1 <= k < |idx'| ==> idx'[k] == idx[k - 1] + 1;
    assert Picks(idx', [b[0]] + a, b);
  }

  /** `re.sub(filler_word_pattern, '', s)` from position `i` on: scanning
      left to right, a match is dropped and the scan resumes after it;
      any other character is kept. */
  function RemoveFillersFrom(s: string, i: nat): (r: string)
    requires i <= |s|
    ensures |r| <= |s| - i
    decreases |s| - i
  {
    if i == |s| then []
    else match FillerMatchAt(s, i, Fillers)
      case Some(n) =>
        assert n > 0 && i + n <= |s|;
        RemoveFillersFrom(s, i + n)
      case None => [s[i]] + RemoveFillersFrom(s, i + 1)
  }

  /** Removing fillers only deletes characters: what is left of `s[i..]`
      is a subsequence of it. */
  lemma {:induction false} RemoveFillersDeletes(s: string, i: nat)
    requires i <= |s|
    ensures IsSubsequence(RemoveFillersFrom(s, i), s[i..])
    decreases |s| - i
  {
    if i == |s| {
      assert Picks([], [], s[i..]);
    } else {
      match FillerMatchAt(s, i, Fillers)
      case Some(n) =>
        RemoveFillersDeletes(s, i + n);
        SubsequenceOfLater(RemoveFillersFrom(s, i), RemoveFillersFrom(s, i + n), s, i, n);
      case None =>
        RemoveFillersDeletes(s, i + 1);
        SubsequenceOfNext(RemoveFillersFrom(s, i), RemoveFillersFrom(s, i + 1), s, i);
    }
  }

  lemma SubsequenceOfLater(r: string, a: string, s: string, i: int, n: int)
    requires 0 <= i && 0 <= n && i + n <= |s| && IsSubsequence(a, s[i + n..])
    requires r == a
    ensures IsSubsequence(r, s[i..])
  {
    assert s[i..][n..] == s[i + n..];
    SubsequenceSkip(a, s[i..], n);
  }

  lemma SubsequenceOfNext(r: string, a: string, s: string, i: int)
    requires 0 <= i < |s| && IsSubsequence(a, s[i + 1..])
    requires r == [s[i]] + a
    ensures IsSubsequence(r, s[i..])
  {
    assert s[i..][1..] == s[i + 1..];
    SubsequenceCons(a, s[i..]);
  }

  function RemoveFillers(s: string): (r: string)
    ensures |r| <= |s|
  {
    RemoveFillersFrom(s, 0)
  }

  lemma RemoveFillersKeepsChar(s: string, i: nat)
    requires i < |s| && FillerMatchAt(s, i, Fillers).None?
    ensures RemoveFillersFrom(s, i) == [s[i]] + RemoveFillersFrom(s, i + 1)
  {
  }

  /** A stretch of text at none of whose positions a filler matches is
      copied through as it is. */
  lemma {:induction false} RemoveFillersKeepsUnmatched(s: string, i: nat, j: nat)
    requires i <= j <= |s|
    requires forall k :: i <= k < j ==> FillerMatchAt(s, k, Fillers).None?
    ensures RemoveFillersFrom(s, i) == s[i..j] + RemoveFillersFrom(s, j)
    decreases j - i
  {
    if i < j {
      RemoveFillersKeepsChar(s, i);
      RemoveFillersKeepsUnmatched(s, i + 1, j);
      ConsSlice(s, i, j, RemoveFillersFrom(s, i), RemoveFillersFrom(s, i + 1),
                RemoveFillersFrom(s, j));
    } else {
      assert s[i..j] == [];
    }
  }

  lemma ConsSlice(s: string, i: int, j: int, x: string, y: string, z: string)
    requires 0 <= i < j <= |s|
    requires x == [s[i]] + y && y == s[i + 1..j] + z
    ensures x == s[i..j] + z
  {
    assert s[i..j] == [s[i]] + s[i + 1..j];
  }

  /** Text in which no filler matches is left as it is. */
  lemma RemoveFillersUnchanged(s: string, i: nat)
    requires i <= |s|
    requires forall j :: i <= j < |s| ==> FillerMatchAt(s, j, Fillers).None?
    ensures RemoveFillersFrom(s, i) == s[i..]
  {
    RemoveFillersKeepsUnmatched(s, i, |s|);
  }

  /** A filler that matches anywhere in `s[i..]` shortens the result: the
      scan either drops that match or jumps over it inside an earlier one. */
  lemma {:induction false} RemoveFillersShortens(s: string, i: nat, j: nat)
    requires i <= j < |s| && FillerMatchAt(s, j, Fillers).Some?
    ensures |RemoveFillersFrom(s, i)| < |s| - i
    decreases |s| - i
  {
    var m := FillerMatchAt(s, i, Fillers);
    if m.Some? {
      FillerMatchPositive(s, i, m.value);
      RemoveFillersSkips(s, i, m.value);
    } else {
      RemoveFillersKeepsChar(s, i);
      RemoveFillersShortens(s, i + 1, j);
    }
  }

  lemma RemoveFillersSkips(s: string, i: nat, n: nat)
    requires i < |s| && FillerMatchAt(s, i, Fillers).Some? && n == FillerMatchAt(s, i, Fillers).value
    ensures i + n <= |s| && RemoveFillersFrom(s, i) == RemoveFillersFrom(s, i + n)
  {
  }

  lemma FillerMatchPositive(s: string, i: nat, n: nat)
    requires i <= |s| && FillerMatchAt(s, i, Fillers) == Some(n)
    ensures 0 < n && i + n <= |s|
  {
    assert forall k :: 0 <= k < |Fillers| ==> Fillers[k] != [];
  }

  /** Filler removal leaves the text as it is exactly when no filler
      matches anywhere in it. */
  lemma RemoveFillersIdentity(s: string)
    ensures RemoveFillers(s) == s <==> forall j :: 0 <= j < |s| ==> FillerMatchAt(s, j, Fillers).None?
  {
    if forall j :: 0 <= j < |s| ==> FillerMatchAt(s, j, Fillers).None? {
      RemoveFillersUnchanged(s, 0);
      assert s[0..] == s;
    } else {
      var j :| 0 <= j < |s| && FillerMatchAt(s, j, Fillers).Some?;
      RemoveFillersShortens(s, 0, j);
    }
  }

  /** A lone "um" is removed. */
  lemma RemoveFillersDropsFiller()
    ensures RemoveFillers("um") == ""
  {
    assert MatchesAt("um", 0, Fillers[0]);
    assert RemoveFillersFrom("um", 2) == "";
  }

  /** Fillers are matched case-sensitively: "Um" stays. */
  lemma RemoveFillersCaseSensitive()
    ensures RemoveFillers("Um") == "Um"
  {
    assert FillerMatchAt("Um", 0, Fillers).None? by {
      forall k | 0 <= k < |Fillers| ensures !MatchesAt("Um", 0, Fillers[k]) {
        assert "Um"[0] == 'U';
        assert Fillers[k][0] != 'U';
      }
    }
    assert !BoundaryAt("Um", 1);
    RemoveFillersUnchanged("Um", 0);
  }

  /** The non-whitespace characters of `s`, in order. */
  function NonSpace(s: string): string {
    if s == [] then [] else (if IsSpace(s[0]) then [] else [s[0]]) + NonSpace(s[1..])
  }

  lemma {:induction false} NonSpaceTrimStart(s: string)
    ensures NonSpace(TrimStart(s)) == NonSpace(s)
    decreases |s|
  {
    if s != [] && IsSpace(s[0]) {
      NonSpaceTrimStart(s[1..]);
    }
  }

  /** The leading run of non-whitespace characters of `s`. */
  function FirstWord(s: string): (w: string)
    ensures |w| <= |s| && w == s[..|w|]
    ensures s != [] && !IsSpace(s[0]) ==> |w| > 0
    ensures |w| < |s| ==> IsSpace(s[|w|])
    ensures forall i :: 0 <= i < |w| ==> !IsSpace(w[i])
  {
    if s == [] || IsSpace(s[0]) then [] else [s[0]] + FirstWord(s[1..])
  }

  /** `s.split()`: the maximal runs of non-whitespace characters, in order. */
  function Words(s: string): seq<string>
    decreases |s|
  {
    var t := TrimStart(s);
    if t == [] then []
    else
      var w := FirstWord(t);
      [w] + Words(t[|w|..])
  }

  lemma WordsTrimStart(s: string)
    ensures Words(TrimStart(s)) == Words(s)
  {
    TrimStartOfClean(TrimStart(s));
  }

  lemma WordsSpaceCons(x: char, c: string)
    requires IsSpace(x)
    ensures Words([x] + c) == Words(c)
  {
    assert ([x] + c)[1..] == c;
  }

  /** A non-whitespace character in front either starts a new first word
      or joins the first word of `c`. */
  lemma WordsWordCons(x: char, c: string)
    requires !IsSpace(x)
    ensures c != [] && !IsSpace(c[0]) ==>
              (Words(c) != [] && Words([x] + c) == [[x] + Words(c)[0]] + Words(c)[1..])
    ensures !(c != [] && !IsSpace(c[0])) ==> Words([x] + c) == [[x]] + Words(c)
  {
    var s := [x] + c;
    assert s[1..] == c;
    TrimStartOfClean(s);
    if c != [] && !IsSpace(c[0]) {
      TrimStartOfClean(c);
      var w := FirstWord(c);
      assert FirstWord(s) == [x] + w;
      assert s[|[x] + w|..] == c[|w|..];
    } else {
      assert FirstWord(s) == [x];
    }
  }

  /** A trailing whitespace character holds no word. */
  lemma {:induction false} WordsAppendSpace(c: string, x: char)
    requires IsSpace(x)
    ensures Words(c + [x]) == Words(c)
    decreases |c|
  {
    if c == [] {
      assert c + [x] == [x] + [];
      WordsSpaceCons(x, []);
    } else {
      var y, c' := c[0], c[1..];
      ConsSplit(c);
      assert c + [x] == [y] + (c' + [x]);
      WordsAppendSpace(c', x);
      if IsSpace(y) {
        WordsSpaceCons(y, c' + [x]);
        WordsSpaceCons(y, c');
      } else {
        WordsWordCons(y, c' + [x]);
        WordsWordCons(y, c');
        assert (c' + [x])[0] == if c' == [] then x else c'[0];
      }
    }
  }

  lemma WordsTrailingSpace(s: string)
    requires s != [] && IsSpace(s[|s| - 1])
    ensures Words(s[..|s| - 1]) == Words(s)
  {
    assert s == s[..|s| - 1] + [s[|s| - 1]];
    WordsAppendSpace(s[..|s| - 1], s[|s| - 1]);
  }

  lemma {:induction false} WordsTrimEnd(s: string)
    ensures Words(TrimEnd(s)) == Words(s)
    decreases |s|
  {
    if s != [] && IsSpace(s[|s| - 1]) {
      WordsTrailingSpace(s);
      WordsTrimEnd(s[..|s| - 1]);
    }
  }

  /** Stripping drops no word. */
  lemma WordsStrip(s: string)
    ensures Words(Strip(s)) == Words(s)
  {
    WordsTrimStart(s);
    WordsTrimEnd(TrimStart(s));
  }

  /** The only whitespace is the plain space, never two in a row. */
  ghost predicate SingleSpaced(s: string) {
    (forall i :: 0 <= i < |s| && IsSpace(s[i]) ==> s[i] == ' ') &&
    (forall i, j :: 0 <= i && j == i + 1 && j < |s| ==> !(IsSpace(s[i]) && IsSpace(s[j])))
  }

  lemma SingleSpacedSlice(t: string, c: string, k: int)
    requires SingleSpaced(t) && OccursAt(c, t, k)
    ensures SingleSpaced(c)
  {
    assert forall i :: 0 <= i < |c| ==> c[i] == t[k + i];
  }

  lemma SingleSpacedCons(x: char, c: string)
    requires SingleSpaced(c)
    requires IsSpace(x) ==> x == ' ' && (c == [] || !IsSpace(c[0]))
    ensures SingleSpaced([x] + c)
  {
    var r := [x] + c;
    assert forall i :: 1 <= i < |r| ==> r[i] == c[i - 1];
  }

  /** `re.sub(r'\s+', ' ', s)`: every run of whitespace becomes one space.
      The result holds no whitespace but the plain space, and never two
      spaces in a row. */
  function CollapseSpaces(s: string): (r: string)
    ensures SingleSpaced(r)
    ensures r == [] <==> s == []
    ensures s != [] ==> (IsSpace(r[0]) <==> IsSpace(s[0]))
    decreases |s|
  {
    if s == [] then []
    else if IsSpace(s[0]) then
      var rest := TrimStart(s);
      var c := CollapseSpaces(rest);
      var r := [' '] + c;
      assert r[1..] == c;
      SingleSpacedCons(' ', c);
      r
    else
      var c := CollapseSpaces(s[1..]);
      var r := [s[0]] + c;
      assert r[1..] == c;
      SingleSpacedCons(s[0], c);
      r
  }

  /** Collapsing whitespace runs keeps every other character, in order. */
  lemma {:induction false} CollapseSpacesKeepsNonSpace(s: string)
    ensures NonSpace(CollapseSpaces(s)) == NonSpace(s)
    decreases |s|
  {
    if s != [] {
      var r := CollapseSpaces(s);
      assert r[1..] == CollapseSpaces(if IsSpace(s[0]) then TrimStart(s) else s[1..]);
      if IsSpace(s[0]) {
        NonSpaceTrimStart(s);
        CollapseSpacesKeepsNonSpace(TrimStart(s));
      } else {
        CollapseSpacesKeepsNonSpace(s[1..]);
      }
    }
  }

  /** Collapsing whitespace runs keeps the words: no run vanishes between
      two words, so the tokens counted afterwards are those of `s`. */
  lemma {:induction false} CollapseSpacesWords(s: string)
    ensures Words(CollapseSpaces(s)) == Words(s)
    decreases |s|
  {
    if s != [] {
      if IsSpace(s[0]) {
        CollapseSpacesWords(TrimStart(s));
        CollapseSpacesWordsOfSpace(s);
      } else {
        CollapseSpacesWords(s[1..]);
        CollapseSpacesWordsOfWord(s);
      }
    }
  }

  lemma CollapseSpacesWordsOfSpace(s: string)
    requires s != [] && IsSpace(s[0])
    requires Words(CollapseSpaces(TrimStart(s))) == Words(TrimStart(s))
    ensures Words(CollapseSpaces(s)) == Words(s)
  {
    assert CollapseSpaces(s) == [' '] + CollapseSpaces(TrimStart(s));
    WordsSpaceCons(' ', CollapseSpaces(TrimStart(s)));
    WordsTrimStart(s);
  }

  lemma ConsSplit(s: string)
    requires s != []
    ensures s == [s[0]] + s[1..]
  {
  }

  lemma CollapseSpacesWordsOfWord(s: string)
    requires s != [] && !IsSpace(s[0])
    requires Words(CollapseSpaces(s[1..])) == Words(s[1..])
    ensures Words(CollapseSpaces(s)) == Words(s)
  {
    var x, t := s[0], s[1..];
    ConsSplit(s);
    var c := CollapseSpaces(t);
    assert CollapseSpaces(s) == [x] + c;
    WordsWordCons(x, c);
    WordsWordCons(x, t);
    if t != [] && !IsSpace(t[0]) {
      assert c != [] && !IsSpace(c[0]);
      assert Words([x] + c) == [[x] + Words(t)[0]] + Words(t)[1..];
    } else {
      assert !(c != [] && !IsSpace(c[0]));
      assert Words([x] + c) == [[x]] + Words(t);
    }
  }

  /** The text whose tokens are counted: fillers removed, whitespace runs
      collapsed, then stripped. */
  function CleanText(s: string): string {
    Strip(CollapseSpaces(RemoveFillers(s)))
  }

  /** Cleaning after filler removal changes whitespace only: the cleaned
      text has the words of the text with the fillers removed. */
  lemma CleanTextWords(s: string)
    ensures Words(CleanText(s)) == Words(RemoveFillers(s))
  {
    CollapseSpacesWords(RemoveFillers(s));
    WordsStrip(CollapseSpaces(RemoveFillers(s)));
  }

  /** The cleaned text neither starts nor ends with whitespace, and its only
      whitespace is single spaces. */
  lemma CleanTextShape(s: string)
    ensures CleanText(s) == [] || (!IsSpace(CleanText(s)[0]) && !IsSpace(CleanText(s)[|CleanText(s)| - 1]))
    ensures SingleSpaced(CleanText(s))
  {
    var t := CollapseSpaces(RemoveFillers(s));
    var c := Strip(t);
    assert OccursAt(c, t, Lead(t));
    SingleSpacedSlice(t, c, Lead(t));
  }

  // ---------------------------------------------------------------------
  // Classifying the checker's matches

  datatype ErrorType = GrammarError | TypographicalError | StyleError | Uncategorized

  const GrammarKeywords: seq<string> := ["AGREEMENT", "SVA", "TENSE", "PRONOUN"]
  const TypographicalKeywords: seq<string> := ["COMMA", "PUNCTUATION", "SPELLING"]
  const StyleKeywords: seq<string> := ["REDUNDANCY", "CLARITY", "WORD_CHOICE"]

  /** Some keyword is a substring of the rule id. */
  ghost predicate Mentions(ruleId: string, keywords: seq<string>) {
    exists k :: 0 <= k < |keywords| && IsSubstring(keywords[k], ruleId)
  }

  /** `'K1' in rule_id or 'K2' in rule_id or ...`. */
  function MentionsAny(ruleId: string, keywords: seq<string>): (b: bool)
    ensures b <==> Mentions(ruleId, keywords)
  {
    if keywords == [] then false
    else
      assert forall k :: 1 <= k < |keywords| ==> keywords[1..][k - 1] == keywords[k];
      Contains(ruleId, keywords[0]) || MentionsAny(ruleId, keywords[1..])
  }

  /** The groups are tried in a fixed order, the first that the rule id
      mentions wins, and a rule id that mentions none is uncategorised. */
  function Categorize(ruleId: string): (t: ErrorType)
    ensures t == GrammarError <==> Mentions(ruleId, GrammarKeywords)
    ensures t == TypographicalError <==>
              !Mentions(ruleId, GrammarKeywords) && Mentions(ruleId, TypographicalKeywords)
    ensures t == StyleError <==>
              !Mentions(ruleId, GrammarKeywords) && !Mentions(ruleId, TypographicalKeywords) &&
              Mentions(ruleId, StyleKeywords)
    ensures t == Uncategorized <==>
              !Mentions(ruleId, GrammarKeywords) && !Mentions(ruleId, TypographicalKeywords) &&
              !Mentions(ruleId, StyleKeywords)
  {
    if MentionsAny(ruleId, GrammarKeywords) then GrammarError
    else if MentionsAny(ruleId, TypographicalKeywords) then TypographicalError
    else if MentionsAny(ruleId, StyleKeywords) then StyleError
    else Uncategorized
  }

  /** A rule id naming both a comma and a pronoun counts as a grammar
      error: the grammar keywords are tested first. */
  lemma CategorizePrecedence(ruleId: string)
    requires IsSubstring("COMMA", ruleId) && IsSubstring("PRONOUN", ruleId)
    ensures Categorize(ruleId) == GrammarError
  {
    assert IsSubstring(GrammarKeywords[3], ruleId);
  }

  /** "COMMA_PRONOUN" is such a rule id. */
  lemma CategorizeCommaPronoun()
    ensures Categorize("COMMA_PRONOUN") == GrammarError
  {
    assert OccursAt("COMMA", "COMMA_PRONOUN", 0);
    assert OccursAt("PRONOUN", "COMMA_PRONOUN", 6);
    CategorizePrecedence("COMMA_PRONOUN");
  }

  /** `penalty_map`: 5, 1, 2 and 3 points. */
  function Penalty(t: ErrorType): (p: nat)
    ensures 1 <= p <= 5
    ensures p == 5 <==> t == GrammarError
    ensures p == 1 <==> t == TypographicalError
  {
    match t
    case GrammarError => 5
    case TypographicalError => 1
    case StyleError => 2
    case Uncategorized => 3
  }

  /** The sum of the penalties of the matches' rule ids: at least one point
      and at most five per match. */
  function TotalPenalty(ruleIds: seq<string>): (total: nat)
    ensures |ruleIds| <= total <= 5 * |ruleIds|
  {
    if ruleIds == [] then 0
    else
      var init := ruleIds[..|ruleIds| - 1];
      assert forall i :: 0 <= i < |init| ==> init[i] == ruleIds[i];
      TotalPenalty(init) + Penalty(Categorize(ruleIds[|ruleIds| - 1]))
  }

  lemma TotalPenaltySnoc(ruleIds: seq<string>, ruleId: string)
    ensures TotalPenalty(ruleIds + [ruleId]) == TotalPenalty(ruleIds) + Penalty(Categorize(ruleId))
  {
    assert (ruleIds + [ruleId])[..|ruleIds|] == ruleIds;
  }

  // ---------------------------------------------------------------------
  // The score

  /** The density score: `(penalty / words) * 50` points off 100, scaled to
      [0, 10]; 10 when there are no words. */
  function DensityScore(totalPenalty: nat, wordCount: nat): (score: real)
    ensures LowerBound <= score <= UpperBound
    ensures wordCount == 0 ==> score == 10.0
    ensures totalPenalty == 0 ==> score == 10.0
    ensures wordCount > 0 && totalPenalty >= 2 * wordCount ==> score == 0.0
  {
    if wordCount > 0 then
      var scaledPenalty := (totalPenalty as real / wordCount as real) * 50.0;
      assert totalPenalty >= 2 * wordCount ==> scaledPenalty >= 100.0 by {
        if totalPenalty >= 2 * wordCount {
          DivAtLeast(totalPenalty as real, wordCount as real, 2.0);
        }
      }
      Min(UpperBound, Max(LowerBound, 100.0 - scaledPenalty) / 10.0)
    else 10.0
  }

  /** For a fixed word count, more penalty never raises the score. */
  lemma DensityMonotoneInPenalty(p: nat, p': nat, w: nat)
    requires p <= p'
    ensures DensityScore(p', w) <= DensityScore(p, w)
  {
    if w > 0 {
      assert p as real / w as real <= p' as real / w as real;
    }
  }

  /** For a fixed penalty, more words never lower the score. With no
      words the score is 10 whatever the penalty, so the comparison starts
      at one word. */
  lemma DensityMonotoneInWords(p: nat, w: nat, w': nat)
    requires 0 < w <= w'
    ensures DensityScore(p, w) <= DensityScore(p, w')
  {
    assert p as real / w' as real <= p as real / w as real by {
      DivAntitone(p as real, w as real, w' as real);
    }
  }

  /** The grammar score: 0 without a checker; otherwise the density score of
      the matches found in the ORIGINAL text over the tokens of the CLEANED
      text. */
  function GrammarScore(text: string, checker: Option<string -> seq<string>>,
                        tokenize: string -> seq<string>): (score: real)
    ensures LowerBound <= score <= UpperBound
    ensures checker.None? ==> score == 0.0
  {
    var words := tokenize(CleanText(text));
    match checker
    case None => 0.0
    case Some(check) => DensityScore(TotalPenalty(check(text)), |words|)
  }

  /** With a checker, the score is the density of the penalties of its
      matches on the original text over the tokens of the cleaned text. */
  lemma GrammarScoreWithChecker(text: string, check: string -> seq<string>,
                                tokenize: string -> seq<string>)
    ensures GrammarScore(text, Some(check), tokenize) ==
            DensityScore(TotalPenalty(check(text)), |tokenize(CleanText(text))|)
  {
  }

  /** With a checker and no tokens in the cleaned text the score is 10. */
  lemma GrammarScoreNoWords(text: string, check: string -> seq<string>, tokenize: string -> seq<string>)
    requires tokenize(CleanText(text)) == []
    ensures GrammarScore(text, Some(check), tokenize) == 10.0
  {
  }

  /** With a checker that finds nothing the score is 10. */
  lemma GrammarScoreNoMatches(text: string, check: string -> seq<string>, tokenize: string -> seq<string>)
    requires check(text) == []
    ensures GrammarScore(text, Some(check), tokenize) == 10.0
  {
  }

  /** The checker sees the original text: two checkers that agree on it
      give the same score, whatever they say about the cleaned text. */
  lemma GrammarScoreChecksOriginal(text: string, check: string -> seq<string>,
                                   check': string -> seq<string>, tokenize: string -> seq<string>)
    requires check(text) == check'(text)
    ensures GrammarScore(text, Some(check), tokenize) == GrammarScore(text, Some(check'), tokenize)
  {
  }

  /** The `for match in match_texts` loop: adds up the penalty of each
      match's category. */
  method SumPenalties(matchTexts: seq<string>) returns (totalPenalty: nat)
    ensures totalPenalty == TotalPenalty(matchTexts)
    ensures |matchTexts| <= totalPenalty <= 5 * |matchTexts|
  {
    totalPenalty := 0;
    var i := 0;
    while i < |matchTexts|
      invariant 0 <= i <= |matchTexts|
      invariant totalPenalty == TotalPenalty(matchTexts[..i])
    {
      var ruleId := matchTexts[i];
      var errorType := Categorize(ruleId);
      totalPenalty := totalPenalty + Penalty(errorType);
      assert matchTexts[..i + 1] == matchTexts[..i] + [ruleId];
      TotalPenaltySnoc(matchTexts[..i], ruleId);
      i := i + 1;
    }
    assert matchTexts[..i] == matchTexts;
  }

  /** The score steps after the penalty loop: scale the penalty per word,
      take it off 100, then divide by 10 and cap. */
  method PenaltyDensityScore(totalPenalty: nat, wordCount: nat) returns (score: real)
    ensures score == DensityScore(totalPenalty, wordCount)
    ensures LowerBound <= score <= UpperBound
  {
    if wordCount > 0 {
      var scaledPenalty := (totalPenalty as real / wordCount as real) * 50.0;
      score := Max(LowerBound, 100.0 - scaledPenalty);
      score := Min(UpperBound, score / 10.0);
    } else {
      score := 10.0;
    }
  }

  /** `calculate_grammar_score`. `checker` is the module-level `lang_tool`
      (`None` when it failed to initialise), returning the rule ids of its
      matches; `tokenize` is `word_tokenize`. */
  method CalculateGrammarScore(text: string, checker: Option<string -> seq<string>>,
                               tokenize: string -> seq<string>) returns (score: real)
    ensures score == GrammarScore(text, checker, tokenize)
    ensures LowerBound <= score <= UpperBound
    ensures checker.None? ==> score == 0.0
  {
    var cleanText := CleanText(text);
    var words := tokenize(cleanText);
    if checker.Some? {
      var matchTexts := checker.value(text);
      var totalPenalty := SumPenalties(matchTexts);
      score := PenaltyDensityScore(totalPenalty, |words|);
      GrammarScoreWithChecker(text, checker.value, tokenize);
      assert checker == Some(checker.value);
    } else {
      score := 0.0;
    }
  }
}
