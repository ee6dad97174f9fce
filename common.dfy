/** Values and text helpers shared by the four scorers and the job store:
    the transcriber's output, the [0, 10] clamp, two-decimal rounding, and
    the few string operations of Python's `str` and `re` the scorers use. */
module Common {

  datatype Option<T> = None | Some(value: T)

  /** One entry of the transcriber's word-level timestamp list. */
  datatype WordTiming = WordTiming(word: string, start: real, end: real)

  /** The part of the transcriber's output the scorers read: the text and
      the word timestamps. */
  datatype Transcript = Transcript(text: string, words: seq<WordTiming>)

  /** LOWER_BOUND and UPPER_BOUND of every scorer. */
  const LowerBound: real := 0.0
  const UpperBound: real := 10.0

  /** Python's `min` and `max` on two numbers. */
  function Min(a: real, b: real): real { if b < a then b else a }
  function Max(a: real, b: real): real { if b > a then b else a }

  /** `max(LOWER_BOUND, min(x, UPPER_BOUND))`, the clamp every scorer ends with. */
  function Clamp(x: real): (r: real)
    ensures LowerBound <= r <= UpperBound
    ensures LowerBound <= x <= UpperBound ==> r == x
    ensures x < LowerBound ==> r == LowerBound
    ensures x > UpperBound ==> r == UpperBound
  {
    Max(LowerBound, Min(x, UpperBound))
  }

  lemma ClampMonotone(x: real, y: real)
    requires x <= y
    ensures Clamp(x) <= Clamp(y)
  {
  }

  /** The number with `k` hundredths. */
  function Hundredths(k: int): real {
    k as real / 100.0
  }

  /** `round(x, 2)`: the nearest multiple of 1/100, a half rounded up. */
  function Round2(x: real): (r: real)
    ensures exists k: int :: r == Hundredths(k)
    ensures x - 0.005 < r <= x + 0.005
  {
    Hundredths((x * 100.0 + 0.5).Floor)
  }

  lemma Round2Monotone(x: real, y: real)
    requires x <= y
    ensures Round2(x) <= Round2(y)
  {
    assert (x * 100.0 + 0.5).Floor <= (y * 100.0 + 0.5).Floor;
  }

  /** Rounding keeps a score inside [0, 10]. */
  lemma Round2Bounded(x: real)
    requires LowerBound <= x <= UpperBound
    ensures LowerBound <= Round2(x) <= UpperBound
  {
    var n := (x * 100.0 + 0.5).Floor;
    assert n as real <= 1000.5;
    assert 0 <= n <= 1000;
  }

  /** A value that already has two decimals is left as it is, so rounding
      twice is rounding once. */
  lemma Round2OfHundredths(k: int)
    ensures Round2(k as real / 100.0) == k as real / 100.0
  {
    var x := k as real / 100.0;
    assert x * 100.0 + 0.5 == k as real + 0.5;
    assert (k as real + 0.5).Floor == k;
  }

  lemma Round2Idempotent(x: real)
    ensures Round2(Round2(x)) == Round2(x)
  {
    Round2OfHundredths((x * 100.0 + 0.5).Floor);
  }

  // ---------------------------------------------------------------------
  // Division facts the scorers' guarded quotients need

  lemma DivTimes(x: real, a: real, q: real)
    requires a > 0.0 && q == x / a
    ensures q * a == x
  {
  }

  lemma DivAtLeast(x: real, a: real, t: real)
    requires a > 0.0 && t * a <= x
    ensures t <= x / a
  {
  }

  lemma DivAbove(x: real, a: real, t: real)
    requires a > 0.0 && a * t < x
    ensures x / a > t
  {
  }

  lemma DivAntitone(x: real, a: real, b: real)
    requires x >= 0.0 && 0.0 < a <= b
    ensures x / b <= x / a
  {
    assert x / b * b == x;
    assert x / a * a == x;
    assert x / b * a <= x / b * b;
  }

  // ---------------------------------------------------------------------
  // Characters

  /** Python's `str.isspace` (and the `\s` of a `str` regex): the ASCII
      controls TAB..CR and FS..US, the space, and the Unicode spaces. */
  predicate IsSpace(c: char) {
    var n := c as int;
    (9 <= n <= 13) || (28 <= n <= 32) || n == 0x85 || n == 0xA0 || n == 0x1680 ||
    (0x2000 <= n <= 0x200A) || n == 0x2028 || n == 0x2029 || n == 0x202F ||
    n == 0x205F || n == 0x3000
  }

  predicate IsAsciiUpper(c: char) { 'A' <= c <= 'Z' }
  predicate IsAsciiLower(c: char) { 'a' <= c <= 'z' }
  predicate IsAsciiDigit(c: char) { '0' <= c <= '9' }

  /** `str.isalpha` on one character (ASCII letters). */
  predicate IsAlpha(c: char) { IsAsciiUpper(c) || IsAsciiLower(c) }

  /** A character of the regex class `\w` (ASCII letters, digits and `_`). */
  predicate IsWordChar(c: char) { IsAlpha(c) || IsAsciiDigit(c) || c == '_' }

  /** `str.lower()` on one character (ASCII letters): an upper-case
      letter becomes the same letter in lower case, anything else stays. */
  function LowerChar(c: char): (d: char)
    ensures !IsAsciiUpper(c) ==> d == c
    ensures IsAsciiUpper(c) ==> IsAsciiLower(d) && d as int - 'a' as int == c as int - 'A' as int
    ensures !IsAsciiUpper(d)
    ensures IsSpace(d) <==> IsSpace(c)
    ensures IsAlpha(d) <==> IsAlpha(c)
  {
    if IsAsciiUpper(c) then (c as int + 32) as char else c
  }

  // ---------------------------------------------------------------------
  // Strings

  /** `str.lower()` (ASCII letters). */
  function Lower(s: string): (r: string)
    ensures |r| == |s|
    ensures forall i :: 0 <= i < |s| ==> r[i] == LowerChar(s[i])
  {
    seq(|s|, i requires 0 <= i < |s| => LowerChar(s[i]))
  }

  lemma LowerIdempotent(s: string)
    ensures Lower(Lower(s)) == Lower(s)
  {
  }

  /** Leading whitespace removed. */
  function TrimStart(s: string): (r: string)
    ensures |r| <= |s| && r == s[|s| - |r|..]
    ensures r == [] || !IsSpace(r[0])
    ensures forall i :: 0 <= i < |s| - |r| ==> IsSpace(s[i])
  {
    if s != [] && IsSpace(s[0]) then TrimStart(s[1..]) else s
  }

  /** Trailing whitespace removed. */
  function TrimEnd(s: string): (r: string)
    ensures |r| <= |s| && r == s[..|r|]
    ensures r == [] || !IsSpace(r[|r| - 1])
    ensures forall i :: |r| <= i < |s| ==> IsSpace(s[i])
  {
    if s != [] && IsSpace(s[|s| - 1]) then TrimEnd(s[..|s| - 1]) else s
  }

  /** Every character of `s` is whitespace. */
  predicate AllSpace(s: string) {
    forall i :: 0 <= i < |s| ==> IsSpace(s[i])
  }

  /** The number of whitespace characters `s` starts with. */
  function Lead(s: string): nat {
    |s| - |TrimStart(s)|
  }

  /** `str.strip()`: `s` with its leading and trailing whitespace dropped,
      the slice between the two whitespace ends. */
  function Strip(s: string): (r: string)
    ensures r == [] || (!IsSpace(r[0]) && !IsSpace(r[|r| - 1]))
    ensures Lead(s) + |r| <= |s| && r == s[Lead(s)..Lead(s) + |r|]
    ensures AllSpace(s[..Lead(s)]) && AllSpace(s[Lead(s) + |r|..])
  {
    var t := TrimStart(s);
    var r := TrimEnd(t);
    StripSlice(s, t, r);
    r
  }

  lemma StripSlice(s: string, t: string, r: string)
    requires |t| <= |s| && t == s[|s| - |t|..]
    requires |r| <= |t| && r == t[..|r|]
    ensures r == s[|s| - |t|..|s| - |t| + |r|]
    ensures forall i :: |s| - |t| + |r| <= i < |s| ==> s[i] == t[i - (|s| - |t|)]
  {
  }

  lemma TrimStartOfClean(s: string)
    requires s == [] || !IsSpace(s[0])
    ensures TrimStart(s) == s
  {
  }

  lemma TrimEndOfClean(s: string)
    requires s == [] || !IsSpace(s[|s| - 1])
    ensures TrimEnd(s) == s
  {
  }

  lemma StripIdempotent(s: string)
    ensures Strip(Strip(s)) == Strip(s)
  {
    var r := Strip(s);
    TrimStartOfClean(r);
    TrimEndOfClean(r);
  }

  /** Lowering and stripping commute, since lowering changes no character's
      whitespace class. */
  lemma {:induction false} StripLowerCommute(s: string)
    ensures Strip(Lower(s)) == Lower(Strip(s))
  {
    TrimStartLower(s);
    TrimEndLower(TrimStart(s));
  }

  lemma {:induction false} TrimStartLower(s: string)
    ensures TrimStart(Lower(s)) == Lower(TrimStart(s))
    decreases |s|
  {
    if s != [] && IsSpace(s[0]) {
      assert Lower(s)[1..] == Lower(s[1..]);
      TrimStartLower(s[1..]);
    }
  }

  lemma {:induction false} TrimEndLower(s: string)
    ensures TrimEnd(Lower(s)) == Lower(TrimEnd(s))
    decreases |s|
  {
    if s != [] && IsSpace(s[|s| - 1]) {
      assert Lower(s)[..|s| - 1] == Lower(s[..|s| - 1]);
      TrimEndLower(s[..|s| - 1]);
    }
  }

  /** Every position of `p` moved `d` to the left. */
  function Shift(p: seq<int>, d: int): (q: seq<int>)
    ensures |q| == |p| && forall j :: 0 <= j < |p| ==> q[j] == p[j] - d
  {
    seq(|p|, j requires 0 <= j < |p| => p[j] - d)
  }

  /** `needle` stands in `hay` at index `i`. */
  predicate OccursAt(needle: string, hay: string, i: int) {
    0 <= i <= |hay| - |needle| && hay[i..i + |needle|] == needle
  }

  /** Python's `needle in hay` on strings. */
  ghost predicate IsSubstring(needle: string, hay: string) {
    exists i :: OccursAt(needle, hay, i)
  }

  /** A left-to-right search for `needle` in `hay`; true exactly when
      `needle in hay`. */
  function Contains(hay: string, needle: string): (b: bool)
    ensures b <==> IsSubstring(needle, hay)
    decreases |hay|
  {
    if |hay| < |needle| then false
    else if hay[..|needle|] == needle then
      assert OccursAt(needle, hay, 0);
      true
    else
      var b := Contains(hay[1..], needle);
      assert b ==> IsSubstring(needle, hay) by {
        if b {
          var i :| OccursAt(needle, hay[1..], i);
          assert hay[i + 1..i + 1 + |needle|] == hay[1..][i..i + |needle|];
          assert OccursAt(needle, hay, i + 1);
        }
      }
      assert IsSubstring(needle, hay) ==> b by {
        if IsSubstring(needle, hay) {
          var i :| OccursAt(needle, hay, i);
          assert i != 0;
          assert hay[1..][i - 1..i - 1 + |needle|] == hay[i..i + |needle|];
          assert OccursAt(needle, hay[1..], i - 1);
        }
      }
      b
  }
}
