/**
 * The scorer of the typing speed test: the fixed sentences, the count of correctly
 * typed characters, the word count, `Math.round` on non-negative ratios, accuracy,
 * words per minute and the progress bar.
 */
module Scoring {
  import opened Text

  /** The sentences the test cycles through, in order. */
  const Sentences: seq<string> := [
    "The quick brown fox jumps over the lazy dog.",
    "She sells seashells by the seashore.",
    "How much wood would a woodchuck chuck if a woodchuck could chuck wood?",
    "Peter Piper picked a peck of pickled peppers.",
    "I scream, you scream, we all scream for ice cream!"
  ]

  /** The sentence at index `i`: never empty, and shorter than 200 characters. */
  function Sentence(i: nat): (s: string)
    requires i < |Sentences|
    ensures 0 < |s| < 200
  {
    Sentences[i]
  }

  // ---------------------------------------------------------------- rounding

  /** `Math.round(num / den)` for a non-negative ratio: the integer nearest to the
      ratio, halves rounded up, in integer form (RoundedRatioNearest restates it on
      real numbers). */
  function RoundedRatio(num: nat, den: nat): (r: nat)
    requires den > 0
    ensures Brackets(num, den, r)
  {
    var n: int, d: int := 2 * num + den, 2 * den;
    assert n == d * (n / d) + n % d;
    n / d
  }

  /** `r - 1/2 <= num / den < r + 1/2`, multiplied out by `2 * den`. */
  predicate Brackets(num: nat, den: nat, r: int) {
    2 * den * r <= 2 * num + den < 2 * den * r + 2 * den
  }

  /** The rounded ratio lies within one half of the exact ratio, halves rounded up. */
  lemma RoundedRatioNearest(num: nat, den: nat)
    requires den > 0
    ensures var r := RoundedRatio(num, den);
      r as real - 0.5 <= num as real / den as real < r as real + 0.5
  {
    var r := RoundedRatio(num, den);
    var n, d, rr := num as real, den as real, r as real;
    CastProduct(den, r);
    var p := d * rr;
    assert (den * r) as real == p;
    assert 2 * (den * r) <= 2 * num + den < 2 * (den * r) + 2 * den;
    assert 2.0 * p <= 2.0 * n + d < 2.0 * p + 2.0 * d;
    assert (rr - 0.5) * d == p - 0.5 * d;
    assert (rr + 0.5) * d == p + 0.5 * d;
    LeDiv(rr - 0.5, n, d);
    DivLt(n, rr + 0.5, d);
  }

  lemma LeDiv(x: real, y: real, d: real)
    requires d > 0.0 && x * d <= y
    ensures x <= y / d
  {
  }

  lemma DivLt(y: real, x: real, d: real)
    requires d > 0.0 && y < x * d
    ensures y / d < x
  {
  }

  lemma {:induction false} CastProduct(a: nat, b: nat)
    ensures (a * b) as real == a as real * b as real
  {
    if b > 0 {
      CastProduct(a, b - 1);
      assert a * b == a * (b - 1) + a;
    }
  }

  lemma MulMonotonic(d: int, a: int, b: int)
    requires d > 0 && a <= b
    ensures d * a <= d * b
  {
    assert d * b - d * a == d * (b - a);
  }

  /** At most one integer brackets a ratio. */
  lemma BracketsUnique(num: nat, den: nat, r1: int, r2: int)
    requires den > 0 && Brackets(num, den, r1) && Brackets(num, den, r2)
    ensures r1 == r2
  {
    if r1 < r2 {
      MulMonotonic(2 * den, r1 + 1, r2);
    } else if r2 < r1 {
      MulMonotonic(2 * den, r2 + 1, r1);
    }
  }

  /** The integer that brackets `num / den + 1/2` is the rounded ratio. */
  lemma RoundedRatioIs(num: nat, den: nat, r: nat)
    requires den > 0 && Brackets(num, den, r)
    ensures RoundedRatio(num, den) == r
  {
    BracketsUnique(num, den, r, RoundedRatio(num, den));
  }

  /** Rounding is exact on whole numbers. */
  lemma RoundedRatioOfMultiple(k: nat, den: nat)
    requires den > 0
    ensures RoundedRatio(k * den, den) == k
  {
    assert 2 * den * k == 2 * (k * den);
    RoundedRatioIs(k * den, den, k);
  }

  /** Rounding never decreases when the numerator grows. */
  lemma RoundedRatioMonotonic(num1: nat, num2: nat, den: nat)
    requires den > 0 && num1 <= num2
    ensures RoundedRatio(num1, den) <= RoundedRatio(num2, den)
  {
    var r1, r2 := RoundedRatio(num1, den), RoundedRatio(num2, den);
    if r2 < r1 {
      MulMonotonic(2 * den, r2 + 1, r1);
    }
  }

  /** A ratio more than half a unit below `k` rounds to less than `k`. */
  lemma RoundedRatioBelow(num: nat, den: nat, k: nat)
    requires den > 0 && 2 * num + den < 2 * den * k
    ensures RoundedRatio(num, den) < k
  {
    var r := RoundedRatio(num, den);
    if k <= r {
      MulMonotonic(2 * den, k, r);
    }
  }

  // ---------------------------------------------------------------- accuracy

  /** Number of positions `i < n` of `sentence` at which `typed` holds the same
      character; a position at or past the end of `typed` never counts. */
  function MatchesBelow(sentence: string, typed: string, n: nat): (c: nat)
    requires n <= |sentence|
    ensures c <= n && c <= |typed|
  {
    if n == 0 then 0
    else
      var here := if n - 1 < |typed| && sentence[n - 1] == typed[n - 1] then 1 else 0;
      MatchesBelow(sentence, typed, n - 1) + here
  }

  /** The characters of `sentence` that `typed` matches position by position. */
  function CorrectChars(sentence: string, typed: string): (c: nat)
    ensures c <= |sentence| && c <= |typed|
  {
    MatchesBelow(sentence, typed, |sentence|)
  }

  /** Every one of the first `n` positions matches exactly when `typed` starts with
      the first `n` characters of `sentence`. */
  lemma {:induction false} AllMatchBelow(sentence: string, typed: string, n: nat)
    requires n <= |sentence|
    ensures MatchesBelow(sentence, typed, n) == n
      <==> n <= |typed| && typed[..n] == sentence[..n]
  {
    if n > 0 {
      AllMatchBelow(sentence, typed, n - 1);
      if n <= |typed| && typed[..n] == sentence[..n] {
        assert typed[..n - 1] == typed[..n][..n - 1];
        assert sentence[..n - 1] == sentence[..n][..n - 1];
        assert typed[n - 1] == typed[..n][n - 1];
      }
      if MatchesBelow(sentence, typed, n) == n {
        assert typed[..n] == typed[..n - 1] + [typed[n - 1]];
        assert sentence[..n] == sentence[..n - 1] + [sentence[n - 1]];
      }
    }
  }

  /** None of the first `n` positions matches exactly when the count is zero. */
  lemma {:induction false} NoneMatchBelow(sentence: string, typed: string, n: nat)
    requires n <= |sentence|
    ensures MatchesBelow(sentence, typed, n) == 0
      <==> forall i :: 0 <= i < n && i < |typed| ==> sentence[i] != typed[i]
  {
    if n > 0 {
      NoneMatchBelow(sentence, typed, n - 1);
    }
  }

  /** Characters typed past the sentence do not change the count. */
  lemma {:induction false} MatchesIgnoreExtra(sentence: string, typed: string, extra: string, n: nat)
    requires n <= |sentence| <= |typed|
    ensures MatchesBelow(sentence, typed + extra, n) == MatchesBelow(sentence, typed, n)
  {
    if n > 0 {
      MatchesIgnoreExtra(sentence, typed, extra, n - 1);
      assert (typed + extra)[n - 1] == typed[n - 1];
    }
  }

  /** `Math.round(correctChars / sentence.length * 100)`: the percentage of the
      sentence typed correctly, rounded to the nearest integer, halves up. */
  function Accuracy(sentence: string, typed: string): (a: nat)
    requires |sentence| > 0
    ensures Brackets(100 * CorrectChars(sentence, typed), |sentence|, a)
    ensures a <= 100
  {
    var c := CorrectChars(sentence, typed);
    RoundedRatioMonotonic(100 * c, 100 * |sentence|, |sentence|);
    RoundedRatioOfMultiple(100, |sentence|);
    RoundedRatio(100 * c, |sentence|)
  }

  /** Typing the sentence, possibly followed by anything, scores 100; for a sentence
      shorter than 200 characters nothing else does. */
  lemma FullAccuracy(sentence: string, typed: string)
    requires 0 < |sentence| < 200
    ensures Accuracy(sentence, typed) == 100
      <==> |sentence| <= |typed| && typed[..|sentence|] == sentence
  {
    var n := |sentence|;
    var c := CorrectChars(sentence, typed);
    AllMatchBelow(sentence, typed, n);
    assert sentence[..n] == sentence;
    if c == n {
      RoundedRatioOfMultiple(100, n);
    } else {
      RoundedRatioBelow(100 * c, n, 100);
    }
  }

  /** Typing nothing that matches in place scores 0; for a sentence of at most 200
      characters nothing else does. */
  lemma ZeroAccuracy(sentence: string, typed: string)
    requires 0 < |sentence| <= 200
    ensures Accuracy(sentence, typed) == 0
      <==> forall i :: 0 <= i < |sentence| && i < |typed| ==> sentence[i] != typed[i]
  {
    var n := |sentence|;
    var c := CorrectChars(sentence, typed);
    NoneMatchBelow(sentence, typed, n);
    if c == 0 {
      RoundedRatioOfMultiple(0, n);
    } else {
      RoundedRatioMonotonic(100, 100 * c, n);
    }
  }

  /** Characters typed past the end of the sentence are neither penalised nor
      rewarded. */
  lemma AccuracyIgnoresExtra(sentence: string, typed: string, extra: string)
    requires 0 < |sentence| <= |typed|
    ensures Accuracy(sentence, typed + extra) == Accuracy(sentence, typed)
  {
    MatchesIgnoreExtra(sentence, typed, extra, |sentence|);
  }

  // ---------------------------------------------------------------- speed

  /** `text.trim().split(/\s+/).length`: never below one, even for blank text. */
  function WordCount(text: string): (n: nat)
    ensures n >= 1
  {
    |Split(Trim(text))|
  }

  /** Blank text counts as one word. */
  lemma BlankIsOneWord(text: string)
    requires AllSpace(text)
    ensures WordCount(text) == 1
  {
  }

  /** There is one word more than there are runs of white space inside the trimmed
      text. */
  lemma WordCountIsRunsPlusOne(text: string)
    ensures WordCount(text) == 1 + SpaceRuns(Trim(text), false)
  {
    SplitCount(Trim(text));
  }

  /** Unless the text is blank, every word counted is non-empty and free of white
      space, and the words together hold every non-space character of the text, in
      order (where each word ends is given by Split, and only their number is used). */
  lemma WordsAreTokens(text: string)
    requires !AllSpace(text)
    ensures var words := Split(Trim(text));
      && (forall k :: 0 <= k < |words| ==> words[k] != [] && NoSpace(words[k]))
      && Concat(words) == NonSpaceChars(text)
  {
    var t := Trim(text);
    LaterPiecesNonEmpty(t);
    SplitLosesOnlySpace(t);
    TrimKeepsNonSpace(text);
  }

  /** Text without white space is one word. */
  lemma SingleWord(text: string)
    requires text != [] && NoSpace(text)
    ensures WordCount(text) == 1
  {
    assert TrimStart(text) == text;
    assert TrimEnd(text) == text;
    SplitCount(text);
    NoRuns(text);
  }

  lemma {:induction false} NoRuns(s: string)
    requires NoSpace(s)
    ensures SpaceRuns(s, false) == 0
  {
    if s != [] {
      NoRuns(s[1..]);
    }
  }

  /** `Math.round(words / minutes)` with the elapsed time in milliseconds. */
  function Wpm(words: nat, elapsedMs: nat): (w: nat)
    requires elapsedMs > 0
    ensures Brackets(words * 60000, elapsedMs, w)
  {
    RoundedRatio(words * 60000, elapsedMs)
  }

  /** Over exactly one minute the speed is the word count. */
  lemma WpmOverOneMinute(words: nat)
    ensures Wpm(words, 60000) == words
  {
    RoundedRatioOfMultiple(words, 60000);
  }

  /** More words in the same time never lowers the speed. */
  lemma WpmMonotonic(words1: nat, words2: nat, elapsedMs: nat)
    requires elapsedMs > 0 && words1 <= words2
    ensures Wpm(words1, elapsedMs) <= Wpm(words2, elapsedMs)
  {
    RoundedRatioMonotonic(words1 * 60000, words2 * 60000, elapsedMs);
  }

  // ---------------------------------------------------------------- progress

  /** `Math.min(100, typedLength / sentenceLength * 100)`. */
  function Progress(typedLength: nat, sentenceLength: nat): (p: real)
    requires sentenceLength > 0
    ensures 0.0 <= p <= 100.0
    ensures p == 100.0 <==> typedLength >= sentenceLength
    ensures p < 100.0 ==> p * sentenceLength as real == 100.0 * typedLength as real
  {
    var ratio := typedLength as real / sentenceLength as real * 100.0;
    if ratio < 100.0 then ratio else 100.0
  }

  /** Typing more never moves the progress bar back. */
  lemma ProgressMonotonic(len1: nat, len2: nat, sentenceLength: nat)
    requires sentenceLength > 0 && len1 <= len2
    ensures Progress(len1, sentenceLength) <= Progress(len2, sentenceLength)
  {
    assert len1 as real / sentenceLength as real <= len2 as real / sentenceLength as real;
  }

  // ---------------------------------------------------------------- scenarios

  /** "cat" typed as "cat" in one minute: one word per minute, accuracy 100. */
  lemma ScenarioExact()
    ensures WordCount("cat") == 1
    ensures Wpm(WordCount("cat"), 60000) == 1
    ensures Accuracy("cat", "cat") == 100
  {
    SingleWord("cat");
    WpmOverOneMinute(1);
    FullAccuracy("cat", "cat");
    assert "cat"[..3] == "cat";
  }

  /** "cat" typed as "cbt" in half a minute: two of three characters, 67 percent,
      two words per minute. */
  lemma ScenarioOneTypo()
    ensures CorrectChars("cat", "cbt") == 2
    ensures Accuracy("cat", "cbt") == 67
    ensures Wpm(WordCount("cbt"), 30000) == 2
  {
    assert MatchesBelow("cat", "cbt", 1) == 1;
    assert MatchesBelow("cat", "cbt", 2) == 1;
    assert MatchesBelow("cat", "cbt", 3) == 2;
    RoundedRatioIs(200, 3, 67);
    SingleWord("cbt");
    RoundedRatioIs(60000, 30000, 2);
  }
}
