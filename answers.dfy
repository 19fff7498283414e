/** The answer-quality scorer: each free-text answer is scored by length
    unless it contains a low-effort phrase, and the mean of the scores is
    rounded to two decimals. Per-answer scores are in tenths (0, 2, 5, 9
    for 0.0, 0.2, 0.5, 0.9); the mean is in hundredths. */
module Answers {
  import opened Text
  import opened Numeric

  /** The low-effort phrases; any of them as a substring zeroes an answer. */
  const BAD_PHRASES: seq<string> := [
    "i dont know", "i don't know", "idk", "not sure",
    "no idea", "na", "n/a", "nothing", "nope"
  ]

  predicate HasBadPhrase(txt: string) {
    exists k :: 0 <= k < |BAD_PHRASES| && Contains(txt, BAD_PHRASES[k])
  }

  /** `any(tok in txt for tok in bad_tokens)`: some phrase occurs at some
      index of the text. */
  lemma HasBadPhraseIff(txt: string)
    ensures HasBadPhrase(txt) <==>
            exists k, i :: 0 <= k < |BAD_PHRASES| && OccursAt(txt, BAD_PHRASES[k], i)
  {
    forall k | 0 <= k < |BAD_PHRASES| {
      ContainsIff(txt, BAD_PHRASES[k]);
    }
  }

  /** The text an answer is judged by: stripped, then lower-cased. */
  function Cleaned(answer: string): (txt: string)
    ensures Trimmed(txt)
  {
    LowerStripCommute(answer);
    Lower(Strip(answer))
  }

  /** The score of one answer, in tenths. */
  function AnswerScore(answer: string): (r: nat)
    ensures r in {0, 2, 5, 9}
    ensures r == 0 <==> HasBadPhrase(Cleaned(answer))
    ensures r == 2 <==> !HasBadPhrase(Cleaned(answer)) && |Cleaned(answer)| < 20
    ensures r == 5 <==> !HasBadPhrase(Cleaned(answer)) && 20 <= |Cleaned(answer)| < 50
    ensures r == 9 <==> !HasBadPhrase(Cleaned(answer)) && 50 <= |Cleaned(answer)|
  {
    var txt := Cleaned(answer);
    if HasBadPhrase(txt) then 0
    else if |txt| < 20 then 2
    else if |txt| < 50 then 5
    else 9
  }

  /** A low-effort phrase anywhere in the cleaned text zeroes the answer,
      however long it is. Since "na" is one of the phrases, so does any
      word containing those two letters ("national", "final", ...). */
  lemma PhraseOccurrenceZeroes(answer: string, k: nat, i: nat)
    requires k < |BAD_PHRASES|
    requires OccursAt(Cleaned(answer), BAD_PHRASES[k], i)
    ensures AnswerScore(answer) == 0
  {
    ContainsIff(Cleaned(answer), BAD_PHRASES[k]);
  }

  /** An answer free of the phrases scores by its cleaned length alone, and
      a longer clean answer never scores lower. */
  lemma CleanScoreByLength(a1: string, a2: string)
    requires !HasBadPhrase(Cleaned(a1)) && !HasBadPhrase(Cleaned(a2))
    requires |Cleaned(a1)| <= |Cleaned(a2)|
    ensures 0 < AnswerScore(a1) <= AnswerScore(a2)
  {
  }

  /** Surrounding whitespace and letter case do not change an answer's
      score. */
  lemma ScoreIgnoresPaddingAndCase(answer: string)
    ensures AnswerScore(Strip(answer)) == AnswerScore(answer)
    ensures AnswerScore(Lower(answer)) == AnswerScore(answer)
  {
    StripIdempotent(answer);
    LowerStripCommute(answer);
    LowerIdempotent(Strip(answer));
  }

  /** The `scores` list: one score per answer, each at most 0.9. */
  function Scores(answers: seq<string>): (r: seq<nat>)
    ensures |r| == |answers|
    ensures forall k :: 0 <= k < |r| ==> r[k] <= 9
  {
    seq(|answers|, i requires 0 <= i < |answers| => AnswerScore(answers[i]))
  }

  /** `sum()` of a list of naturals. */
  function Sum(xs: seq<nat>): nat {
    if xs == [] then 0 else xs[0] + Sum(xs[1..])
  }

  /** Each term at most `c` bounds the sum by `c` per term. */
  lemma {:induction false} SumAtMost(xs: seq<nat>, c: nat)
    requires forall k :: 0 <= k < |xs| ==> xs[k] <= c
    ensures Sum(xs) <= c * |xs|
  {
    if xs != [] {
      SumAtMost(xs[1..], c);
    }
  }

  /** Termwise smaller sequences have smaller sums. */
  lemma {:induction false} SumMonotone(xs: seq<nat>, ys: seq<nat>)
    requires |xs| == |ys|
    requires forall k :: 0 <= k < |xs| ==> xs[k] <= ys[k]
    ensures Sum(xs) <= Sum(ys)
  {
    if xs != [] {
      SumMonotone(xs[1..], ys[1..]);
    }
  }

  /** A constant sequence sums to its value times its length. */
  lemma {:induction false} SumConstant(xs: seq<nat>, c: nat)
    requires forall k :: 0 <= k < |xs| ==> xs[k] == c
    ensures Sum(xs) == c * |xs|
  {
    if xs != [] {
      SumConstant(xs[1..], c);
    }
  }

  /** The unrounded mean score in hundredths (0 for no answers). */
  function Mean(answers: seq<string>): (m: Ratio)
    ensures AtMostNat(m, 90)
  {
    if |answers| == 0 then Zero
    else
      SumAtMost(Scores(answers), 9);
      Ratio(10 * Sum(Scores(answers)), |answers|)
  }

  /** `compute_answer_quality`: 0 for no answers, else the mean rounded to
      two decimals, in hundredths; never above 90 (0.9). */
  function Quality(answers: seq<string>): (q: nat)
    ensures q <= 90
    ensures |answers| == 0 ==> q == 0
  {
    RoundAtMost(Mean(answers), 90);
    RoundRatio(Mean(answers))
  }

  /** Quality rounds to 0 exactly when the scores sum to less than a
      twentieth of the number of answers: a single 0.2 among 41 or more
      answers still gives quality 0. */
  lemma QualityZero(answers: seq<string>)
    requires |answers| > 0
    ensures Quality(answers) == 0 <==> 20 * Sum(Scores(answers)) < |answers|
  {
    var total := Sum(Scores(answers));
    assert Quality(answers) == Round(10 * total, |answers|);
    RoundZero(10 * total, |answers|);
  }

  /** When every answer has the same score, the quality is that score. */
  lemma QualityUniform(answers: seq<string>, v: nat)
    requires |answers| > 0
    requires forall k :: 0 <= k < |answers| ==> AnswerScore(answers[k]) == v
    ensures Quality(answers) == 10 * v
  {
    var scores := Scores(answers);
    assert forall k :: 0 <= k < |scores| ==> scores[k] == v;
    SumConstant(scores, v);
    TenfoldMean(v, |answers|);
  }

  /** A mean of `v` tenths over `n` answers is `10 * v` hundredths. */
  lemma TenfoldMean(v: nat, n: Pos)
    ensures Round(10 * (v * n), n) == 10 * v
  {
    assert 10 * (v * n) == (10 * v) * n;
    RoundExact(10 * v, n);
  }

  /** Answer lists of equal length whose scores are termwise ordered have
      ordered quality. */
  lemma QualityMonotone(a1: seq<string>, a2: seq<string>)
    requires |a1| == |a2|
    requires forall k :: 0 <= k < |a1| ==> AnswerScore(a1[k]) <= AnswerScore(a2[k])
    ensures Quality(a1) <= Quality(a2)
  {
    if |a1| > 0 {
      var s1, s2 := Scores(a1), Scores(a2);
      SumMonotone(s1, s2);
      MulMono(10 * Sum(s1), 10 * Sum(s2), |a1|);
      assert AtMost(Mean(a1), Mean(a2));
      RoundMonotone(Mean(a1), Mean(a2));
    }
  }

  /** With five answers, as many as the question generator asks for, the mean
      is already a whole number of hundredths, so rounding does not change
      it. */
  lemma QualityOfFive(answers: seq<string>)
    requires |answers| == 5
    ensures Quality(answers) * 5 == 10 * Sum(Scores(answers))
  {
    var total := Sum(Scores(answers));
    assert 10 * total == (2 * total) * 5;
    RoundExact(2 * total, 5);
  }

  /** The scoring loop of `compute_answer_quality`. */
  method AnswerQuality(answers: seq<string>) returns (q: nat)
    ensures q == Quality(answers)
  {
    if |answers| == 0 {
      return 0;
    }
    var scores: seq<nat> := [];
    for i := 0 to |answers|
      invariant |scores| == i
      invariant forall k :: 0 <= k < i ==> scores[k] == AnswerScore(answers[k])
    {
      var txt := Cleaned(answers[i]);
      ghost var expected := AnswerScore(answers[i]);
      if HasBadPhrase(txt) {
        scores := scores + [0];
        assert scores[i] == expected;
        continue;
      }
      if |txt| < 20 {
        scores := scores + [2];
      } else if |txt| < 50 {
        scores := scores + [5];
      } else {
        scores := scores + [9];
      }
      assert scores[i] == expected;
    }
    assert scores == Scores(answers);
    q := Round(10 * Sum(scores), |scores|);
    assert Mean(answers) == Ratio(10 * Sum(scores), |scores|);
  }
}
