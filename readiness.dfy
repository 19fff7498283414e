/** The readiness combiner: 10 * (0.55 * skill + 0.45 * quality), capped at
    2.5 when the skill match is zero and otherwise at 3.0 when answer quality
    is below 0.25, then rounded to one decimal. Skill is a ratio, quality is
    in hundredths and readiness is in tenths. */
module Readiness {
  import opened Numeric

  /** Cap applied when the skill match is zero: 2.5, in tenths. */
  const SKILL_ZERO_CAP: nat := 25
  /** Cap applied when answer quality is poor: 3.0, in tenths. */
  const LOW_QUALITY_CAP: nat := 30
  /** Answer quality below 0.25 (in hundredths) is poor. */
  const LOW_QUALITY_BELOW: nat := 25

  /** `base * 10` before rounding, in tenths:
      100 * (0.55 * n/d + 0.45 * q/100) = (5500 n + 45 q d) / (100 d).
      With no overlap only the answers' weight 0.45 counts; a full match adds
      the whole skill weight 0.55. */
  function Unrounded(skill: Ratio, quality: nat): (u: Ratio)
    ensures skill.num == 0 ==> SameValue(u, Ratio(45 * quality, 100))
    ensures skill.num == skill.den ==> SameValue(u, Ratio(5500 + 45 * quality, 100))
  {
    var u := Ratio(5500 * skill.num + 45 * quality * skill.den, 100 * skill.den);
    assert skill.num == skill.den ==> u.num == (5500 + 45 * quality) * skill.den;
    u
  }

  /** `min(x, c)`. */
  function Cap(x: Ratio, c: nat): (r: Ratio)
    ensures AtMost(r, x) && AtMostNat(r, c)
    ensures AtMostNat(x, c) ==> r == x
    ensures !AtMostNat(x, c) ==> r == Ratio(c, 1)
  {
    if AtMostNat(x, c) then x else Ratio(c, 1)
  }

  function Min(a: nat, b: nat): nat {
    if a <= b then a else b
  }

  /** Rounding a capped score is capping the rounded score: a cap that
      bites rounds to itself and lies below the rounded score, and a cap
      that does not bite lies above it. */
  lemma CapRounds(x: Ratio, c: nat)
    ensures RoundRatio(Cap(x, c)) == Min(RoundRatio(x), c)
  {
    if AtMostNat(x, c) {
      RoundAtMost(x, c);
    } else {
      RoundExact(c, 1);
      RoundMonotone(Ratio(c, 1), x);
    }
  }

  /** `compute_final_readiness`, in tenths. The zero-skill cap takes
      precedence over the low-quality cap; a cap only ever lowers the score,
      and leaves it alone when the score is already below it. */
  function FinalReadiness(skill: Ratio, quality: nat): (r: nat)
    ensures skill.num == 0 ==> r == Min(RoundRatio(Unrounded(skill, quality)), SKILL_ZERO_CAP)
    ensures skill.num == 0 ==> r <= SKILL_ZERO_CAP
    ensures skill.num != 0 && quality < LOW_QUALITY_BELOW ==>
              r == Min(RoundRatio(Unrounded(skill, quality)), LOW_QUALITY_CAP)
    ensures skill.num != 0 && quality < LOW_QUALITY_BELOW ==> r <= LOW_QUALITY_CAP
    ensures skill.num != 0 && quality >= LOW_QUALITY_BELOW ==> r == RoundRatio(Unrounded(skill, quality))
    ensures r <= RoundRatio(Unrounded(skill, quality))
    ensures AtMostNat(Unrounded(skill, quality), if skill.num == 0 then SKILL_ZERO_CAP else LOW_QUALITY_CAP)
            ==> r == RoundRatio(Unrounded(skill, quality))
  {
    var score := Unrounded(skill, quality);
    var c := if skill.num == 0 then SKILL_ZERO_CAP else LOW_QUALITY_CAP;
    var r :=
      if skill.num == 0 then RoundRatio(Cap(score, SKILL_ZERO_CAP))
      else if quality < LOW_QUALITY_BELOW then RoundRatio(Cap(score, LOW_QUALITY_CAP))
      else RoundRatio(score);
    CapRounds(score, c);
    r
  }

  /** With the skill ratio in [0, 1] and quality in [0, 0.9] the unrounded
      score is at most 9.55, and the readiness at most 9.6. */
  lemma ReadinessCeiling(skill: Ratio, quality: nat)
    requires skill.num <= skill.den && quality <= 90
    ensures AtMost(Unrounded(skill, quality), Ratio(191, 2))
    ensures FinalReadiness(skill, quality) <= 96
  {
    var u := Unrounded(skill, quality);
    MulMono(skill.num, skill.den, 5500);
    MulMono(quality, 90, 45 * skill.den);
    assert u.num <= 9550 * skill.den;
    assert u.num * 2 <= 191 * u.den;
    RoundAtMost(u, 96);
  }

  /** The ceiling is reached by a full skill match with the best answers. */
  lemma ReadinessCeilingReached()
    ensures FinalReadiness(Ratio(1, 1), 90) == 96
  {
  }

  /** A cap never raises the score, and a larger cap of a larger score is
      larger. */
  lemma CapMonotone(x: Ratio, y: Ratio, c1: nat, c2: nat)
    requires AtMost(x, y) && c1 <= c2
    ensures AtMost(Cap(x, c1), Cap(y, c2))
  {
    if AtMostNat(x, c1) {
      if !AtMostNat(y, c2) {
        // x <= c1 <= c2
        MulMono(c1, c2, x.den);
      }
    } else {
      if AtMostNat(y, c2) {
        // c1 < x <= y
        MulMono(c1 * x.den, x.num, y.den);
        MulMono(x.num, y.num, 1);
        assert c1 * x.den * y.den <= x.num * y.den <= y.num * x.den;
        CancelLeRight(c1 * y.den, y.num, x.den);
      }
    }
  }

  lemma CancelLeRight(a: int, b: int, d: Pos)
    requires a * d <= b * d
    ensures a <= b
  {
    MulMono(b + 1, a, d);
  }

  /** The unrounded score grows with the skill ratio and with quality. */
  lemma UnroundedMonotone(s1: Ratio, q1: nat, s2: Ratio, q2: nat)
    requires AtMost(s1, s2) && q1 <= q2
    ensures AtMost(Unrounded(s1, q1), Unrounded(s2, q2))
  {
    var u1, u2 := Unrounded(s1, q1), Unrounded(s2, q2);
    var d1, d2 := s1.den, s2.den;
    calc {
      u1.num * u2.den;
    ==
      100 * (5500 * (s1.num * d2) + 45 * q1 * d1 * d2);
    <= { MulMono(q1, q2, 45 * d1 * d2); }
      100 * (5500 * (s1.num * d2) + 45 * q2 * d1 * d2);
    <=
      100 * (5500 * (s2.num * d1) + 45 * q2 * d1 * d2);
    ==
      u2.num * u1.den;
    }
  }

  /** More skill overlap or better answers never lower readiness. */
  lemma ReadinessMonotone(s1: Ratio, q1: nat, s2: Ratio, q2: nat)
    requires AtMost(s1, s2) && q1 <= q2
    ensures FinalReadiness(s1, q1) <= FinalReadiness(s2, q2)
  {
    var u1, u2 := Unrounded(s1, q1), Unrounded(s2, q2);
    UnroundedMonotone(s1, q1, s2, q2);
    if s2.num == 0 {
      assert s1.num == 0;
      CapMonotone(u1, u2, SKILL_ZERO_CAP, SKILL_ZERO_CAP);
      RoundMonotone(Cap(u1, SKILL_ZERO_CAP), Cap(u2, SKILL_ZERO_CAP));
    } else if q2 < LOW_QUALITY_BELOW {
      var c1 := if s1.num == 0 then SKILL_ZERO_CAP else LOW_QUALITY_CAP;
      CapMonotone(u1, u2, c1, LOW_QUALITY_CAP);
      RoundMonotone(Cap(u1, c1), Cap(u2, LOW_QUALITY_CAP));
    } else {
      RoundMonotone(u1, u2);
    }
  }
}
