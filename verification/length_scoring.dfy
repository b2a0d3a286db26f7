/** The length score: a step function of the password length with inclusive
    lower thresholds 8, 12, 16, 20 and 24. */
module LengthScoring {

  /** lengthScore, as the cascade of early returns in PasswordStrength.java. */
  function LengthScore(s: string): (r: nat)
    ensures r <= 5
    ensures r == if |s| < 8 then 0 else Min(5, |s| / 4 - 1)
  {
    var length := |s|;
    if length >= 24 then 5
    else if length >= 20 then 4
    else if length >= 16 then 3
    else if length >= 12 then 2
    else if length >= 8 then 1
    else 0
  }

  function Min(a: int, b: int): int {
    if a <= b then a else b
  }

  /** A longer password never scores lower. */
  lemma LengthScoreMonotone(s: string, t: string)
    requires |s| <= |t|
    ensures LengthScore(s) <= LengthScore(t)
  {
  }

  /** The step edges the thresholds of `lengthScore` put in place. */
  lemma LengthScoreEdges(s: string)
    ensures |s| == 7 ==> LengthScore(s) == 0
    ensures |s| == 8 ==> LengthScore(s) == 1
    ensures |s| >= 24 <==> LengthScore(s) == 5
  {
  }
}
