/** The composite strength score that the entry point adds up, and the
    qualitative level it is reported with. */
module Strength {
  import opened CharClasses
  import opened LengthScoring
  import opened RepeatedPattern
  import opened Randomness

  /** The running sum of the entry point: length score, plus type score,
      minus one for a repeated pattern, plus the randomness score. */
  function AnalyzeScore(s: string): (r: int)
    requires IsAscii(s)
    ensures -5 <= r <= 11
    ensures s == [] ==> r == 0
  {
    LengthScore(s) + CharacterTypeScore(s) - (if HasRepeatedPattern(s) then 1 else 0)
    + RandomnessScore(s)
  }

  datatype Level = Weak | Medium | Strong

  /** strengthLevel: below 6 is weak, up to 10 is medium, above is strong.
      The rank of the level counts the thresholds 6 and 11 the score reaches. */
  function StrengthLevel(score: int): (l: Level)
    ensures Rank(l) == (if score >= 6 then 1 else 0) + (if score >= 11 then 1 else 0)
  {
    if score < 6 then Weak
    else if score <= 10 then Medium
    else Strong
  }

  /** The text `strengthLevel` returns for each level. */
  function Label(l: Level): string {
    match l
    case Weak => "Weak"
    case Medium => "Medium"
    case Strong => "Strong"
  }

  /** The position of a level on the scale, weakest first. */
  function Rank(l: Level): nat {
    match l
    case Weak => 0
    case Medium => 1
    case Strong => 2
  }

  /** A higher score never gives a weaker level. */
  lemma StrengthLevelMonotone(a: int, b: int)
    requires a <= b
    ensures Rank(StrengthLevel(a)) <= Rank(StrengthLevel(b))
  {
  }

  /** Distinct levels are reported with distinct texts. */
  lemma LabelsDistinct(l: Level, m: Level)
    ensures Label(l) == Label(m) <==> l == m
  {
  }

  /** Since the composite score is at most 11, a strong rating needs every
      component at its maximum: at least 24 characters, all four classes, no
      repeated pattern and the randomness bonus without any penalty. */
  lemma StrongIsPerfect(s: string)
    requires IsAscii(s)
    ensures StrengthLevel(AnalyzeScore(s)) == Strong <==>
              |s| >= 24 && CharacterTypeScore(s) == 4 && !HasRepeatedPattern(s)
              && RandomnessScore(s) == 2
  {
    LengthScoreEdges(s);
  }

  lemma PasswordLowercaseOnly()
    ensures CharacterTypeScore("password") == 1
  {
    var s := "password";
    assert forall i :: 0 <= i < |s| ==> ClassOf(s[i]) == Lower;
    assert Lower in ClassesIn(s) by {
      assert ClassOf(s[0]) == Lower;
    }
    assert Upper !in ClassesIn(s) && Digit !in ClassesIn(s) && Special !in ClassesIn(s);
    CardByMembership(ClassesIn(s));
  }

  lemma PasswordHasNoPattern()
    ensures !HasRepeatedPattern("password")
  {
    var s := "password";
    forall size | 1 <= size <= 4
      ensures !TilesBy(s, size)
    {
      if size == 3 {
        assert 8 % 3 == 2;
      } else {
        UnmatchedShiftDoesNotTile(s, size);
      }
    }
  }

  /** The dictionary word scores 1 + 1 - 0 + 2 = 4 and is rated weak. */
  lemma PasswordIsWeak()
    ensures AnalyzeScore("password") == 4
    ensures Label(StrengthLevel(AnalyzeScore("password"))) == "Weak"
  {
    PasswordLowercaseOnly();
    PasswordHasNoPattern();
    DictionaryWordExample();
  }

  lemma MixedUsesAllClasses()
    ensures CharacterTypeScore("Tr0ub4dor&3") == 4
  {
    var s := "Tr0ub4dor&3";
    assert ClassOf(s[0]) == Upper && ClassOf(s[1]) == Lower;
    assert ClassOf(s[2]) == Digit && ClassOf(s[9]) == Special;
    assert Upper in ClassesIn(s) && Lower in ClassesIn(s);
    assert Digit in ClassesIn(s) && Special in ClassesIn(s);
    CardByMembership(ClassesIn(s));
  }

  lemma MixedHasNoPattern()
    ensures !HasRepeatedPattern("Tr0ub4dor&3")
  {
    var s := "Tr0ub4dor&3";
    forall size | 1 <= size <= 5
      ensures !TilesBy(s, size)
    {
      if size == 1 {
        UnmatchedShiftDoesNotTile(s, 1);
      } else if size == 2 {
        assert 11 % 2 == 1;
      } else if size == 3 {
        assert 11 % 3 == 2;
      } else if size == 4 {
        assert 11 % 4 == 3;
      } else {
        assert 11 % 5 == 1;
      }
    }
  }

  /** The mixed-class example scores 1 + 4 - 0 + 2 = 7 and is rated medium. */
  lemma MixedIsMedium()
    ensures AnalyzeScore("Tr0ub4dor&3") == 7
    ensures Label(StrengthLevel(AnalyzeScore("Tr0ub4dor&3"))) == "Medium"
  {
    MixedUsesAllClasses();
    MixedHasNoPattern();
    MixedExample();
  }
}
