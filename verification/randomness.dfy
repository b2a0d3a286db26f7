/** The randomness heuristic: three independent integer adjustments for a
    dominant character, an ascending run of three, and the share of distinct
    characters. PasswordStrength.java counts characters in 128-slot tables
    indexed by the character itself, so the score is only defined on ASCII
    passwords. */
module Randomness {
  import opened Sequences

  /** Every character fits the 128-slot `freq` and `seen` tables; any other
      character indexes past their end and throws. */
  predicate IsAscii(s: string) {
    forall i :: 0 <= i < |s| ==> s[i] as int < 128
  }

  /* ---------- Frequency dominance ---------- */

  /** Some character of the password occurs more than length / 3 times. */
  ghost predicate HasDominantChar(s: string) {
    exists i :: 0 <= i < |s| && multiset(s)[s[i]] > |s| / 3
  }

  /** The scan of the frequency table from `slot` upward, stopping at the
      first slot whose count exceeds length / 3; the table entry of slot `c`
      is the number of occurrences of `c`. */
  function DominantFrom(s: string, slot: nat): (r: bool)
    requires slot <= 128
    ensures r <==> exists c: char :: slot <= c as int < 128 && multiset(s)[c] > |s| / 3
    decreases 128 - slot
  {
    if slot == 128 then false
    else
      var c := slot as char;
      multiset(s)[c] > |s| / 3 || DominantFrom(s, slot + 1)
  }

  /** -2 when the frequency table has a dominant slot, else 0. */
  function FrequencyPenalty(s: string): (r: int)
    requires IsAscii(s)
    ensures r == (if HasDominantChar(s) then -2 else 0)
  {
    if DominantFrom(s, 0) then
      var c: char :| 0 <= c as int < 128 && multiset(s)[c] > |s| / 3;
      assert c in s;
      -2
    else
      assert forall i :: 0 <= i < |s| ==> 0 <= s[i] as int < 128;
      0
  }

  /** A non-empty password shorter than three characters always takes the
      frequency penalty: length / 3 is 0 and its first character occurs. */
  lemma ShortPasswordsAreDominated(s: string)
    requires IsAscii(s)
    requires 0 < |s| < 3
    ensures FrequencyPenalty(s) == -2
  {
    assert s[0] in multiset(s);
  }

  /* ---------- Ascending run ---------- */

  /** The three characters from index `i` have consecutive ascending codes. */
  predicate AscendingAt(s: string, i: nat)
    requires i + 2 < |s|
  {
    s[i + 1] as int == s[i] as int + 1 && s[i + 2] as int == s[i + 1] as int + 1
  }

  /** The triple scan from index `i`, stopping at the first ascending run. */
  function RunFrom(s: string, i: nat): (r: bool)
    ensures r <==> exists j: nat :: i <= j && j + 2 < |s| && AscendingAt(s, j)
    decreases |s| - i
  {
    if i + 2 >= |s| then false
    else
      AscendingAt(s, i) || RunFrom(s, i + 1)
  }

  /** -2 when the password holds an ascending run of three, however many. */
  function RunPenalty(s: string): (r: int)
    ensures r == -2 <==> exists j: nat :: j + 2 < |s| && AscendingAt(s, j)
    ensures r == 0 || r == -2
  {
    if RunFrom(s, 0) then -2 else 0
  }

  /* ---------- Unique characters ---------- */

  /** The distinct characters of the password. */
  ghost function Distinct(s: string): set<char> {
    Image(s, c => c)
  }

  /** The loop over the `seen` table: counts the characters of `s` that are
      not yet seen, marking each when it is first met. */
  function CountUnseen(s: string, seen: set<char>): (n: nat)
    ensures n == |Distinct(s) - seen|
    ensures n <= |s|
    decreases |s|
  {
    if s == [] then
      assert Distinct(s) == {};
      0
    else
      ImageCons(s, c => c);
      var rest := s[1..];
      if s[0] in seen then
        assert Distinct(s) - seen == Distinct(rest) - seen;
        CountUnseen(rest, seen)
      else
        var unseen := Distinct(rest) - (seen + {s[0]});
        assert Distinct(s) - seen == {s[0]} + unseen;
        assert s[0] !in unseen;
        1 + CountUnseen(rest, seen + {s[0]})
  }

  /** uniqueCount: the number of distinct characters of the password. */
  function UniqueCount(s: string): (r: nat)
    ensures r == |Distinct(s)|
    ensures r <= |s|
    ensures r == 0 <==> s == []
  {
    assert s != [] ==> s[0] in Distinct(s);
    CountUnseen(s, {})
  }

  /** The ratio adjustment: +2 above 0.7, -1 below 0.4, else 0. For an
      empty password the ratio is 0.0 / 0, NaN in Java, and both
      comparisons fail. */
  function RatioAdjustment(unique: nat, length: nat): (r: int)
    ensures length == 0 ==> r == 0
    ensures length > 0 ==> (r == 2 <==> 10 * unique > 7 * length)
    ensures length > 0 ==> (r == -1 <==> 10 * unique < 4 * length)
    ensures r in {-1, 0, 2}
  {
    if length == 0 then 0
    else
      var ratio := unique as real / length as real;
      RatioCompare(unique, length, 7);
      RatioCompare(unique, length, 4);
      if ratio > 0.7 then 2
      else if ratio < 0.4 then -1
      else 0
  }

  /** Comparing the ratio unique / length with k / 10 is comparing the
      cross products. */
  lemma RatioCompare(unique: nat, length: nat, k: nat)
    requires length > 0
    ensures unique as real / length as real > k as real / 10.0 <==> 10 * unique > k * length
    ensures unique as real / length as real < k as real / 10.0 <==> 10 * unique < k * length
  {
    var n := length as real;
    var ratio := unique as real / n;
    assert ratio * n == unique as real;
    assert ratio > k as real / 10.0 <==> ratio * n * 10.0 > k as real * n;
    assert ratio < k as real / 10.0 <==> ratio * n * 10.0 < k as real * n;
  }

  /* ---------- The score ---------- */

  /** randomnessScore: the sum of the three adjustments. */
  function RandomnessScore(s: string): (r: int)
    requires IsAscii(s)
    ensures -5 <= r <= 2
    ensures s == [] ==> r == 0
  {
    FrequencyPenalty(s) + RunPenalty(s) + RatioAdjustment(UniqueCount(s), |s|)
  }

  /** The score is the maximum +2 exactly when no character dominates, no
      ascending run occurs and more than 70% of the characters are distinct. */
  lemma TopRandomness(s: string)
    requires IsAscii(s)
    ensures RandomnessScore(s) == 2 <==>
              !HasDominantChar(s)
              && !(exists j: nat :: j + 2 < |s| && AscendingAt(s, j))
              && 10 * |Distinct(s)| > 7 * |s|
  {
  }

  lemma RepeatedLetterExample()
    ensures RandomnessScore("aaaaaaaa") == -3
  {
    var s := "aaaaaaaa";
    assert s[0] == 'a';
    assert multiset(s)['a'] == 8;
    assert Distinct(s) == {'a'};
  }

  lemma PasswordCounts()
    ensures !HasDominantChar("password")
  {
    var s := "password";
    var m := multiset{'p', 'a', 's', 's', 'w', 'o', 'r', 'd'};
    assert multiset(s) == m;
    assert forall i :: 0 <= i < |s| ==> m[s[i]] <= 2;
  }

  lemma PasswordNoRun()
    ensures RunPenalty("password") == 0
  {
    var s := "password";
    assert forall j: nat :: j + 2 < |s| ==> !AscendingAt(s, j);
  }

  lemma PasswordDistinct()
    ensures Distinct("password") == {'p', 'a', 's', 'w', 'o', 'r', 'd'}
  {
    var s := "password";
    var d := {'p', 'a', 's', 'w', 'o', 'r', 'd'};
    assert Distinct(s) <= d;
    assert s[0] == 'p' && s[1] == 'a' && s[2] == 's' && s[4] == 'w';
    assert s[5] == 'o' && s[6] == 'r' && s[7] == 'd';
    assert d <= Distinct(s);
  }

  lemma PasswordUniqueCount()
    ensures UniqueCount("password") == 7
  {
    PasswordDistinct();
    assert |{'p', 'a'}| == 2;
    assert |{'p', 'a'} + {'s'}| == 3;
    assert |{'p', 'a', 's'} + {'w'}| == 4;
    assert |{'p', 'a', 's', 'w'} + {'o'}| == 5;
    assert |{'p', 'a', 's', 'w', 'o'} + {'r'}| == 6;
    assert |{'p', 'a', 's', 'w', 'o', 'r'} + {'d'}| == 7;
  }

  lemma DictionaryWordExample()
    ensures RandomnessScore("password") == 2
  {
    PasswordCounts();
    PasswordNoRun();
    PasswordUniqueCount();
  }

  lemma MixedDistinct()
    ensures Distinct("Tr0ub4dor&3") == {'T', 'r', '0', 'u', 'b', '4', 'd', 'o', '&', '3'}
  {
    var s := "Tr0ub4dor&3";
    var d := {'T', 'r', '0', 'u', 'b', '4', 'd', 'o', '&', '3'};
    assert Distinct(s) <= d;
    assert s[0] == 'T' && s[1] == 'r' && s[2] == '0' && s[3] == 'u' && s[4] == 'b';
    assert s[5] == '4' && s[6] == 'd' && s[7] == 'o' && s[9] == '&' && s[10] == '3';
    assert d <= Distinct(s);
  }

  lemma MixedUniqueCount()
    ensures UniqueCount("Tr0ub4dor&3") == 10
  {
    MixedDistinct();
    var a := {'T', 'r', '0', 'u', 'b'};
    var b := {'4', 'd', 'o', '&', '3'};
    assert |a| == 5;
    assert |b| == 5;
    assert a !! b;
    assert a + b == {'T', 'r', '0', 'u', 'b', '4', 'd', 'o', '&', '3'};
  }

  lemma MixedMultiset()
    ensures multiset("Tr0ub4dor&3")
            == multiset({'T', 'r', '0', 'u', 'b', '4', 'd', 'o', '&', '3'}) + multiset{'r'}
  {
  }

  lemma MixedCounts()
    ensures !HasDominantChar("Tr0ub4dor&3")
  {
    MixedMultiset();
  }

  lemma MixedNoRun()
    ensures RunPenalty("Tr0ub4dor&3") == 0
  {
    var s := "Tr0ub4dor&3";
    assert forall j: nat :: j + 2 < |s| ==> !AscendingAt(s, j);
  }

  /** The mixed-class example takes the full bonus: no dominant character,
      no run, and 10 of its 11 characters distinct. */
  lemma MixedExample()
    ensures RandomnessScore("Tr0ub4dor&3") == 2
  {
    MixedCounts();
    MixedNoRun();
    MixedUniqueCount();
  }
}
