/** Repeated-pattern detection: whether a password is an exact tiling of one
    of its proper prefixes. */
module RepeatedPattern {

  /** `u` written `k` times in a row, as String.repeat. */
  function Repeat(u: string, k: nat): (r: string)
    ensures |r| == |u| * k
    ensures k > 0 ==> r[..|u|] == u
    ensures forall i :: 0 <= i < |r| - |u| ==> r[i] == r[i + |u|]
  {
    if k == 0 then []
    else
      var rest := Repeat(u, k - 1);
      var r := u + rest;
      assert forall i :: |u| <= i < |r| ==> r[i] == rest[i - |u|];
      r
  }

  /** The test one iteration of the loop makes for unit size `size`: the size
      is in the loop's range, divides the length, and the first `size`
      characters repeated `length / size` times give back the password. */
  predicate TilesBy(s: string, size: int) {
    1 <= size <= |s| / 2 && |s| % size == 0 && Repeat(s[..size], |s| / size) == s
  }

  /** The loop of hasRepeatedPattern from unit size `size` upward: true as
      soon as some size at or above `size` tiles the password. */
  function TilesFrom(s: string, size: nat): (r: bool)
    requires 1 <= size
    ensures r <==> exists z :: size <= z && TilesBy(s, z)
    decreases |s| / 2 + 1 - size
  {
    if size > |s| / 2 then false
    else if |s| % size == 0 && Repeat(s[..size], |s| / size) == s then
      assert TilesBy(s, size);
      true
    else
      var r := TilesFrom(s, size + 1);
      assert forall z :: size <= z && TilesBy(s, z) ==> z == size || size + 1 <= z;
      r
  }

  /** hasRepeatedPattern: some proper prefix tiles the whole password. */
  function HasRepeatedPattern(s: string): (r: bool)
    ensures r <==> exists size :: TilesBy(s, size)
    ensures |s| < 2 ==> !r
  {
    TilesFrom(s, 1)
  }

  /** `p` is a period of `s`: every character equals the one `p` further on. */
  ghost predicate IsPeriod(s: string, p: int) {
    0 < p && forall i :: 0 <= i < |s| - p ==> s[i] == s[i + p]
  }

  /** A string of `k` blocks of length `p` with period `p` is its first
      block repeated `k` times. */
  lemma {:induction false} PeriodicIsRepeat(s: string, p: int, k: nat)
    requires IsPeriod(s, p)
    requires k > 0 && |s| == p * k
    ensures Repeat(s[..p], k) == s
    decreases k
  {
    if k == 1 {
      assert Repeat(s[..p], 1) == s[..p] + Repeat(s[..p], 0);
    } else {
      assert p * k == p * (k - 1) + p;
      assert p * (k - 1) >= p by {
        assert k - 1 >= 1;
        MulAtLeast(p, k - 1);
      }
      var t := s[p..];
      assert |t| == p * (k - 1);
      assert IsPeriod(t, p) by {
        forall i | 0 <= i < |t| - p ensures t[i] == t[i + p] {
          assert t[i] == s[i + p] && t[i + p] == s[i + p + p];
        }
      }
      PeriodicIsRepeat(t, p, k - 1);
      assert t[..p] == s[..p];
      assert s == s[..p] + t;
    }
  }

  lemma MulAtLeast(p: int, m: int)
    requires p > 0 && m >= 1
    ensures p * m >= p
  {
  }

  /** Tiling by a prefix of size `size` is the same as having `size` as a
      period that divides the length. */
  lemma TilesIffPeriodic(s: string, size: int)
    requires 1 <= size < |s| && |s| % size == 0
    ensures TilesBy(s, size) <==> IsPeriod(s, size)
  {
    var u := s[..size];
    var n := |s| / size;
    assert size * n == |s|;
    assert n >= 2;
    assert size <= |s| / 2;
    if IsPeriod(s, size) {
      PeriodicIsRepeat(s, size, n);
    }
  }

  /** The detector's verdict in the classical terms of periodicity: the
      password has a period that is a proper divisor of its length. */
  lemma PatternIffProperPeriod(s: string)
    ensures HasRepeatedPattern(s) <==>
            exists p :: 0 < p < |s| && |s| % p == 0 && IsPeriod(s, p)
  {
    if HasRepeatedPattern(s) {
      var size :| TilesBy(s, size);
      TilesIffPeriodic(s, size);
    }
    if p :| 0 < p < |s| && |s| % p == 0 && IsPeriod(s, p) {
      TilesIffPeriodic(s, p);
    }
  }

  /** A unit size at which the password differs from itself shifted by that
      size does not tile it. */
  lemma UnmatchedShiftDoesNotTile(s: string, size: int)
    requires 1 <= size < |s|
    requires s[0] != s[size]
    ensures !TilesBy(s, size)
  {
    if 1 <= size <= |s| / 2 && |s| % size == 0 {
      var r := Repeat(s[..size], |s| / size);
      assert |r| == |s|;
      assert r[0] == r[size];
    }
  }

  /** Any non-empty string written twice is caught, by the unit `s` itself. */
  lemma DoubledHasPattern(s: string)
    requires s != []
    ensures HasRepeatedPattern(s + s)
  {
    var t := s + s;
    assert t[..|s|] == s;
    assert |t| / |s| == 2;
    assert Repeat(s, 2) == s + Repeat(s, 1);
    assert Repeat(s, 1) == s + [];
    assert TilesBy(t, |s|);
  }

  lemma PatternExamples()
    ensures HasRepeatedPattern("abab")
    ensures HasRepeatedPattern("abcabc")
    ensures HasRepeatedPattern("aaaa")
  {
    DoubledHasPattern("ab");
    DoubledHasPattern("abc");
    DoubledHasPattern("aa");
    assert "ab" + "ab" == "abab";
    assert "abc" + "abc" == "abcabc";
    assert "aa" + "aa" == "aaaa";
  }

  lemma NoPatternExamples()
    ensures !HasRepeatedPattern("abcd")
    ensures !HasRepeatedPattern("a")
    ensures !HasRepeatedPattern("")
  {
    var s := "abcd";
    UnmatchedShiftDoesNotTile(s, 1);
    UnmatchedShiftDoesNotTile(s, 2);
  }
}
