/** The qualitative level reported next to an entropy estimate in bits. The
    thresholds are strict upper bounds: 40, 60, 80 and 100 bits. */
module EntropyRating {

  datatype EntropyLevel = VeryWeak | Weak | Moderate | Strong | VeryStrong

  /** entropyLevel: the first threshold the estimate stays below. The rank of
      the level counts the thresholds 40, 60, 80 and 100 the estimate reaches. */
  function EntropyLevelOf(bits: real): (l: EntropyLevel)
    ensures Rank(l)
            == (if bits >= 40.0 then 1 else 0) + (if bits >= 60.0 then 1 else 0)
               + (if bits >= 80.0 then 1 else 0) + (if bits >= 100.0 then 1 else 0)
  {
    if bits < 40.0 then VeryWeak
    else if bits < 60.0 then Weak
    else if bits < 80.0 then Moderate
    else if bits < 100.0 then Strong
    else VeryStrong
  }

  /** The text `entropyLevel` returns for each level. */
  function Label(l: EntropyLevel): string {
    match l
    case VeryWeak => "Very Weak"
    case Weak => "Weak"
    case Moderate => "Moderate"
    case Strong => "Strong"
    case VeryStrong => "Very Strong"
  }

  /** The position of a level on the scale, weakest first. */
  function Rank(l: EntropyLevel): nat {
    match l
    case VeryWeak => 0
    case Weak => 1
    case Moderate => 2
    case Strong => 3
    case VeryStrong => 4
  }

  /** More bits never give a weaker level. */
  lemma EntropyLevelMonotone(a: real, b: real)
    requires a <= b
    ensures Rank(EntropyLevelOf(a)) <= Rank(EntropyLevelOf(b))
  {
  }

  /** Distinct levels are reported with distinct texts. */
  lemma LabelsDistinct(l: EntropyLevel, m: EntropyLevel)
    ensures Label(l) == Label(m) <==> l == m
  {
  }
}
