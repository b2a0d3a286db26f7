/** Character classification shared by the type score and the pool-size
    estimate of the password analyser.

    Each character falls into exactly one class: the tests run in the order
    upper, lower, digit, and whatever passes none of them is special. The
    library predicates `Character.isUpperCase`, `isLowerCase` and `isDigit`
    that PasswordStrength.java calls are modelled on their ASCII ranges. */
module CharClasses {
  import opened Sequences

  datatype CharClass = Upper | Lower | Digit | Special

  /** The exclusive if/else chain of PasswordStrength.java: every character
      has exactly one class, and each class is one range of characters. */
  function ClassOf(c: char): (k: CharClass)
    ensures k == Upper <==> 'A' <= c <= 'Z'
    ensures k == Lower <==> 'a' <= c <= 'z'
    ensures k == Digit <==> '0' <= c <= '9'
    ensures k == Special <==> !('A' <= c <= 'Z' || 'a' <= c <= 'z' || '0' <= c <= '9')
  {
    if 'A' <= c <= 'Z' then Upper
    else if 'a' <= c <= 'z' then Lower
    else if '0' <= c <= '9' then Digit
    else Special
  }

  /** The classes that occur somewhere in `s`: the reference meaning of the
      four presence flags. */
  ghost function ClassesIn(s: string): set<CharClass> {
    Image(s, ClassOf)
  }

  /** The fixed pool size the estimate charges for one class. */
  function Weight(k: CharClass): nat {
    match k
    case Lower => 26
    case Upper => 26
    case Digit => 10
    case Special => 32
  }

  /** The four boolean flags PasswordStrength.java keeps while it scans a password. */
  datatype Flags = Flags(upper: bool, lower: bool, digit: bool, special: bool) {

    /** The classes whose flag is set. */
    ghost function Classes(): set<CharClass> {
      (if upper then {Upper} else {}) + (if lower then {Lower} else {})
      + (if digit then {Digit} else {}) + (if special then {Special} else {})
    }
  }

  const NoFlags := Flags(false, false, false, false)

  /** Sets the one flag that the class of `c` selects. */
  function Mark(f: Flags, c: char): (g: Flags)
    ensures g.Classes() == f.Classes() + {ClassOf(c)}
  {
    match ClassOf(c)
    case Upper => f.(upper := true)
    case Lower => f.(lower := true)
    case Digit => f.(digit := true)
    case Special => f.(special := true)
  }

  /** One left-to-right pass over `s`, as the two classifying loops of
      PasswordStrength.java: the flags
      end up set for exactly the classes set before or occurring in `s`. */
  function ScanFrom(f: Flags, s: string): (g: Flags)
    ensures g.Classes() == f.Classes() + ClassesIn(s)
    decreases |s|
  {
    if s == [] then f
    else
      ImageCons(s, ClassOf);
      ScanFrom(Mark(f, s[0]), s[1..])
  }

  /** The flags after scanning the whole password. */
  function Scan(s: string): (f: Flags)
    ensures f.Classes() == ClassesIn(s)
  {
    ScanFrom(NoFlags, s)
  }

  /** The number of flags set equals the number of classes they stand for. */
  lemma FlagCount(f: Flags)
    ensures |f.Classes()|
            == (if f.upper then 1 else 0) + (if f.lower then 1 else 0)
               + (if f.digit then 1 else 0) + (if f.special then 1 else 0)
  {
    CardByMembership(f.Classes());
  }

  /** characterTypeScore: the number of distinct classes the password uses. */
  function CharacterTypeScore(s: string): (r: nat)
    ensures r == |ClassesIn(s)|
    ensures r <= 4
    ensures r == 0 <==> s == []
  {
    var f := Scan(s);
    FlagCount(f);
    assert s != [] ==> ClassOf(s[0]) in ClassesIn(s);
    (if f.upper then 1 else 0) + (if f.lower then 1 else 0)
    + (if f.digit then 1 else 0) + (if f.special then 1 else 0)
  }

  /** characterPoolSize: the fixed pool weight of every class the password
      uses, each class charged once however many of its characters occur. */
  function CharacterPoolSize(s: string): (r: nat)
    ensures r == (if Lower in ClassesIn(s) then Weight(Lower) else 0)
                 + (if Upper in ClassesIn(s) then Weight(Upper) else 0)
                 + (if Digit in ClassesIn(s) then Weight(Digit) else 0)
                 + (if Special in ClassesIn(s) then Weight(Special) else 0)
    ensures r <= 94
    ensures r == 0 <==> s == []
    ensures r in {0, 10, 26, 32, 36, 42, 52, 58, 62, 68, 84, 94}
  {
    var f := Scan(s);
    assert s != [] ==> ClassOf(s[0]) in ClassesIn(s);
    (if f.lower then 26 else 0) + (if f.upper then 26 else 0)
    + (if f.digit then 10 else 0) + (if f.special then 32 else 0)
  }

  /** A set of classes has as many members as there are classes in it. */
  lemma CardByMembership(ks: set<CharClass>)
    ensures |ks| == (if Upper in ks then 1 else 0) + (if Lower in ks then 1 else 0)
                    + (if Digit in ks then 1 else 0) + (if Special in ks then 1 else 0)
  {
    var k1 := RemoveCard(ks, Upper);
    var k2 := RemoveCard(k1, Lower);
    var k3 := RemoveCard(k2, Digit);
    var k4 := RemoveCard(k3, Special);
    forall k | k in k4
      ensures false
    {
      match k
      case Upper =>
      case Lower =>
      case Digit =>
      case Special =>
    }
    assert k4 == {};
  }

  /** Removing one class from a set lowers its size by one if it was there. */
  lemma RemoveCard(ks: set<CharClass>, k: CharClass) returns (rest: set<CharClass>)
    ensures rest == ks - {k}
    ensures |ks| == |rest| + (if k in ks then 1 else 0)
  {
    rest := ks - {k};
    if k in ks {
      assert ks == rest + {k};
    } else {
      assert ks == rest;
    }
  }

  /** Each class in use adds between 10 and 32 to the pool, so the pool is
      bounded on both sides by the type score. */
  lemma PoolBoundedByTypeScore(s: string)
    ensures 10 * CharacterTypeScore(s) <= CharacterPoolSize(s) <= 32 * CharacterTypeScore(s)
  {
    CardByMembership(ClassesIn(s));
  }

  /** The full pool is reached exactly when all four classes are used. */
  lemma FullPoolIffAllClasses(s: string)
    ensures CharacterPoolSize(s) == 94 <==> CharacterTypeScore(s) == 4
  {
    CardByMembership(ClassesIn(s));
  }

  lemma SubsetCard(a: set<CharClass>, b: set<CharClass>)
    requires a <= b
    ensures |a| <= |b|
  {
    assert b == a + (b - a);
  }

  /** The classes of a concatenation are those of its parts. */
  lemma ClassesInConcat(s: string, t: string)
    ensures ClassesIn(s + t) == ClassesIn(s) + ClassesIn(t)
  {
    ImageConcat(s, t, ClassOf);
  }

  /** Appending characters never lowers either class-based score. */
  lemma ScoresGrowWithExtension(s: string, t: string)
    ensures CharacterTypeScore(s) <= CharacterTypeScore(s + t)
    ensures CharacterPoolSize(s) <= CharacterPoolSize(s + t)
  {
    ClassesInConcat(s, t);
    SubsetCard(ClassesIn(s), ClassesIn(s + t));
  }

  /** Repeating a password leaves its pool unchanged. */
  lemma PoolOfDoubled(s: string)
    ensures CharacterPoolSize(s + s) == CharacterPoolSize(s)
    ensures CharacterTypeScore(s + s) == CharacterTypeScore(s)
  {
    ClassesInConcat(s, s);
  }

  lemma PoolExamples()
    ensures CharacterPoolSize("") == 0
    ensures CharacterPoolSize("a") == 26
    ensures CharacterPoolSize("aA1!") == 94
  {
  }
}
