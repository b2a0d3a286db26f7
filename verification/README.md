# Password strength analyser: scoring pipeline in Dafny

This project models the scoring pipeline of a small Java password-strength
checker (`src/PasswordStrength.java`) and proves properties of it. All scoring
functions are pure, so each of them is a Dafny `function` over `string`
(`seq<char>`). All of them except `randomnessScore`, and the sum that calls
it, are total over a character string; `randomnessScore` is defined only on
ASCII passwords. The loop that fills the
frequency table becomes `multiset(s)`. Every other loop becomes a recursive
function that walks the same indices in the same order.

Modules, one per component of the pipeline, plus a shared helper:

- `Sequences` (`sequences.dfy`) defines `Image(s, f)`, the set of values `f`
  takes on the elements of `s`. The classes a password uses and its distinct
  characters are both such sets.
- `CharClasses` (`char_classes.dfy`) classifies every character into exactly
  one of upper, lower, digit or special. The tests run in that order and the
  first match wins. It has the presence-flag scan shared by
  `characterTypeScore` and `characterPoolSize`, and both scores. The reference
  meaning of the flags is `ClassesIn(s)`, the set of classes occurring in `s`.
- `LengthScoring` (`length_scoring.dfy`) is `lengthScore`, the step function
  with inclusive thresholds 8, 12, 16, 20 and 24.
- `RepeatedPattern` (`repeated_pattern.dfy`) is `hasRepeatedPattern`. It is
  the loop over unit sizes 1 to length/2 that tests `part.repeat(length/size)`
  against the password. It is related to the classical notion of a period
  that properly divides the length.
- `Randomness` (`randomness.dfy`) is `randomnessScore` with its three
  adjustments: dominant character, ascending run of three, and the share of
  distinct characters. The 128-slot `freq` table becomes `multiset(s)`, and
  the `seen` table becomes a `set<char>` accumulator.
- `Strength` (`strength.dfy`) is the score sum of the entry point
  (`AnalyzeScore`) and `strengthLevel`.
- `EntropyRating` (`entropy_rating.dfy`) is `entropyLevel`, a threshold
  classifier over a real number of bits.

Design decisions:

- `PasswordStrength.java` calls `Character.isUpperCase`, `isLowerCase` and `isDigit`. These
  are modelled on the ASCII ranges `'A'..'Z'`, `'a'..'z'` and `'0'..'9'`.
  Every other character is special.
- `randomnessScore` indexes two 128-slot arrays by the character itself, so a
  character at or above 128 throws an index-out-of-bounds exception and ends
  the program. The model excludes such passwords: `RandomnessScore` and
  `AnalyzeScore` require `IsAscii(s)`.
- The uniqueness ratio is a `double` division compared with `0.7` and `0.4`.
  `RatioAdjustment` computes the exact real ratio. Its contract states the
  comparisons as cross products: `10 * unique > 7 * length` and
  `10 * unique < 4 * length`. For an empty password the Java code computes
  `0.0 / 0`, which is NaN, so both comparisons are false and the adjustment is
  0; the model returns 0 explicitly. For any length a Java string can have
  (below 2^31), the exact comparison and the double comparison agree. A ratio
  that is not exactly 0.7 differs from it by at least 1/(10·length), which is
  far more than the rounding error of one division.
- The reachable pool sizes are {0, 10, 26, 32, 36, 42, 52, 58, 62, 68, 84, 94}.
  42 is digits plus specials, and no set of classes sums to 78 or 88.
  `CharacterPoolSize` proves that the pool is always one of these.
- The composite score is proved to lie in [-5, 11]. That is tighter than the
  naive [-6, 11], because a non-empty password has a type score of at least 1.
- `Label` and `Rank` are plain computations without contracts. `Rank` places
  a level on its scale, weakest first, so that the contracts of
  `StrengthLevel` and `EntropyLevelOf` can count the thresholds a value
  reaches.

## Model

| member | source | states |
|---|---|---|
| `LengthScoring.LengthScore` | src/PasswordStrength.java:40-50 | the score is at most 5 and equals the closed form 0 below length 8, else min(5, length/4 - 1) |
| `LengthScoring.LengthScoreMonotone` | src/PasswordStrength.java:40-50 | a longer password never gets a lower length score |
| `LengthScoring.LengthScoreEdges` | src/PasswordStrength.java:43-49 | length 7 scores 0, length 8 scores 1, and the score is 5 exactly from length 24 on |
| `Sequences.ImageCons` | src/PasswordStrength.java:59-66 | the values taken on a non-empty sequence are the value at its first element plus those taken on the rest |
| `Sequences.ImageConcat` | src/PasswordStrength.java:59-66 | the values taken on a concatenation are the union of those taken on its parts |
| `CharClasses.ClassOf` | src/PasswordStrength.java:62-65 | a character is upper, lower or digit exactly when it lies in the ASCII range of that class, and special exactly when it lies in none of them |
| `CharClasses.Mark` | src/PasswordStrength.java:62-65 | classifying one character sets exactly the flag of its class and keeps the others |
| `CharClasses.ScanFrom` | src/PasswordStrength.java:59-66 | after the scan, the flags set are those set before plus exactly the classes occurring in the scanned string |
| `CharClasses.Scan` | src/PasswordStrength.java:84-89 | the flags of a password are exactly the classes occurring in it |
| `CharClasses.FlagCount` | src/PasswordStrength.java:68-74 | the number of flags set equals the number of classes they stand for |
| `CharClasses.CharacterTypeScore` | src/PasswordStrength.java:53-75 | the score is the number of distinct classes in the password, at most 4, and 0 exactly for the empty password |
| `CharClasses.CharacterPoolSize` | src/PasswordStrength.java:78-98 | the pool is 26 per lower, 26 per upper, 10 per digit and 32 per special class present, at most 94, 0 exactly for the empty password, and one of the twelve reachable sums |
| `CharClasses.PoolBoundedByTypeScore` | src/PasswordStrength.java:91-95 | the pool lies between 10 and 32 times the type score |
| `CharClasses.FullPoolIffAllClasses` | src/PasswordStrength.java:91-97 | the pool is 94 exactly when all four classes are used |
| `CharClasses.ClassesInConcat` | src/PasswordStrength.java:59-66 | the classes of a concatenation are the union of the classes of its parts |
| `CharClasses.ScoresGrowWithExtension` | src/PasswordStrength.java:53-98 | appending characters never lowers the type score or the pool size |
| `CharClasses.PoolOfDoubled` | src/PasswordStrength.java:78-98 | a password written twice has the same pool and type score as the password |
| `CharClasses.PoolExamples` | src/PasswordStrength.java:78-98 | the empty password has pool 0, "a" has 26 and "aA1!" has 94 |
| `RepeatedPattern.Repeat` | src/PasswordStrength.java:141 | a unit repeated k times has k times its length, starts with the unit, and has the unit's length as a period |
| `RepeatedPattern.TilesFrom` | src/PasswordStrength.java:137-145 | the loop from a unit size upward succeeds exactly when some size at or above it tiles the password |
| `RepeatedPattern.HasRepeatedPattern` | src/PasswordStrength.java:134-146 | true exactly when some size in [1, length/2] divides the length and the prefix of that size repeated length/size times is the password; false below length 2 |
| `RepeatedPattern.PeriodicIsRepeat` | src/PasswordStrength.java:140-141 | a string made of k blocks with the block length as a period is its first block repeated k times |
| `RepeatedPattern.TilesIffPeriodic` | src/PasswordStrength.java:138-141 | for a proper divisor of the length, tiling by the prefix of that size is the same as having that size as a period |
| `RepeatedPattern.PatternIffProperPeriod` | src/PasswordStrength.java:134-146 | a repeated pattern is detected exactly when the password has a period that properly divides its length |
| `RepeatedPattern.UnmatchedShiftDoesNotTile` | src/PasswordStrength.java:140-141 | a unit size at which the first character differs from the one that many places later never tiles the password |
| `RepeatedPattern.DoubledHasPattern` | src/PasswordStrength.java:137-143 | any non-empty string written twice is detected |
| `RepeatedPattern.PatternExamples` | src/PasswordStrength.java:134-146 | "abab", "abcabc" and "aaaa" are detected |
| `RepeatedPattern.NoPatternExamples` | src/PasswordStrength.java:134-146 | "abcd", "a" and the empty password are not detected |
| `Randomness.DominantFrom` | src/PasswordStrength.java:159-164 | scanning the frequency table from a slot finds a count above length/3 exactly when some character at or above that slot and below 128 occurs more than length/3 times |
| `Randomness.FrequencyPenalty` | src/PasswordStrength.java:154-164 | the penalty is -2 exactly when some character of the password occurs more than length/3 times, else 0 |
| `Randomness.ShortPasswordsAreDominated` | src/PasswordStrength.java:160-163 | every non-empty password shorter than 3 takes the frequency penalty |
| `Randomness.RunFrom` | src/PasswordStrength.java:167-176 | the triple scan from an index succeeds exactly when an ascending run of three consecutive codes starts at or after it |
| `Randomness.RunPenalty` | src/PasswordStrength.java:167-176 | the penalty is -2 exactly when the password contains an ascending run of three, however many runs there are, else 0 |
| `Randomness.CountUnseen` | src/PasswordStrength.java:179-188 | the loop over the seen table counts the distinct characters not seen before, which are at most the length |
| `Randomness.UniqueCount` | src/PasswordStrength.java:179-188 | uniqueCount is the number of distinct characters, at most the length, and 0 only for the empty password |
| `Randomness.RatioAdjustment` | src/PasswordStrength.java:190-193 | the adjustment is +2 exactly when the unique ratio exceeds 0.7, -1 exactly when it is below 0.4, and 0 for the empty password |
| `Randomness.RatioCompare` | src/PasswordStrength.java:190-193 | comparing unique/length with k/10 is comparing 10·unique with k·length |
| `Randomness.RandomnessScore` | src/PasswordStrength.java:149-196 | on ASCII passwords the score lies in [-5, 2] and is 0 for the empty password |
| `Randomness.TopRandomness` | src/PasswordStrength.java:159-195 | the score is +2 exactly when no character dominates, no ascending run occurs and more than 70% of the characters are distinct |
| `Randomness.RepeatedLetterExample` | src/PasswordStrength.java:149-196 | "aaaaaaaa" scores -3 |
| `Randomness.DictionaryWordExample` | src/PasswordStrength.java:149-196 | "password" scores +2 |
| `Randomness.MixedExample` | src/PasswordStrength.java:149-196 | "Tr0ub4dor&3" scores +2 |
| `Strength.AnalyzeScore` | src/PasswordStrength.java:13-23 | the composite score of an ASCII password lies in [-5, 11] and is 0 for the empty password |
| `Strength.StrengthLevelMonotone` | src/PasswordStrength.java:199-203 | a higher score never gets a weaker level |
| `Strength.StrengthLevel` | src/PasswordStrength.java:199-203 | the level's rank counts the thresholds 6 and 11 that the score reaches: weak below 6, medium from 6 to 10, strong from 11 |
| `Strength.LabelsDistinct` | src/PasswordStrength.java:199-203 | the three level texts are pairwise different |
| `Strength.StrongIsPerfect` | src/PasswordStrength.java:13-23 | a password is rated strong exactly when it has at least 24 characters, all four classes, no repeated pattern and randomness +2 |
| `Strength.PasswordHasNoPattern` | src/PasswordStrength.java:134-146 | "password" has no repeated pattern |
| `Strength.PasswordIsWeak` | src/PasswordStrength.java:13-27 | "password" totals 4 and is rated "Weak" |
| `Strength.MixedIsMedium` | src/PasswordStrength.java:13-27 | "Tr0ub4dor&3" totals 7 and is rated "Medium" |
| `EntropyRating.EntropyLevelMonotone` | src/PasswordStrength.java:215-221 | more bits never give a weaker entropy level |
| `EntropyRating.EntropyLevelOf` | src/PasswordStrength.java:215-221 | the level's rank counts the thresholds 40, 60, 80 and 100 that the estimate reaches, each band closed below and open above |
| `EntropyRating.LabelsDistinct` | src/PasswordStrength.java:215-221 | the five entropy level texts are pairwise different |

## Left out

- Console input and output of `main` (`Scanner`, `println`, `printf`): these are I/O. Only the score sum of lines 13-23 is modelled, as `AnalyzeScore`.
- `estimateCrackTime`: floating-point `Math.pow` whose overflow to infinity is expected behaviour; exact reals would not model it.
- `entropy`: floating-point `Math.log`. Only `entropyLevel`, which classifies its result, is modelled.
- `formatTime`: double division and locale-dependent `String.format` rounding.
- Randomness.RandomnessScore: the ArrayIndexOutOfBoundsException that `randomnessScore` throws for a character at or above 128 is not modelled; `requires IsAscii(s)` excludes such passwords, and `Randomness.FrequencyPenalty` carries the same precondition.
- Strength.AnalyzeScore: for the same reason the sum in `main` is modelled only on ASCII passwords (`requires IsAscii(s)`); on any other password the Java program ends with the exception.
- CharClasses.ClassOf: Unicode classification by `Character.isUpperCase`, `isLowerCase` and `isDigit`: library calls. Non-ASCII letters and digits count as special in the model. This matters only for `CharacterTypeScore` and `CharacterPoolSize`, because no other score classifies characters.
- UTF-16 code units: Java's `length()` counts UTF-16 code units, but a Dafny `char` is a Unicode scalar value. The two agree on every character below U+10000, and in particular on every ASCII password.
- The NaN case of `entropyLevel` is not modelled, because `EntropyLevelOf` takes an exact real. The `entropy` function feeding it never yields NaN.
