/**
  `calculate_strength` (sifre_olustur.py:112-167): a heuristic score in [0, 100]
  from the password's length and the number of selected classes, with a label
  and a progress-bar style. The characters of the password play no part beyond
  whether there are any.
 */
module StrengthMeter {
  import opened Alphabets

  datatype Strength = Strength(grade: string, score: int, style: string)

  const DefaultStyle: string := "Horizontal.TProgressbar"
  const DangerStyle: string := "danger.Horizontal.TProgressbar"
  const WarningStyle: string := "warning.Horizontal.TProgressbar"
  const SuccessStyle: string := "success.Horizontal.TProgressbar"

  const Weak: string := "Zayıf"
  const Medium: string := "Orta"
  const Strong: string := "Güçlü"
  const VeryStrong: string := "Çok Güçlü"

  /** The label and score shown before any password exists. */
  const NoPassword: Strength := Strength("...", 0, DefaultStyle)

  function Min(a: int, b: int): int
  {
    if a < b then a else b
  }

  /** Length points before the cap: 2, 3 or 4 per character by length band. */
  function LengthPoints(length: int): (p: int)
    ensures 0 <= length ==> 2 * length <= p <= 4 * length
  {
    if length < 8 then length * 2
    else if length < 12 then length * 3
    else if length < 16 then length * 4
    else length * 4
  }

  /** Diversity points by class count; any other count earns nothing. */
  function DiversityPoints(typesCount: int): (p: int)
    ensures 0 <= p <= 50
    ensures p > 0 <==> 1 <= typesCount <= 4
  {
    if typesCount == 1 then 5
    else if typesCount == 2 then 15
    else if typesCount == 3 then 35
    else if typesCount == 4 then 50
    else 0
  }

  /** The score of a non-empty password: capped length points plus diversity points, capped at 100. */
  function Score(length: int, typesCount: int): (s: int)
    ensures s <= 100
    ensures length >= 0 ==> 0 <= s
    ensures 0 <= typesCount <= 4 ==> s <= Min(LengthPoints(length), 50) + 50
  {
    Min(Min(LengthPoints(length), 50) + DiversityPoints(typesCount), 100)
  }

  /** Grade (the label shown) and style for a score, by the thresholds 35, 65 and 85. */
  function Rated(score: int): (r: Strength)
    ensures r.score == score
    ensures r.grade == Weak <==> score < 35
    ensures r.grade == Medium <==> 35 <= score < 65
    ensures r.grade == Strong <==> 65 <= score < 85
    ensures r.grade == VeryStrong <==> 85 <= score
    ensures r.style == DangerStyle <==> score < 35
    ensures r.style == WarningStyle <==> 35 <= score < 65
    ensures r.style == SuccessStyle <==> 65 <= score
  {
    if score < 35 then Strength(Weak, score, DangerStyle)
    else if score < 65 then Strength(Medium, score, WarningStyle)
    else if score < 85 then Strength(Strong, score, SuccessStyle)
    else Strength(VeryStrong, score, SuccessStyle)
  }

  /** `calculate_strength`. */
  function CalculateStrength(password: string, length: int,
                             hasUpper: bool, hasLower: bool, hasDigits: bool, hasSymbols: bool): (r: Strength)
    ensures |password| == 0 ==> r == NoPassword
    ensures length >= 0 ==> 0 <= r.score <= 100
    ensures |password| > 0 ==>
              (r.grade == Weak <==> r.score < 35)
              && (r.grade == Medium <==> 35 <= r.score < 65)
              && (r.grade == Strong <==> 65 <= r.score < 85)
              && (r.grade == VeryStrong <==> 85 <= r.score)
  {
    if |password| == 0 then NoPassword
    else Rated(Score(length, SelectedCount(hasUpper, hasLower, hasDigits, hasSymbols)))
  }

  /** Only the emptiness of the password matters, not its characters. */
  lemma IgnoresContent(p1: string, p2: string, length: int, u: bool, l: bool, d: bool, s: bool)
    requires |p1| > 0 && |p2| > 0
    ensures CalculateStrength(p1, length, u, l, d, s) == CalculateStrength(p2, length, u, l, d, s)
  {
  }

  /** A longer password never scores lower, across the length bands too. */
  lemma MonotoneInLength(a: int, b: int, typesCount: int)
    requires a <= b
    ensures LengthPoints(a) <= LengthPoints(b)
    ensures Score(a, typesCount) <= Score(b, typesCount)
  {
  }

  /** Selecting an extra class never lowers the score. */
  lemma MonotoneInClasses(length: int, m: int, n: int)
    requires 0 <= m <= n <= 4
    ensures DiversityPoints(m) <= DiversityPoints(n)
    ensures Score(length, m) <= Score(length, n)
  {
  }

  /** Each flag turned on keeps or raises the strength of the same password. */
  lemma MonotoneInFlags(password: string, length: int,
                        u1: bool, l1: bool, d1: bool, s1: bool,
                        u2: bool, l2: bool, d2: bool, s2: bool)
    requires (u1 ==> u2) && (l1 ==> l2) && (d1 ==> d2) && (s1 ==> s2)
    ensures CalculateStrength(password, length, u1, l1, d1, s1).score
            <= CalculateStrength(password, length, u2, l2, d2, s2).score
  {
    if |password| > 0 {
      MonotoneInClasses(length, SelectedCount(u1, l1, d1, s1), SelectedCount(u2, l2, d2, s2));
    }
  }

  /** The 50-point length cap is reached exactly from 13 characters on (12 gives 48). */
  lemma LengthCapFrom13(length: int)
    requires length >= 0
    ensures Min(LengthPoints(length), 50) == 50 <==> length >= 13
  {
  }

  /** A full score needs all four classes and at least 13 characters. */
  lemma FullScoreIff(password: string, length: int, u: bool, l: bool, d: bool, s: bool)
    requires |password| > 0 && length >= 0
    ensures CalculateStrength(password, length, u, l, d, s).score == 100
            <==> length >= 13 && u && l && d && s
  {
  }

  /** Worked values: six characters of one class, and twelve of all four. */
  lemma Examples()
    ensures CalculateStrength("", 12, true, true, true, true) == Strength("...", 0, "Horizontal.TProgressbar")
    ensures CalculateStrength("abcdef", 6, false, true, false, false)
            == Strength("Zayıf", 17, "danger.Horizontal.TProgressbar")
    ensures CalculateStrength("Ab3$Ab3$Ab3$", 12, true, true, true, true)
            == Strength("Çok Güçlü", 98, "success.Horizontal.TProgressbar")
    ensures CalculateStrength("Ab3$Ab3$Ab3$A", 13, true, true, true, true).score == 100
    ensures CalculateStrength("abcdefgh", 8, true, true, false, false)
            == Strength("Orta", 39, "warning.Horizontal.TProgressbar")
  {
  }
}
