/**
  The four fixed character classes of the generator and the optional removal of
  look-alike characters (sifre_olustur.py:40, 52-62).
 */
module Alphabets {

  /** The ASCII characters from `lo` to `hi` inclusive, in code order. */
  function CharRange(lo: char, hi: char): (r: string)
    requires lo <= hi && hi as int < 128
    ensures |r| == hi as int - lo as int + 1
    ensures forall i :: 0 <= i < |r| ==> r[i] as int == lo as int + i
    ensures forall ch :: ch in r <==> lo <= ch <= hi
  {
    var n := hi as int - lo as int + 1;
    var r := seq(n, i requires 0 <= i < n => (lo as int + i) as char);
    forall ch | lo <= ch <= hi
      ensures ch in r
    {
      assert r[ch as int - lo as int] == ch;
    }
    r
  }

  /** Python's `string.ascii_uppercase`. */
  const AsciiUppercase: string := CharRange('A', 'Z')
  /** Python's `string.ascii_lowercase`. */
  const AsciiLowercase: string := CharRange('a', 'z')
  /** Python's `string.digits`. */
  const Digits: string := CharRange('0', '9')
  /** Python's `string.punctuation`: the printable ASCII characters that are neither letters, digits nor space, in code order. */
  const Punctuation: string := CharRange('!', '/') + CharRange(':', '@') + CharRange('[', '`') + CharRange('{', '~')

  /** `SIMILAR_CHARS`: characters a reader easily confuses with one another. */
  const SimilarChars: set<char> := {'l', '1', 'I', 'O', '0'}

  datatype CharClass = Upper | Lower | Digit | Symbol

  /**
    How many of the four class flags are set. The generator draws one
    guaranteed character per selected class, and the strength meter scores
    the same count.
   */
  function SelectedCount(upper: bool, lower: bool, digits: bool, symbols: bool): (n: nat)
    ensures n <= 4
    ensures n == 0 <==> !upper && !lower && !digits && !symbols
    ensures n == 4 <==> upper && lower && digits && symbols
  {
    (if upper then 1 else 0) + (if lower then 1 else 0)
    + (if digits then 1 else 0) + (if symbols then 1 else 0)
  }

  /** Position of a class in the order the generator visits the classes. */
  function Rank(c: CharClass): nat
  {
    match c
    case Upper => 0
    case Lower => 1
    case Digit => 2
    case Symbol => 3
  }

  function Base(c: CharClass): string
  {
    match c
    case Upper => AsciiUppercase
    case Lower => AsciiLowercase
    case Digit => Digits
    case Symbol => Punctuation
  }

  /** The ASCII code ranges each class occupies; they do not overlap. */
  predicate InRange(c: CharClass, ch: char)
  {
    match c
    case Upper => 'A' <= ch <= 'Z'
    case Lower => 'a' <= ch <= 'z'
    case Digit => '0' <= ch <= '9'
    case Symbol =>
      || '!' <= ch <= '/'
      || ':' <= ch <= '@'
      || '[' <= ch <= '`'
      || '{' <= ch <= '~'
  }

  /** The characters of `s` that are not in `banned`, in their original order. */
  function Without(s: string, banned: set<char>): (r: string)
    ensures |r| <= |s|
  {
    if s == [] then []
    else
      var rest := Without(s[1..], banned);
      if s[0] in banned then rest else [s[0]] + rest
  }

  /** Filtering keeps exactly the characters that are not banned and never lengthens. */
  lemma {:induction false} WithoutMembers(s: string, banned: set<char>)
    ensures |Without(s, banned)| <= |s|
    ensures forall ch :: ch in Without(s, banned) <==> ch in s && ch !in banned
  {
    if s != [] {
      WithoutMembers(s[1..], banned);
      assert s == [s[0]] + s[1..];
    }
  }

  /** Filtering a string that holds no banned character changes nothing. */
  lemma {:induction false} WithoutNothingBanned(s: string, banned: set<char>)
    requires forall i :: 0 <= i < |s| ==> s[i] !in banned
    ensures Without(s, banned) == s
  {
    if s != [] {
      WithoutNothingBanned(s[1..], banned);
      assert s == [s[0]] + s[1..];
    }
  }

  /** The working alphabet of class `c`, with look-alikes removed when asked. */
  function Filtered(c: CharClass, excludeSimilar: bool): (r: string)
    ensures forall ch :: ch in r ==> ch in Base(c)
    ensures excludeSimilar ==> forall ch :: ch in r ==> ch !in SimilarChars
    ensures !excludeSimilar ==> r == Base(c)
  {
    WithoutMembers(Base(c), SimilarChars);
    if excludeSimilar then Without(Base(c), SimilarChars) else Base(c)
  }

  lemma BaseInRange(c: CharClass)
    ensures forall ch :: ch in Base(c) ==> InRange(c, ch)
  {
  }

  /** Every character of a filtered alphabet belongs to its class, and none is a look-alike when they are excluded. */
  lemma FilteredChars(c: CharClass, excludeSimilar: bool, ch: char)
    requires ch in Filtered(c, excludeSimilar)
    ensures ch in Base(c) && InRange(c, ch)
    ensures excludeSimilar ==> ch !in SimilarChars
  {
    BaseInRange(c);
    WithoutMembers(Base(c), SimilarChars);
  }

  /** No filtering empties a class, so the source's "class became empty" warnings never fire. */
  lemma FilteredNonEmpty(c: CharClass, excludeSimilar: bool)
    ensures |Filtered(c, excludeSimilar)| > 0
  {
    var sample := match c
      case Upper => 'A'
      case Lower => 'a'
      case Digit => '2'
      case Symbol => '!';
    assert sample in Base(c);
    WithoutMembers(Base(c), SimilarChars);
    assert sample in Filtered(c, excludeSimilar);
  }

  /** No symbol is a look-alike, so the symbol alphabet is the same with or without filtering. */
  lemma SymbolsUnfiltered(excludeSimilar: bool)
    ensures Filtered(Symbol, excludeSimilar) == Punctuation
    ensures |Punctuation| == 32
  {
    BaseInRange(Symbol);
    WithoutNothingBanned(Punctuation, SimilarChars);
  }

  /** The classes are pairwise disjoint. */
  lemma ClassesDisjoint(c1: CharClass, c2: CharClass, ch: char)
    requires InRange(c1, ch) && InRange(c2, ch)
    ensures c1 == c2
  {
  }
}
