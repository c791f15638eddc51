/**
  `generate_password` (sifre_olustur.py:46-109). The randomness of `secrets.choice`
  and `SystemRandom().shuffle` is an input (`Oracle`), and every property below is
  proved for all oracle values the random source can produce.
 */
module Generator {
  import opened Wrappers
  import opened Alphabets
  import opened Shuffle

  /** The arguments of `generate_password`. */
  datatype Request = Request(
    length: int,
    useUpper: bool,
    useLower: bool,
    useDigits: bool,
    useSymbols: bool,
    excludeSimilar: bool)

  /**
    The values the random source returned, in the order they are drawn:
    `picks[k]` is the index `secrets.choice` took in the alphabet of the k-th
    contributing class, `fill[i]` the index of the i-th filler character in the
    pool, and `swaps` the draws of the shuffle.
   */
  datatype Oracle = Oracle(picks: seq<nat>, fill: seq<nat>, swaps: seq<nat>)

  predicate Selected(req: Request, c: CharClass)
  {
    match c
    case Upper => req.useUpper
    case Lower => req.useLower
    case Digit => req.useDigits
    case Symbol => req.useSymbols
  }

  predicate AnySelected(req: Request)
  {
    req.useUpper || req.useLower || req.useDigits || req.useSymbols
  }

  /** Number of selected classes. */
  function ClassCount(req: Request): nat
  {
    SelectedCount(req.useUpper, req.useLower, req.useDigits, req.useSymbols)
  }

  /** The working alphabet of class `c` for this request. */
  function Alphabet(req: Request, c: CharClass): string
  {
    Filtered(c, req.excludeSimilar)
  }

  /**
    Whether class `c` adds to the pool and draws a guaranteed character: upper,
    lower and digits only when their alphabet is non-empty; symbols whenever
    selected, since the source does not test that alphabet.
   */
  predicate Contributes(req: Request, c: CharClass)
  {
    Selected(req, c) && (c == Symbol || |Alphabet(req, c)| > 0)
  }

  function Include(b: bool, c: CharClass): seq<CharClass>
  {
    if b then [c] else []
  }

  /** The contributing classes in the order the source visits them. */
  function Contributing(req: Request): (cs: seq<CharClass>)
    ensures forall c :: c in cs <==> Contributes(req, c)
    ensures forall i, j :: 0 <= i < j < |cs| ==> Rank(cs[i]) < Rank(cs[j])
  {
    Include(Contributes(req, Upper), Upper)
    + Include(Contributes(req, Lower), Lower)
    + Include(Contributes(req, Digit), Digit)
    + Include(Contributes(req, Symbol), Symbol)
  }

  /** The alphabet of `c` if it contributes, otherwise nothing. */
  function Part(req: Request, c: CharClass): string
  {
    if Contributes(req, c) then Alphabet(req, c) else ""
  }

  /** `char_pool`: the contributing alphabets concatenated in visiting order. */
  function Pool(req: Request): (pool: string)
    ensures |pool| == 0 <==> !AnySelected(req)
  {
    ContributesWhenSelected(req, Upper);
    ContributesWhenSelected(req, Lower);
    ContributesWhenSelected(req, Digit);
    ContributesWhenSelected(req, Symbol);
    Part(req, Upper) + Part(req, Lower) + Part(req, Digit) + Part(req, Symbol)
  }

  /** The "class became empty" warnings the source shows (lines 69-70, 76-77, 83-84). */
  function Warnings(req: Request): (w: seq<CharClass>)
    ensures forall c :: c in w ==> Selected(req, c) && c != Symbol && |Alphabet(req, c)| == 0
  {
    Include(req.useUpper && |Alphabet(req, Upper)| == 0, Upper)
    + Include(req.useLower && |Alphabet(req, Lower)| == 0, Lower)
    + Include(req.useDigits && |Alphabet(req, Digit)| == 0, Digit)
  }

  /** Python's `s[:stop]`: a negative `stop` counts from the end. */
  function PrefixTo<T>(s: seq<T>, stop: int): (r: seq<T>)
    ensures r <= s
    ensures 0 <= stop <= |s| ==> |r| == stop
    ensures stop >= |s| ==> r == s
    ensures stop < 0 && -stop <= |s| ==> |r| == |s| + stop
    ensures stop < 0 && -stop >= |s| ==> r == []
  {
    if stop >= 0 then s[..if stop < |s| then stop else |s|]
    else s[..if |s| + stop < 0 then 0 else |s| + stop]
  }

  /** `remaining_length`: requested length minus the guaranteed characters. */
  function Remaining(req: Request): int
  {
    req.length - |Contributing(req)|
  }

  /** Length of the password the source returns. */
  function OutputLength(req: Request): nat
  {
    if req.length >= 0 then req.length
    else if |Contributing(req)| + req.length < 0 then 0
    else |Contributing(req)| + req.length
  }

  /** How many filler characters the source draws: none when it returns early or truncates. */
  function FillCount(req: Request): nat
  {
    if |Pool(req)| == 0 || Remaining(req) < 0 then 0 else Remaining(req)
  }

  /** The oracle holds exactly the draws the source makes, each in range. */
  predicate Fits(req: Request, o: Oracle)
  {
    var cs := Contributing(req);
    && |o.picks| == |cs|
    && (forall k :: 0 <= k < |cs| ==> o.picks[k] < |Alphabet(req, cs[k])|)
    && |o.fill| == FillCount(req)
    && (forall i :: 0 <= i < |o.fill| ==> o.fill[i] < |Pool(req)|)
    && ValidDraws(if |Pool(req)| == 0 then 0 else OutputLength(req), o.swaps)
  }

  /** `guaranteed_chars`: one draw from each contributing class, in visiting order. */
  function Guaranteed(req: Request, o: Oracle): (g: seq<char>)
    requires Fits(req, o)
    ensures |g| == |Contributing(req)|
    ensures forall k :: 0 <= k < |g| ==> g[k] in Alphabet(req, Contributing(req)[k])
  {
    var cs := Contributing(req);
    seq(|cs|, k requires 0 <= k < |cs| => Alphabet(req, cs[k])[o.picks[k]])
  }

  /** The filler characters drawn from the pool (line 104). */
  function Filler(req: Request, o: Oracle): (f: seq<char>)
    requires Fits(req, o)
    ensures |f| == |o.fill|
    ensures forall ch :: ch in f ==> ch in Pool(req)
  {
    var pool := Pool(req);
    seq(|o.fill|, i requires 0 <= i < |o.fill| => pool[o.fill[i]])
  }

  /** `password_chars` before the shuffle (lines 98-104). */
  function Drawn(req: Request, o: Oracle): (d: seq<char>)
    requires Fits(req, o) && |Pool(req)| > 0
    ensures |d| == OutputLength(req)
  {
    var g := Guaranteed(req, o);
    var remaining := req.length - |g|;
    if remaining < 0 then PrefixTo(g, req.length)
    else g + Filler(req, o)
  }

  /** `ch` belongs to the working alphabet of a selected class. */
  predicate FromSelectedClass(req: Request, ch: char)
  {
    exists c :: Selected(req, c) && ch in Alphabet(req, c)
  }

  /** No selected class is ever skipped: filtering never empties an alphabet. */
  lemma ContributesWhenSelected(req: Request, c: CharClass)
    ensures Contributes(req, c) <==> Selected(req, c)
    ensures |Part(req, c)| > 0 <==> Selected(req, c)
  {
    FilteredNonEmpty(c, req.excludeSimilar);
  }

  /** Every pool character comes from a selected class. */
  lemma PoolFromSelected(req: Request, ch: char)
    requires ch in Pool(req)
    ensures FromSelectedClass(req, ch)
  {
    var c :| ch in Part(req, c) by {
      if ch in Part(req, Upper) {
      } else if ch in Part(req, Lower) {
      } else if ch in Part(req, Digit) {
      } else {
        assert ch in Part(req, Symbol);
      }
    }
    assert Selected(req, c) && ch in Alphabet(req, c);
  }

  /** Every drawn character, guaranteed or filler, comes from a selected class. */
  lemma DrawnFromSelected(req: Request, o: Oracle, ch: char)
    requires Fits(req, o) && |Pool(req)| > 0
    requires ch in Drawn(req, o)
    ensures FromSelectedClass(req, ch)
  {
    var g := Guaranteed(req, o);
    var cs := Contributing(req);
    if ch in g {
      var k :| 0 <= k < |g| && g[k] == ch;
      assert cs[k] in cs;
      assert Selected(req, cs[k]) && ch in Alphabet(req, cs[k]);
    } else {
      assert ch in Filler(req, o);
      PoolFromSelected(req, ch);
    }
  }

  /** The list before shuffling draws only on selected classes, and on no look-alike when they are excluded. */
  lemma DrawnAllFromSelected(req: Request, o: Oracle)
    requires Fits(req, o) && |Pool(req)| > 0
    ensures forall ch :: ch in Drawn(req, o) ==> FromSelectedClass(req, ch)
    ensures req.excludeSimilar ==> forall ch :: ch in Drawn(req, o) ==> ch !in SimilarChars
  {
    forall ch | ch in Drawn(req, o)
      ensures FromSelectedClass(req, ch)
      ensures req.excludeSimilar ==> ch !in SimilarChars
    {
      DrawnFromSelected(req, o, ch);
      if req.excludeSimilar {
        SelectedNotSimilar(req, ch);
      }
    }
  }

  /** With look-alikes excluded, no selected alphabet holds one. */
  lemma SelectedNotSimilar(req: Request, ch: char)
    requires req.excludeSimilar && FromSelectedClass(req, ch)
    ensures ch !in SimilarChars
  {
    var c :| Selected(req, c) && ch in Alphabet(req, c);
    FilteredChars(c, true, ch);
  }

  /** `generate_password`: `None` when the pool is empty, otherwise the shuffled draws. */
  function Generate(req: Request, o: Oracle): (r: Option<string>)
    requires Fits(req, o)
    ensures r.None? <==> !AnySelected(req)
    ensures r.Some? && req.length >= 0 ==> |r.value| == req.length
    ensures r.Some? && req.length < 0 ==> |r.value| == OutputLength(req) < ClassCount(req)
    ensures r.Some? ==> forall ch :: ch in r.value ==> FromSelectedClass(req, ch)
    ensures r.Some? && req.excludeSimilar ==> forall ch :: ch in r.value ==> ch !in SimilarChars
    ensures r.Some? ==> |Pool(req)| > 0 && multiset(r.value) == multiset(Drawn(req, o))
  {
    if |Pool(req)| == 0 then None
    else
      DrawnAllFromSelected(req, o);
      var p := Shuffled(Drawn(req, o), o.swaps);
      Some(p)
  }

  /** The source's "class became empty" warnings are unreachable. */
  lemma NoWarnings(req: Request)
    ensures Warnings(req) == []
  {
    FilteredNonEmpty(Upper, req.excludeSimilar);
    FilteredNonEmpty(Lower, req.excludeSimilar);
    FilteredNonEmpty(Digit, req.excludeSimilar);
  }

  /** One guaranteed character is drawn per selected class. */
  lemma ContributingCount(req: Request)
    ensures |Contributing(req)| == ClassCount(req)
    ensures forall c :: c in Contributing(req) <==> Selected(req, c)
  {
    ContributesWhenSelected(req, Upper);
    ContributesWhenSelected(req, Lower);
    ContributesWhenSelected(req, Digit);
    ContributesWhenSelected(req, Symbol);
  }

  /** An oracle whose every draw is zero. */
  function ZeroOracle(req: Request): Oracle
  {
    var n := if |Pool(req)| == 0 then 0 else OutputLength(req);
    Oracle(
      seq(|Contributing(req)|, _ => 0),
      seq(FillCount(req), _ => 0),
      seq(DrawCount(n), _ => 0))
  }

  /** Every request has draws that fit it, so `Fits` rules out no request. */
  lemma OracleExists(req: Request)
    ensures Fits(req, ZeroOracle(req))
  {
    var cs := Contributing(req);
    forall k | 0 <= k < |cs|
      ensures 0 < |Alphabet(req, cs[k])|
    {
      assert cs[k] in cs;
      FilteredNonEmpty(cs[k], req.excludeSimilar);
    }
    if |Pool(req)| > 0 {
      assert Pool(req)[0] in Pool(req);
    }
  }

  /** `p` contains at least one character of `alphabet`. */
  predicate Represents(p: string, alphabet: string)
  {
    exists i :: 0 <= i < |p| && p[i] in alphabet
  }

  /**
    When the requested length leaves room for one character per selected class,
    every selected class appears in the password.
   */
  lemma CoversSelectedClasses(req: Request, o: Oracle, c: CharClass)
    requires Fits(req, o) && Selected(req, c) && req.length >= ClassCount(req)
    ensures Generate(req, o).Some?
    ensures Represents(Generate(req, o).value, Alphabet(req, c))
  {
    ContributingCount(req);
    var cs := Contributing(req);
    var g := Guaranteed(req, o);
    var k :| 0 <= k < |cs| && cs[k] == c;
    assert Drawn(req, o) == g + Filler(req, o);
    assert g[k] in Drawn(req, o);
    var p := Generate(req, o).value;
    assert g[k] in p;
    var i :| 0 <= i < |p| && p[i] == g[k];
  }

  /**
    A rearrangement of the first `n` of one-per-class draws `g` (classes `cs` in
    strictly increasing order) represents class `cs[k]` exactly when `k < n`.
   */
  lemma KeptClass(req: Request, cs: seq<CharClass>, g: seq<char>, n: nat, p: string, k: nat)
    requires |g| == |cs| && n <= |g| && k < |cs|
    requires forall m :: 0 <= m < |g| ==> g[m] in Alphabet(req, cs[m])
    requires forall i, j :: 0 <= i < j < |cs| ==> Rank(cs[i]) < Rank(cs[j])
    requires multiset(p) == multiset(g[..n])
    ensures Represents(p, Alphabet(req, cs[k])) <==> k < n
  {
    if k < n {
      assert g[..n][k] in multiset(g[..n]);
      assert g[k] in p;
      var i :| 0 <= i < |p| && p[i] == g[k];
    }
    if Represents(p, Alphabet(req, cs[k])) {
      var i :| 0 <= i < |p| && p[i] in Alphabet(req, cs[k]);
      assert p[i] in multiset(g[..n]);
      var j :| 0 <= j < n && g[..n][j] == p[i];
      FilteredChars(cs[k], req.excludeSimilar, p[i]);
      FilteredChars(cs[j], req.excludeSimilar, p[i]);
      ClassesDisjoint(cs[k], cs[j], p[i]);
      assert j == k;
    }
  }

  /**
    When the requested length is shorter than the number of selected classes,
    the password is a rearrangement of the first `length` guaranteed characters,
    and class `cs[k]` appears in it exactly when `k < length`: the classes
    dropped are the last ones in the order upper, lower, digits, symbols.
   */
  lemma ShortLengthKeepsLeadingClasses(req: Request, o: Oracle)
    requires Fits(req, o) && 0 <= req.length < ClassCount(req)
    ensures |Contributing(req)| == ClassCount(req)
    ensures Generate(req, o).Some?
    ensures multiset(Generate(req, o).value) == multiset(Guaranteed(req, o)[..req.length])
    ensures forall k :: 0 <= k < |Contributing(req)| ==>
              (Represents(Generate(req, o).value, Alphabet(req, Contributing(req)[k])) <==> k < req.length)
  {
    ContributingCount(req);
    var cs := Contributing(req);
    var g := Guaranteed(req, o);
    DrawnWhenShort(req, o);
    var p := Generate(req, o).value;
    assert multiset(p) == multiset(g[..req.length]);
    forall k | 0 <= k < |cs|
      ensures Represents(p, Alphabet(req, cs[k])) <==> k < req.length
    {
      KeptClass(req, cs, g, req.length, p, k);
    }
  }

  /** Truncation keeps the leading guaranteed characters. */
  lemma DrawnWhenShort(req: Request, o: Oracle)
    requires Fits(req, o) && 0 <= req.length < ClassCount(req)
    ensures |Contributing(req)| == ClassCount(req)
    ensures |Pool(req)| > 0
    ensures Drawn(req, o) == Guaranteed(req, o)[..req.length]
  {
    ContributingCount(req);
    var g := Guaranteed(req, o);
    assert req.length - |g| < 0;
    assert Drawn(req, o) == PrefixTo(g, req.length);
  }

  /**
    The shuffle only rearranges: the password holds exactly the guaranteed and
    filler characters, or the kept guaranteed characters when the list is cut.
   */
  lemma ShuffleOnlyPermutes(req: Request, o: Oracle)
    requires Fits(req, o) && AnySelected(req)
    ensures Remaining(req) >= 0 ==>
              multiset(Generate(req, o).value) == multiset(Guaranteed(req, o)) + multiset(Filler(req, o))
    ensures Remaining(req) < 0 ==>
              multiset(Generate(req, o).value) == multiset(PrefixTo(Guaranteed(req, o), req.length))
  {
  }
}
