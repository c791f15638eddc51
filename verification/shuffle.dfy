/**
  `SystemRandom().shuffle` (sifre_olustur.py:107): Python's in-place Fisher-Yates
  loop `for i in reversed(range(1, n)): j = randbelow(i + 1); x[i], x[j] = x[j], x[i]`.
  The random source is replaced by the sequence of `j` values it returned.
 */
module Shuffle {

  /** Exchange the elements at `i` and `j`. */
  function Swap<T>(s: seq<T>, i: nat, j: nat): (r: seq<T>)
    requires i < |s| && j < |s|
    ensures |r| == |s| && r[i] == s[j] && r[j] == s[i]
    ensures forall k :: 0 <= k < |s| && k != i && k != j ==> r[k] == s[k]
    ensures multiset(r) == multiset(s)
  {
    s[i := s[j]][j := s[i]]
  }

  /** How many draws the loop makes over `n` elements: one per `i` in `range(1, n)`. */
  function DrawCount(n: nat): nat
  {
    if n == 0 then 0 else n - 1
  }

  /** Draw `k` is made for position `i = n - 1 - k` and lies in `[0, i]`. */
  predicate ValidDraws(n: nat, js: seq<nat>)
  {
    && |js| == DrawCount(n)
    && forall k :: 0 <= k < |js| ==> js[k] <= n - 1 - k
  }

  /** Steps `k`, `k + 1`, ... of the loop applied to `s`. */
  function ShuffleFrom<T>(s: seq<T>, js: seq<nat>, k: nat): (r: seq<T>)
    requires ValidDraws(|s|, js) && k <= |js|
    ensures |r| == |s|
    ensures multiset(r) == multiset(s)
    decreases |js| - k
  {
    if k == |js| then s
    else ShuffleFrom(Swap(s, |s| - 1 - k, js[k]), js, k + 1)
  }

  /** The shuffled sequence: a rearrangement of `s`, nothing added or lost. */
  function Shuffled<T(!new)>(s: seq<T>, js: seq<nat>): (r: seq<T>)
    requires ValidDraws(|s|, js)
    ensures |r| == |s|
    ensures multiset(r) == multiset(s)
    ensures forall x :: x in r <==> x in s
  {
    var r := ShuffleFrom(s, js, 0);
    assert forall x :: x in r <==> x in multiset(r);
    r
  }

  /** Every length has a valid draw sequence (all zeros), so the precondition excludes no input. */
  lemma DrawsExist(n: nat)
    ensures ValidDraws(n, seq(DrawCount(n), _ => 0))
  {
  }
}
