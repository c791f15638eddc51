# Password generator core, modelled in Dafny

This project models the two core functions of `sifre_olustur.py`, a desktop
password generator:

- `generate_password` builds a password of a requested length from up to four
  character classes: ASCII upper case, ASCII lower case, digits, and Python's
  `string.punctuation`. It can optionally drop the look-alike characters
  `l 1 I O 0`. It draws one guaranteed character per selected class, then cuts
  that list to the requested length or pads it with filler from the combined
  pool. Finally it shuffles the result. It returns `None` when no class is
  selected.
- `calculate_strength` scores a password from its length and the number of
  selected classes. It returns a Turkish label ("Zayıf", "Orta", "Güçlü",
  "Çok Güçlü"), a score of at most 100 (in 0..100 for a non-negative
  length) and a progress-bar style name.

Modules:

- `Wrappers` (wrappers.dfy): `Option`, the model of Python's `None`.
- `Alphabets` (alphabets.dfy): the four alphabets, `SIMILAR_CHARS`, and the
  order-preserving filter. Each alphabet is written as runs of ASCII codes. Python's
  `string.punctuation` is the four runs `!`-`/`, `:`-`@`, `[`-`` ` `` and
  `{`-`~`, in that order.
- `Shuffle` (shuffle.dfy): the Fisher-Yates loop behind `random.shuffle`.
- `Generator` (generator.dfy): `generate_password`.
- `StrengthMeter` (strength.dfy): `calculate_strength`.

Randomness is an input. `secrets.choice` and `SystemRandom().shuffle` are
replaced by an `Oracle`, which lists the values the random source returned:

- one index per guaranteed draw;
- one index per filler draw;
- the `j` of each shuffle step.

`Fits` requires exactly the draws the source makes, each in range.
`OracleExists` shows that every request has such an oracle, so `Fits` rules
out no request. Every property of `Generate` holds for all fitting oracles.

Points of the code worth knowing:

- Twelve characters with all four classes score 12 × 4 = 48 length points
  plus 50 diversity points, which is 98. The cap of 50 length points is first
  reached at 13 characters. `LengthCapFrom13` and `Examples` state this.
- The labels are the code's Turkish strings.
- Upper case, lower case and digits are tested for an empty alphabet before
  drawing. Symbols are not (sifre_olustur.py:89-91): the punctuation alphabet
  is drawn from whenever symbols are selected. `Contributes` models the same
  asymmetry. `FilteredNonEmpty` proves that no alphabet is ever empty, so no
  class is skipped and no warning fires (`NoWarnings`).

A negative `length` follows Python's slice semantics: `guaranteed[:length]`
drops characters from the end. `Generate` needs no `length >= 0`
precondition. Its length guarantee for negative lengths is stated through
`OutputLength`.

## Model

| member | source | states |
|---|---|---|
| Alphabets.Without | sifre_olustur.py:59-62 | the order-preserving look-alike filter never lengthens an alphabet |
| Alphabets.Filtered | sifre_olustur.py:52-62 | a working alphabet holds only characters of its base alphabet, none of them a look-alike when those are excluded, and is the base alphabet itself otherwise |
| Alphabets.SelectedCount | sifre_olustur.py:138 | the count of set class flags is at most 4, is 0 exactly when no flag is set, and is 4 exactly when all are |
| Alphabets.WithoutMembers | sifre_olustur.py:58-62 | the filter keeps exactly the characters of the alphabet that are not look-alikes and never adds characters |
| Alphabets.CharRange | sifre_olustur.py:52-55 | an alphabet built from a run of ASCII codes holds exactly the characters from `lo` to `hi`, each once, in code order |
| Alphabets.WithoutNothingBanned | sifre_olustur.py:58-62 | filtering an alphabet that holds no look-alike leaves it unchanged |
| Alphabets.SymbolsUnfiltered | sifre_olustur.py:55-62 | the 32 punctuation characters hold no look-alike, so the symbol alphabet is the same with or without filtering |
| Alphabets.BaseInRange | sifre_olustur.py:52-55 | each base alphabet lies in its own ASCII range (A-Z, a-z, 0-9, the four punctuation ranges) |
| Alphabets.FilteredChars | sifre_olustur.py:40 | a character of a working alphabet belongs to its class, and is not a look-alike when those are excluded |
| Alphabets.FilteredNonEmpty | sifre_olustur.py:58-62 | no working alphabet is empty, with or without the look-alike filter |
| Alphabets.ClassesDisjoint | sifre_olustur.py:52-55 | no character belongs to two classes |
| Shuffle.Swap | sifre_olustur.py:107 | one shuffle step exchanges two positions, leaves the others alone and keeps the multiset |
| Shuffle.ShuffleFrom | sifre_olustur.py:107 | the remaining shuffle steps keep the length and the multiset of characters |
| Shuffle.Shuffled | sifre_olustur.py:107 | the shuffle is a rearrangement: same length, same multiset, same characters |
| Shuffle.DrawsExist | sifre_olustur.py:107 | every sequence length has a valid set of shuffle draws |
| Generator.Contributing | sifre_olustur.py:68-91 | the classes that contribute are exactly the contributing ones, listed in the order upper, lower, digits, symbols |
| Generator.ContributesWhenSelected | sifre_olustur.py:68-91 | a class contributes to the pool and to the guaranteed draws exactly when it is selected |
| Generator.Pool | sifre_olustur.py:65-90 | `char_pool` is empty exactly when no class is selected |
| Generator.Warnings | sifre_olustur.py:68-87 | a warning is raised only for a selected upper, lower or digit class whose working alphabet is empty |
| Generator.PrefixTo | sifre_olustur.py:102 | Python's `s[:stop]` gives a prefix of `s`: `stop` characters for `0 <= stop <= len(s)`, all of `s` beyond that, `len(s) + stop` for a negative `stop`, and nothing once `-stop >= len(s)` |
| Generator.PoolFromSelected | sifre_olustur.py:72-90 | every pool character comes from the working alphabet of a selected class |
| Generator.Guaranteed | sifre_olustur.py:66-91 | one guaranteed character per contributing class, the k-th drawn from the k-th class's alphabet |
| Generator.Filler | sifre_olustur.py:104 | filler characters come from the pool, one per filler draw |
| Generator.Drawn | sifre_olustur.py:98-104 | the list before shuffling has the length `OutputLength` gives |
| Generator.DrawnFromSelected | sifre_olustur.py:98-104 | every character before shuffling, guaranteed or filler, comes from a selected class |
| Generator.DrawnAllFromSelected | sifre_olustur.py:58-104 | every character before shuffling comes from a selected class, and none is a look-alike when those are excluded |
| Generator.SelectedNotSimilar | sifre_olustur.py:58-62 | with look-alikes excluded, no character of a selected class is a look-alike |
| Generator.Generate | sifre_olustur.py:46-109 | `None` exactly when no class is selected. Otherwise: exactly `length` characters for `length >= 0`; fewer than the class count for a negative length; every character from a selected class; no look-alike when excluded; the same multiset as the list before shuffling |
| Generator.NoWarnings | sifre_olustur.py:68-87 | the "no characters left" warnings never fire |
| Generator.ContributingCount | sifre_olustur.py:68-91 | the number of guaranteed draws equals the number of selected classes |
| Generator.OracleExists | sifre_olustur.py:73-107 | every request has random draws that fit it |
| Generator.CoversSelectedClasses | sifre_olustur.py:68-104 | when `length` is at least the number of selected classes, every selected class appears in the password |
| Generator.KeptClass | sifre_olustur.py:101-102 | a rearranged prefix of n one-per-class draws holds class k exactly when k < n |
| Generator.DrawnWhenShort | sifre_olustur.py:101-102 | when `length` is below the class count, the list before shuffling is the first `length` guaranteed characters |
| Generator.ShortLengthKeepsLeadingClasses | sifre_olustur.py:98-107 | when `length` is below the class count, the password rearranges the first `length` guaranteed characters and holds exactly the first `length` classes in the order upper, lower, digits, symbols |
| Generator.ShuffleOnlyPermutes | sifre_olustur.py:98-107 | the password's multiset is the guaranteed plus filler characters, or the cut guaranteed list |
| StrengthMeter.LengthPoints | sifre_olustur.py:126-133 | for a non-negative length, the uncapped length points lie between 2 and 4 per character |
| StrengthMeter.DiversityPoints | sifre_olustur.py:140-147 | diversity points lie in 0..50 and are positive exactly for a class count of 1 to 4 |
| StrengthMeter.Score | sifre_olustur.py:123-150 | the score never exceeds 100. It is non-negative for a non-negative length. It is at most the capped length points plus 50 |
| StrengthMeter.Rated | sifre_olustur.py:154-165 | the label is Zayıf below 35, Orta below 65, Güçlü below 85 and Çok Güçlü from 85 (each an if-and-only-if); the style is danger, warning or success by the same bands |
| StrengthMeter.CalculateStrength | sifre_olustur.py:112-167 | an empty password gives ("...", 0, "Horizontal.TProgressbar"); the score is in [0, 100] for a non-negative length; the label matches the score bands |
| StrengthMeter.IgnoresContent | sifre_olustur.py:120-138 | two non-empty passwords with the same length and flags get the same result |
| StrengthMeter.MonotoneInLength | sifre_olustur.py:126-135 | length points and the score never decrease with length, across the 8 and 12 band edges |
| StrengthMeter.MonotoneInClasses | sifre_olustur.py:138-150 | for class counts 0 to 4, more classes never lower the diversity points or the score |
| StrengthMeter.MonotoneInFlags | sifre_olustur.py:138-150 | turning on a class flag never lowers the score |
| StrengthMeter.LengthCapFrom13 | sifre_olustur.py:126-135 | the 50-point length cap holds exactly from 13 characters |
| StrengthMeter.FullScoreIff | sifre_olustur.py:125-150 | a score of 100 needs, and follows from, at least 13 characters and all four classes |
| StrengthMeter.Examples | sifre_olustur.py:112-167 | concrete results: six lower-case characters give Zayıf 17; twelve characters with all four classes give Çok Güçlü 98; thirteen give 100 |

## Left out

- The Tkinter application class (sifre_olustur.py:172-434): window layout, event handlers, the visibility toggle, progress-bar styling. It is user interface only.
- The `messagebox.showwarning` calls: modelled only as the `Warnings` list. That list has no effect on the result and is proved empty.
- Clipboard copying through `pyperclip`: it is an optional foreign library.
- Saving to `kayitli_sifreler.json`: file I/O and timestamps.
- The quality of the randomness. Uniform choice, the uniformity of the shuffle, and unpredictability cannot be stated about a fixed oracle.
- Shuffle.Shuffled: states that the shuffle rearranges its input. It does not state that every permutation is reachable.
- The 6 to 64 range of the length slider: the user interface enforces it, not the core. The model accepts any integer length.
