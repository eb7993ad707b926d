# Character frequency counter, modelled in Dafny

The Go program `freq-counter` reads a file, counts each Unicode code point,
ranks the characters by count (largest first) and prints the ranking with
two totals: the number of distinct characters and the number of characters.
This project models the three parts of that program that compute something:

- the **counter** (`countFreq`): one pass over the code points, incrementing
  each one's entry in a `map[rune]int`, where a missing key counts as zero;
- the **ranker** (`sortFreq`): copies every map entry into a list of `freq`
  records (character, count), then sorts the list in place by count,
  descending;
- the **totals** loop of `printFreq`: walks the ranked list, adding each
  count to `totalC` and one to `uniqueC` per record.

Files and modules:

- `freq_maps.dfy`, module `FreqMaps`: the map type `FreqMap = map<char, int>`,
  the record `Freq(ch, freq)`, the set of a map's entries `Entries(m)`, and the
  sum of a map's values `MapSum(m)` with the lemmas that make it independent
  of key order.
- `counter.dfy`, module `Counter`: the reference count `Occurrences(s, c)`, the
  reference map `Counts(s)`, the method `CountFreq` with its loop, and the
  lemmas about `Counts`.
- `ranker.dfy`, module `Ranker`: `NonIncreasing`, `IsPermutationOfEntries` and
  `IsRanking`; the collecting loop `CollectEntries` that fills an array from the
  map; an in-place insertion sort `SortByFreqDescending`; `SortFreq`, which
  chains the two; and lemmas about what a ranking is.
- `summary.dfy`, module `Summary`: the totals loop `Totals`, `printFreq`
  without the printing (`PrintFreq`), and the whole pipeline on decoded text
  (`FreqReport`).
- `scenarios.dfy`, module `Scenarios`: the inputs `"aab"`, `"AaAa!!"` and `""`
  worked through. The `"AaAa!!"` lemmas take the three code points as
  parameters (any three distinct ones), which covers `A`, `a` and `!`.

Code points are Dafny `char` values (Unicode scalar values), which is what
Go's `range` over a string yields. Map iteration order, which Go randomises,
is modelled by picking an arbitrary remaining key (`:|`), so the proofs hold
for every order. No order among characters with equal counts is promised,
because the source promises none: `sort.Slice` is not stable and the
records arrive in map order. Any sort gives the same counts column; the
lemma `Ranker.RankingCountsDetermined` proves that two rankings of one map
differ only in how tied characters are ordered.

## Model

| member | source | states |
|---|---|---|
| `Counter.CountFreq` | freq_counter.go:29-35 | The map built by the loop is the reference map `Counts(s)`: its keys are exactly the code points of `s`, and each key's value is its number of occurrences in `s`, at least 1. |
| `Counter.CountsSnoc` | freq_counter.go:31-32 | Reading one more code point `x` changes the map only at `x`, whose count goes up by one, starting from zero when `x` had no key. |
| `Counter.CountsKeys` | freq_counter.go:30-33 | The keys are exactly the distinct code points of the input, so the map has one key per distinct code point, and the empty input gives the empty map. |
| `Counter.CountsValues` | freq_counter.go:31-33 | Every value equals the multiplicity of its key in the input and is at least 1, since a key is only created by an increment. |
| `Counter.CountsSum` | freq_counter.go:31-33 | The values of the map sum to the number of code points in the input. |
| `Counter.OccurrencesPositive` | freq_counter.go:31-33 | A code point is counted at least once if and only if it occurs in the input. |
| `Counter.OccurrencesIsMultiplicity` | freq_counter.go:31-33 | The recursive occurrence count agrees with the multiplicity of the code point in the multiset of the input. |
| `Counter.OccurrencesAppend` | freq_counter.go:31-33 | Occurrence counts add up over concatenation of inputs. |
| `Ranker.CollectEntries` | freq_counter.go:72-77 | The collecting loop produces one record per map entry, key and value copied unchanged: the array holds the entries of the map, each exactly once, in whatever order the map is walked. |
| `Ranker.SortByFreqDescending` | freq_counter.go:78 | After the sort the counts are non-increasing from the front, and the array holds the same records as before. |
| `Ranker.InsertDescending` | freq_counter.go:78 | One insertion pass extends the sorted prefix by one record, leaves every record after index `i` where it was, and does not change the multiset of records. |
| `Ranker.SortFreq` | freq_counter.go:67-80 | The returned list has one record per key of the map, is a permutation of the map's entries, and has non-increasing counts. |
| `Ranker.PermutationListsEachKeyOnce` | freq_counter.go:72-77 | A permutation of a map's entries has the map's length, every record is a key with its value unchanged, every key appears, and no key appears twice. |
| `Ranker.SortedListingsAgreeOnCounts` | freq_counter.go:78 | Two sorted lists with the same records have the same count at every position. |
| `Ranker.RankingCountsDetermined` | freq_counter.go:67-80 | Any two rankings of one map have the map's length and agree on the count at every position; only tied characters may be ordered differently. |
| `Summary.Totals` | freq_counter.go:45-47 | The loop ends with `uniqueC` equal to the length of the list and `totalC` equal to the sum of its counts. |
| `Summary.SumOfPermutation` | freq_counter.go:43-47 | Summing the counts of any listing of a map's entries gives the sum of the map's values, whatever the order. |
| `Summary.PrintFreq` | freq_counter.go:39-47 | The ranked list is a ranking of the map, `uniqueC` is the number of keys and `totalC` is the sum of the values. |
| `Summary.FreqReport` | freq_counter.go:88 | Counting then ranking yields a ranking of the input's frequency map, with `uniqueC` the number of distinct code points and `totalC` the number of code points. |
| `Scenarios.CountsOfAab` | freq_counter.go:29-35 | For `"aab"` the map is a:2, b:1, with 2 distinct code points. |
| `Scenarios.RankingOfAab` | freq_counter.go:67-80 | For `"aab"` the only ranking is a:2 then b:1. |
| `Scenarios.OccurrencesOfTies` | freq_counter.go:31-33 | In `"AaAa!!"` (any three distinct code points in that pattern) each code point occurs twice. |
| `Scenarios.CountsOfTies` | freq_counter.go:29-35 | For `"AaAa!!"` the map is A:2, a:2, !:2, with 3 distinct code points; upper and lower case are different keys. |
| `Scenarios.ListingOfThreeTies` | freq_counter.go:72-77 | Any listing of the entries of A:2, a:2, !:2 holds each of the three records exactly once, each with count 2. |
| `Scenarios.RankingOfTies` | freq_counter.go:67-80 | For `"AaAa!!"` every ranking is the three records A:2, a:2, !:2, each exactly once, in an order left open. |
| `Scenarios.RankingOfEmpty` | freq_counter.go:29-35 | The empty input gives the empty map and the empty ranking. |
| `FreqMaps.EntriesCard` | freq_counter.go:72-77 | A map has as many entries as keys, so listing each entry once gives a list of the map's length. |
| `FreqMaps.MapSumRemove` | freq_counter.go:45-46 | The sum of a map's values does not depend on the order in which keys are taken. |

## Left out

- `readFile` (freq_counter.go:56-63): file I/O through `ioutil.ReadFile`, and the exit with status 1 when the file cannot be read.
- `main` (freq_counter.go:82-90): argument-count check, usage message and exit codes; `FreqReport` models only the call chain of line 88.
- Output formatting in `printFreq` (freq_counter.go:44, 48, 50-51): the header, the `%q` rendering of each character and the totals lines. `PrintFreq` returns the records and totals that would be printed.
- UTF-8 decoding by Go's `range` over a string (freq_counter.go:31), including the substitution of U+FFFD for invalid bytes: the input is the already decoded sequence of code points.
- The algorithm inside `sort.Slice` (freq_counter.go:78): an insertion sort stands in for it; only sortedness and permutation are specified, so the tie order `sort.Slice` happens to produce is not modelled.
- Go's `int` is 64 bits on the 64-bit platform the source was written for (freq_counter.go:6) and 32 bits on 32-bit targets: counts and totals are unbounded integers here. Overflow would need more than 2^63 code points on the former, more than 2^31 on the latter.
- The slice returned by `sortFreq` is modelled as the sequence of its contents: it is freshly built and read only by its caller, so no aliasing is lost.
- Re-running the counter on the same text yields the same map: this follows from `CountFreq` returning `Counts(s)`, a function of the input alone, and needs no lemma of its own.
