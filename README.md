# character_frequency, modelled in Dafny

A model of the counting core of the Rust crate `character_frequency`. The
crate counts how often each character occurs in a text. It cuts the text
into ranges of character positions, counts each range on its own thread,
and merges the partial counts as they arrive over a channel. The library
(`src/lib.rs`) and an older copy in the binary (`src/main.rs`) are both
modelled.

Modules, one concern each:

- `CaseFold` (`casefold.dfy`): the `Case` enum and the key a character is
  counted under. `Sensitive` is the identity. `Insensitive` is
  `to_ascii_lowercase`, so only `'A'..'Z'` change. The default is `Insensitive`.
- `Frequency` (`frequency.dfy`): frequency maps `map<char, nat>`. It defines
  the tally of a sequence, the key-by-key merge, the sum of all counts, and
  the merge of a bag of maps. The merge algebra is proved here.
- `Counter` (`counter.dfy`): the range counter `character_frequencies_range`
  and `add_frequencies`, both as loops proved against their specifications.
  It also gives the UTF-8 byte length that the planner divides.
- `Planner` (`planner.dfy`): the two loops that hand out ranges, proved equal
  to a closed-form plan, and the layout of that plan.
- `Reduction` (`reduction.dfy`): the two receive loops. One is the pairing
  loop of the library (`waiting_num` and `received`). The other is the
  linear fold of the binary.
- `CharacterFrequency` (`library.dfy`): the public functions of
  `src/lib.rs`. Each one returns the sequential count, whatever the thread
  count and the arrival order.
- `Binary` (`binary.dfy`): the counter of `src/main.rs`. Its parallel
  result equals its sequential result, which is the check its `main` makes.
- `Scenarios` (`scenarios.dfy`): the repository's unit tests and doc
  examples, stated as lemmas about the model, plus one illustration of the
  Sensitive mode (`Scenarios.SensitiveCounts`).

How the model represents the program:

- A text is a `seq<char>`, and positions are character positions, as with
  `chars().skip(from)`.
- `text.len()` is the UTF-8 byte length, `Counter.ByteLength`. It is at
  least the number of characters, so planned ranges can reach past the last
  character. Those positions count nothing.
- The channel is a multiset of the maps that have been or will be sent and
  have not been received yet. A receive takes any one of them (`:|`).
- A spawned adding thread is represented by the merge it will send, which
  goes into that multiset.
- The number of CPUs is a parameter of the wrappers.

## Model

| member | source | states |
|---|---|---|
| CaseFold.ToAsciiLowercase | src/lib.rs:173 | An ASCII upper-case letter becomes the lower-case letter 32 code points above it. Every other character is returned unchanged. The result is never an upper-case ASCII letter. |
| CaseFold.Fold | src/lib.rs:172-175 | The key of a character is the character itself under Sensitive. Under Insensitive it is `ToAsciiLowercase`: never an ASCII upper-case letter, and differing from the character at most in ASCII case. `SensitiveKeys` and `InsensitiveKeys` give what this means for keys. |
| CaseFold.SensitiveKeys | src/lib.rs:172-175 | In Sensitive mode the key is the character itself, so two characters share a key exactly when they are equal. |
| CaseFold.InsensitiveKeys | src/lib.rs:22-24 | In Insensitive mode two characters share a key if and only if they are equal or differ only in ASCII case. Non-ASCII characters are never merged with anything else. |
| CaseFold.FoldIdempotent | src/lib.rs:172-175 | Folding a key again leaves it unchanged, in both modes. |
| CaseFold.FoldExample | src/lib.rs:94-95 | 'a' and 'A' share a key under Insensitive and do not under Sensitive. '维' is unchanged. |
| Frequency.TallyCounts | src/lib.rs:170-180 | The map built one character at a time holds each character exactly as often as it occurs. Its keys are exactly the characters that occur, so every stored count is at least 1. |
| Frequency.TallyAppend | src/lib.rs:170-180 | Counting a concatenation gives the merge of the counts of the two parts. |
| Frequency.TallyTotal | src/lib.rs:176-178 | The counts of a tally add up to the length of the counted sequence. |
| Frequency.MergePointwise | src/lib.rs:183-189 | The merge has the union of the two key sets. Each count is the sum of the two counts, an absent key reading as 0, so no key is dropped. |
| Frequency.MergePositive | src/lib.rs:183-189 | Merging two maps whose counts are all at least 1 gives such a map. |
| Frequency.MergeCommutative | src/lib.rs:183-189 | The merge does not depend on the order of its arguments. |
| Frequency.MergeAssociative | src/lib.rs:183-189 | Merges may be regrouped. |
| Frequency.MergeIdentity | src/lib.rs:183-189 | The empty map is the identity of the merge on either side. |
| Frequency.MergeSwap | src/lib.rs:183-189 | Two maps merged into a third may be merged in either order. |
| Frequency.MergeBagRemove | src/lib.rs:147-162 | Any map of a bag may be merged first: the merge of a bag does not depend on which map arrives first. |
| Frequency.MergeBagAdd | src/lib.rs:147-162 | Sending one more map adds it into the merge of the bag. |
| Frequency.MergeBagPair | src/lib.rs:153-160 | Replacing two maps of a bag by their merge leaves the merge of the bag unchanged. |
| Frequency.MergeBagOfSeq | src/main.rs:76-79 | The merge of the bag of a sequence of maps equals their left-to-right merge. |
| Frequency.TotalRemove | src/lib.rs:176-178 | The sum of all counts may be taken starting from any key. |
| Frequency.TotalIncrement | src/lib.rs:176-178 | Counting one more character raises the sum of all counts by exactly 1. |
| Counter.ByteLength | src/lib.rs:104 | The UTF-8 length is between one and four bytes per character, and it is 0 only for the empty text. |
| Counter.Folded | src/lib.rs:172-175 | Every character of a sequence is replaced by its key under the mode, position by position. |
| Counter.CharacterFrequenciesRange | src/lib.rs:169-181 | The loop over positions `from..=to` returns the count of the folded characters of that range. Positions past the end contribute nothing. |
| Counter.AddFrequencies | src/lib.rs:183-189 | Adding every entry of `b` into `a`, in whatever order the keys of `b` come, returns the merge of `a` and `b`. |
| Counter.RangeCountMeaning | src/lib.rs:171-178 | Every count of a range result is at least 1. It equals the number of occurrences of that key among the folded characters of the range. |
| Counter.RangeCountPositions | src/lib.rs:171-178 | The count of `c` is the number of positions `i` with `from <= i <= to` and `i < \|text\|` whose folded character is `c`. |
| Counter.FoldedCountIsPositions | src/lib.rs:171-178 | Occurrences of a key among the folded characters of `start..end` are the positions there that fold to it. |
| Counter.RangeCountTotal | src/lib.rs:171 | The counts of a range add up to the number of its positions that exist in the text. |
| Counter.RangeCountSplit | src/lib.rs:119-120 | Counting two adjacent ranges and merging the results equals counting their union. |
| Counter.RangeCountWhole | src/lib.rs:165-167 | A range from 0 that reaches the last character counts the whole text. |
| Counter.FrequenciesMeaning | src/lib.rs:165-167 | The frequencies of a text hold every folded character as often as it occurs, only those, and add up to the length of the text. |
| Planner.Plan | src/lib.rs:104-133 | The two loops that advance `from` produce exactly the closed-form plan: `t - n % t` ranges of `max(1, n / t)` positions, then `n % t` ranges of one more. |
| Planner.PlanEnd | src/lib.rs:125-133 | After all ranges, `from` is `n` when `t <= n` and `t + n` otherwise. |
| Planner.PlanContiguous | src/lib.rs:125-133 | Every range is non-empty and begins right after the previous one ends: no gap and no overlap. |
| Planner.PlanSizes | src/lib.rs:104-107 | The first `t - n % t` ranges hold `max(1, n / t)` positions and the rest hold one more. |
| Planner.PlanCovers | src/lib.rs:104-133 | The last range ends at `n - 1` when `t <= n` and at `t + n - 1` otherwise. |
| Planner.PlanLayout | src/lib.rs:104-133 | The plan has `t` ranges, starts at 0, is contiguous, and reaches position `n - 1`. |
| Planner.PlanSingleThread | src/main.rs:41-51 | With one thread the plan is the single range `0..=n-1`. |
| Planner.PlanTenThreadsTwelveBytes | src/main.rs:183-195 | Ten threads over twelve bytes get eight single positions, then `8..=9` and `10..=11`. |
| Reduction.PairwiseReduce | src/lib.rs:147-162 | For every arrival order, the pairing loop returns the merge of all `t` partial counts. It takes `2t - 1` iterations and `t - 1` merges. `received` never holds more than one map between iterations. |
| Reduction.ReceiveKeepsBag | src/lib.rs:150-151 | A receive keeps the merge of the live maps (still in the channel or received) equal to the merge of all partial counts. |
| Reduction.MergeKeepsBag | src/lib.rs:153-160 | Handing the two received maps to an adding thread keeps that merge as well. |
| Reduction.LastLiveMap | src/lib.rs:162 | When a single received map is all that is live, it is the merge of all partial counts. |
| Reduction.LinearFold | src/main.rs:76-80 | Taking the first arrival and merging in exactly `t - 1` more returns the merge of all `t` partial counts, in any arrival order. |
| CharacterFrequency.CountRanges | src/lib.rs:109-133 | One range count per planned range, in plan order, each over the same text and mode. |
| CharacterFrequency.ContiguousCountsMerge | src/lib.rs:125-133 | Merging the counts of ranges laid end to end counts the span they cover. |
| CharacterFrequency.PlannedCountsMerge | src/lib.rs:96-163 | The counts of a plan that starts at 0, is contiguous and reaches the last character merge to the frequencies of the text, in any order. |
| CharacterFrequency.SequentialCharacterFrequencies | src/lib.rs:165-167 | Counting positions `0..=len-1` returns the frequencies of the whole text. |
| CharacterFrequency.CharacterFrequenciesWithNThreadsWithCase | src/lib.rs:96-163 | For every thread count and every arrival order the result equals the frequencies of the text, which is what the sequential path returns. |
| CharacterFrequency.CharacterFrequenciesWithNThreads | src/lib.rs:86-88 | The same with the default mode, Insensitive. |
| CharacterFrequency.CharacterFrequenciesWithCase | src/lib.rs:25-27 | The same with as many threads as CPUs. |
| CharacterFrequency.CharacterFrequencies | src/lib.rs:55-57 | Case-insensitive frequencies with as many threads as CPUs. |
| Binary.CharacterFrequenciesRange | src/main.rs:32-38 | The binary's range counter always folds ASCII case. Each count is at least 1 and equals the occurrences of that key in the range. |
| Binary.CharacterFrequencies | src/main.rs:28-30 | The binary's sequential counter returns the case-insensitive frequencies of the whole text. |
| Binary.ParallelCharacterFrequencies | src/main.rs:40-81 | With a thread count of 0 raised to 1, planning, counting and folding returns the case-insensitive frequencies for every thread count, the empty text included. |
| Binary.CompareCounters | src/main.rs:15-23 | The sequential and parallel counts the binary compares are equal, and their counts add up to the length of the text. |
| Scenarios.RangeRuns | src/lib.rs:241-302 | Runs of 'a' inside "aaaa" and "aaa" are counted as the tests expect. |
| Scenarios.RangeUnicode | src/lib.rs:195-210 | Positions 0..=13 of "维维尼熊aabbbccd\|@" count all 14 characters, each with its expected count. |
| Scenarios.RangeWithCase | src/lib.rs:212-225 | Sensitive counting of "XXaabbbccd\|@" keeps 'X' with count 2. |
| Scenarios.TestTextRange | src/lib.rs:227-239 | "aaaabbbccd\|@" over 0..=11 in Sensitive mode gives a:4, b:3, c:2, d:1, '\|':1, '@':1. |
| Scenarios.DefaultModeCounts | src/lib.rs:304-386 | The default-mode frequencies of "aaaabbbccd\|@" are the map every thread-count test expects. |
| Scenarios.HelloWorld | src/lib.rs:29-57 | "Hello, World!" is counted with upper-case letters under their lower-case keys: l:3, o:2, the rest 1. |
| Scenarios.SensitiveCounts | src/lib.rs:93-94 | An illustration of the doc comment: Sensitive counting of "AaaBbbCcd\|@" keeps 'A' and 'a' (and the other letter pairs) under separate keys with their own counts. |

## Left out

- Threads, the `mpsc` channel and `Arc` sharing are not modelled as such. The channel is a bag of the maps that will arrive, and a receive picks any one of them. Every counting thread computes its range count from the same text and mode. No thread fails, and every spawned thread sends exactly once.
- `num_cpus::get()` is a foreign call. The wrappers take the number of CPUs as a parameter, which must be at least 1.
- Reading `text.txt`, the timing and the printing in the binary's `main` are left out. `Binary.CompareCounters` models only the comparison it makes.
- `benches/benchmark.rs` is a benchmark harness with file I/O, and it calls `sequential_character_frequencies` with an argument list that no longer exists. `examples/hello.rs` calls functions and types that do not exist in the library. Neither is part of this model.
- usize arithmetic is not modelled. `text.len() - 1` underflows on an empty text, so `CharacterFrequency.SequentialCharacterFrequencies` and `Binary.CharacterFrequencies` require a non-empty text. The library's threaded path requires a non-empty text only when it takes the sequential branch (at most one thread); with two or more threads every range lies past the end and the result is empty. `Counter.CharacterFrequenciesRange` requires `from <= to`, because `to - from + 1` underflows otherwise; the planner never produces such a range. Counts are unbounded `nat`, so overflow of a count is not modelled.
- `HashMap` hashing and iteration order are not modelled. Maps are `map<char, nat>`. `Counter.AddFrequencies` visits the keys of `b` in an unspecified order.
- There is no full Unicode case folding, because the code has none: `Insensitive` changes only `'A'..'Z'`. There is no clamp of the thread count to the text length either. With more threads than bytes, the extra ranges lie past the end and count nothing (`Planner.PlanCovers`).
- The threads' ownership moves (`received.pop()` handing maps to a new thread) are modelled as values. `Reduction.PairwiseReduce` passes the two maps in the order the two pops produce: the first pop, `received[1]`, is the accumulator `a` of `add_frequencies`, and `received[0]` is added into it.
