/**
 The older copy of the counter in the crate's binary (src/main.rs).

 It always folds ASCII upper case to lower case, has no sequential shortcut
 (a thread count of 0 becomes 1), and collects the partial counts with a
 linear fold instead of pairing them off. Reading the text from a file,
 timing and printing are not modelled; the number of CPUs is a parameter.
 */
module Binary {
  import opened CaseFold
  import opened Frequency
  import opened Counter
  import opened Planner
  import opened Reduction
  import CharacterFrequency

  /** character_frequencies_range of the binary: the library's counter in Insensitive mode. */
  method CharacterFrequenciesRange(text: seq<char>, from: nat, to: nat) returns (freq: FreqMap)
    requires from <= to
    ensures Positive(freq)
    ensures forall c :: Get(freq, c) == multiset(Folded(Insensitive, Slice(text, from, to)))[c]
  {
    freq := Counter.CharacterFrequenciesRange(text, from, to, Insensitive);
    RangeCountMeaning(text, from, to, Insensitive);
  }

  /** character_frequencies of the binary: positions `0..=text.len() - 1`, so the text must not be empty. */
  method CharacterFrequencies(text: seq<char>) returns (freq: FreqMap)
    requires |text| > 0
    ensures freq == Frequencies(Insensitive, text)
  {
    freq := Counter.CharacterFrequenciesRange(text, 0, ByteLength(text) - 1, Insensitive);
    RangeCountWhole(text, ByteLength(text) - 1, Insensitive);
  }

  /**
   parallel_character_frequencies: clamp the thread count to at least 1,
   plan, count every range, then fold the results in arrival order. Equal
   to the sequential count for every thread count, the empty text included.
   */
  method ParallelCharacterFrequencies(text: seq<char>, threads: nat) returns (freq: FreqMap)
    ensures freq == Frequencies(Insensitive, text)
  {
    var t := threads;
    if t < 1 {
      t := 1;
    }
    var n := ByteLength(text);
    var plan := Plan(n, t);
    PlanLayout(n, t);
    var partials := CharacterFrequency.CountRanges(text, plan, Insensitive);
    freq := LinearFold(multiset(partials), t);
    CharacterFrequency.PlannedCountsMerge(text, plan, Insensitive);
  }

  /** The comparison the binary makes on its input: both counters agree. */
  method CompareCounters(text: seq<char>, cpus: nat) returns (sequential: FreqMap, parallel: FreqMap)
    requires |text| > 0
    ensures sequential == parallel
    ensures Total(parallel) == |text|
  {
    sequential := CharacterFrequencies(text);
    parallel := ParallelCharacterFrequencies(text, cpus);
    FrequenciesMeaning(Insensitive, text);
  }
}
