/**
 The public API of the library (src/lib.rs): the parallel counter, its
 sequential fallback and the wrappers that supply default arguments.

 The threads are modelled by what they send: one partial count per planned
 range, all of them computed from the same text and the same case mode. The
 number of CPUs, which the wrappers ask the host for, is a parameter.
 */
module CharacterFrequency {
  import opened CaseFold
  import opened Frequency
  import opened Counter
  import opened Planner
  import opened Reduction

  /** The partial count of every range of a plan, in plan order. */
  function PartialCounts(text: seq<char>, plan: seq<Range>, mode: Case): (counts: seq<FreqMap>)
    requires forall i :: 0 <= i < |plan| ==> plan[i].from <= plan[i].to
    ensures |counts| == |plan|
  {
    seq(|plan|, i requires 0 <= i < |plan| => RangeCount(text, plan[i].from, plan[i].to, mode))
  }

  /** A prefix of a contiguous plan is contiguous. */
  lemma ContiguousPrefix(plan: seq<Range>, k: nat)
    requires Contiguous(plan) && k <= |plan|
    ensures Contiguous(plan[..k])
  {
    var init := plan[..k];
    forall i | 0 < i < k ensures init[i].from == init[i - 1].to + 1 {
      assert plan[i].from == plan[i - 1].to + 1;
    }
  }

  /** The counts of a prefix of the plan are a prefix of the counts. */
  lemma PartialCountsPrefix(text: seq<char>, plan: seq<Range>, mode: Case, k: nat)
    requires Contiguous(plan) && k <= |plan|
    ensures Contiguous(plan[..k])
    ensures PartialCounts(text, plan[..k], mode) == PartialCounts(text, plan, mode)[..k]
  {
    ContiguousPrefix(plan, k);
  }

  /** Merging the counts of ranges laid end to end counts the span they cover. */
  lemma {:induction false} ContiguousCountsMerge(text: seq<char>, plan: seq<Range>, mode: Case)
    requires |plan| >= 1 && Contiguous(plan)
    ensures plan[0].from <= plan[|plan| - 1].to
    ensures MergeSeq(PartialCounts(text, plan, mode)) == RangeCount(text, plan[0].from, plan[|plan| - 1].to, mode)
    decreases |plan|
  {
    var k := |plan|;
    if k == 1 {
      var counts := PartialCounts(text, plan, mode);
      assert counts[..0] == [];
      MergeIdentity(counts[0]);
    } else {
      PartialCountsPrefix(text, plan, mode, k - 1);
      ContiguousCountsMerge(text, plan[..k - 1], mode);
      JoinLastRange(text, plan, mode);
    }
  }

  /** Merging the count of the last range into the merged counts of the others. */
  lemma JoinLastRange(text: seq<char>, plan: seq<Range>, mode: Case)
    requires |plan| >= 2 && Contiguous(plan)
    requires plan[0].from <= plan[|plan| - 2].to
    requires MergeSeq(PartialCounts(text, plan, mode)[..|plan| - 1])
          == RangeCount(text, plan[0].from, plan[|plan| - 2].to, mode)
    ensures MergeSeq(PartialCounts(text, plan, mode)) == RangeCount(text, plan[0].from, plan[|plan| - 1].to, mode)
  {
    var k := |plan|;
    assert plan[k - 1].from == plan[k - 2].to + 1;
    RangeCountSplit(text, plan[0].from, plan[k - 2].to, plan[k - 1].to, mode);
  }

  /** The counting threads: one range count per planned range. */
  method CountRanges(text: seq<char>, plan: seq<Range>, mode: Case) returns (partials: seq<FreqMap>)
    requires Contiguous(plan)
    ensures partials == PartialCounts(text, plan, mode)
  {
    partials := [];
    for i := 0 to |plan|
      invariant partials == PartialCounts(text, plan[..i], mode)
    {
      var counted := CharacterFrequenciesRange(text, plan[i].from, plan[i].to, mode);
      partials := partials + [counted];
    }
    assert plan[..|plan|] == plan;
  }

  /**
   Whatever order the partial counts arrive in, merging all of them gives
   the frequencies of the whole text, provided the plan starts at 0, is laid
   end to end and reaches the last character.
   */
  lemma PlannedCountsMerge(text: seq<char>, plan: seq<Range>, mode: Case)
    requires |plan| >= 1 && Contiguous(plan)
    requires plan[0].from == 0 && plan[|plan| - 1].to + 1 >= |text|
    ensures MergeBag(multiset(PartialCounts(text, plan, mode))) == Frequencies(mode, text)
  {
    MergeBagOfSeq(PartialCounts(text, plan, mode));
    ContiguousCountsMerge(text, plan, mode);
    RangeCountWhole(text, plan[|plan| - 1].to, mode);
  }

  /**
   sequential_character_frequencies: count positions `0..=text.len() - 1`,
   where `text.len()` is the byte length. The subtraction underflows on an
   empty text, so the text must not be empty.
   */
  method SequentialCharacterFrequencies(text: seq<char>, mode: Case) returns (freq: FreqMap)
    requires |text| > 0
    ensures freq == Frequencies(mode, text)
  {
    freq := CharacterFrequenciesRange(text, 0, ByteLength(text) - 1, mode);
    RangeCountWhole(text, ByteLength(text) - 1, mode);
  }

  /**
   character_frequencies_with_n_threads_with_case: with at most one thread,
   the sequential path; otherwise plan, count every range, and pair off the
   results as they arrive. Equal to the sequential count for every thread
   count and every arrival order. An empty text only fails on the sequential
   path: with two or more threads every range lies past the end and counts
   nothing.
   */
  method CharacterFrequenciesWithNThreadsWithCase(text: seq<char>, threads: nat, mode: Case)
    returns (freq: FreqMap)
    requires threads > 1 || |text| > 0
    ensures freq == Frequencies(mode, text)
  {
    if threads <= 1 {
      freq := SequentialCharacterFrequencies(text, mode);
      return;
    }
    var n := ByteLength(text);
    var plan := Plan(n, threads);
    PlanLayout(n, threads);
    var partials := CountRanges(text, plan, mode);
    ghost var iterations, merges;
    freq, iterations, merges := PairwiseReduce(multiset(partials), threads);
    PlannedCountsMerge(text, plan, mode);
  }

  /** character_frequencies_with_n_threads: the default case mode, Insensitive. */
  method CharacterFrequenciesWithNThreads(text: seq<char>, threads: nat) returns (freq: FreqMap)
    requires threads > 1 || |text| > 0
    ensures freq == Frequencies(Insensitive, text)
  {
    freq := CharacterFrequenciesWithNThreadsWithCase(text, threads, DefaultCase);
  }

  /** character_frequencies_with_case: as many threads as the host reports CPUs (`cpus`, at least 1). */
  method CharacterFrequenciesWithCase(text: seq<char>, mode: Case, cpus: nat) returns (freq: FreqMap)
    requires cpus >= 1
    requires cpus > 1 || |text| > 0
    ensures freq == Frequencies(mode, text)
  {
    freq := CharacterFrequenciesWithNThreadsWithCase(text, cpus, mode);
  }

  /** character_frequencies: as many threads as CPUs, case-insensitive. */
  method CharacterFrequencies(text: seq<char>, cpus: nat) returns (freq: FreqMap)
    requires cpus >= 1
    requires cpus > 1 || |text| > 0
    ensures freq == Frequencies(Insensitive, text)
  {
    freq := CharacterFrequenciesWithNThreads(text, cpus);
  }
}
