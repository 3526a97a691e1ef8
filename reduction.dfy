/**
 Collecting the partial counts.

 The threads are not modelled; the channel is. `pending` is the bag of
 results that have been or will be sent and are not yet received; a
 receive takes whichever of them arrives first, which the model leaves open
 (`:|`). Spawning an adding thread puts the merge of its two arguments into
 the bag, since that thread will send exactly that.
 */
module Reduction {
  import opened Frequency
  import opened Counter

  /**
   The receive loop of character_frequencies_with_n_threads_with_case:
   `waiting` results are outstanding; every arrival is pushed onto
   `received`, and as soon as two are there they are popped and handed to
   a new adding thread, which makes one more result outstanding.
   */
  method PairwiseReduce(results: multiset<FreqMap>, threads: nat)
    returns (freq: FreqMap, ghost iterations: nat, ghost merges: nat)
    requires threads >= 1
    requires |results| == threads
    ensures freq == MergeBag(results)
    ensures iterations == 2 * threads - 1
    ensures merges == threads - 1
  {
    var pending := results;
    var waiting: nat := threads;
    var received: seq<FreqMap> := [];
    iterations, merges := 0, 0;
    assert pending + multiset(received) == results;
    assert Conserves(pending, received, MergeBag(results));
    while waiting > 0
      invariant |pending| == waiting
      invariant |received| <= 1
      invariant waiting + |received| >= 1
      invariant Conserves(pending, received, MergeBag(results))
      invariant iterations + 2 * waiting + |received| == 2 * threads
      invariant merges + waiting + |received| == threads
      decreases 2 * waiting + |received|
    {
      var arrived :| arrived in pending;
      ReceiveKeepsBag(pending, received, arrived, MergeBag(results));
      pending, received, waiting := pending - multiset{arrived}, received + [arrived], waiting - 1;
      if |received| >= 2 {
        var first, second := received[1], received[0];
        var sum := AddFrequencies(first, second);
        MergeKeepsBag(pending, received, MergeBag(results));
        received, pending := [], pending + multiset{sum};
        waiting, merges := waiting + 1, merges + 1;
      }
      iterations := iterations + 1;
    }
    assert |received| == 1 && pending == multiset{};
    freq := received[0];
    LastLiveMap(received, MergeBag(results));
  }

  /** The live maps, those still in the channel and those received, merge to `total`. */
  ghost predicate Conserves(pending: multiset<FreqMap>, received: seq<FreqMap>, total: FreqMap) {
    MergeBag(pending + multiset(received)) == total
  }

  /** When one map is left, it is the total. */
  lemma LastLiveMap(received: seq<FreqMap>, total: FreqMap)
    requires |received| == 1
    requires Conserves(multiset{}, received, total)
    ensures received[0] == total
  {
    assert multiset{} + multiset(received) == multiset{} + multiset{received[0]};
    MergeBagAdd(multiset{}, received[0]);
    MergeIdentity(received[0]);
  }

  /** Moving a map from the channel to `received` keeps the merge of the live maps. */
  lemma ReceiveKeepsBag(pending: multiset<FreqMap>, received: seq<FreqMap>, arrived: FreqMap, total: FreqMap)
    requires arrived in pending
    requires Conserves(pending, received, total)
    ensures Conserves(pending - multiset{arrived}, received + [arrived], total)
  {
    assert (pending - multiset{arrived}) + multiset(received + [arrived]) == pending + multiset(received);
  }

  /** Handing the two received maps to an adding thread keeps the merge of the live maps. */
  lemma MergeKeepsBag(pending: multiset<FreqMap>, received: seq<FreqMap>, total: FreqMap)
    requires |received| == 2
    requires Conserves(pending, received, total)
    ensures Conserves(pending + multiset{Merge(received[1], received[0])}, [], total)
  {
    assert received == [received[0], received[1]];
    assert pending + multiset(received) == pending + multiset{received[0]} + multiset{received[1]};
    assert pending + multiset{Merge(received[1], received[0])} + multiset([])
        == pending + multiset{Merge(received[1], received[0])};
    MergeBagPair(pending, received[1], received[0]);
  }

  /**
   The receive loop of src/main.rs: take the first result to arrive, then
   merge in exactly `threads - 1` more, each whichever arrives next.
   */
  method LinearFold(results: multiset<FreqMap>, threads: nat) returns (freq: FreqMap)
    requires threads >= 1
    requires |results| == threads
    ensures freq == MergeBag(results)
  {
    var pending := results;
    var first :| first in pending;
    pending := pending - multiset{first};
    freq := first;
    MergeBagRemove(results, first);
    for k := 0 to threads - 1
      invariant |pending| == threads - 1 - k
      invariant Merge(freq, MergeBag(pending)) == MergeBag(results)
    {
      var next :| next in pending;
      MergeBagRemove(pending, next);
      MergeAssociative(freq, next, MergeBag(pending - multiset{next}));
      pending := pending - multiset{next};
      freq := AddFrequencies(freq, next);
    }
    assert pending == multiset{};
    MergeIdentity(freq);
  }
}
