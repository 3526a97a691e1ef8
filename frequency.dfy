/**
 Frequency maps: a character maps to how many times it was counted.

 A counter only ever creates an entry when it counts a character, so every
 stored count is at least 1 (`Positive`). Merging adds counts key by key.
 */
module Frequency {

  type FreqMap = map<char, nat>

  /** The count of `c`, an absent key reading as 0 (`entry(c).or_insert(0)`). */
  function Get(m: FreqMap, c: char): nat {
    if c in m then m[c] else 0
  }

  /** Every stored count is at least 1: characters that never occurred are absent. */
  ghost predicate Positive(m: FreqMap) {
    forall c :: c in m ==> m[c] >= 1
  }

  /** Count one more occurrence of `c`. */
  function Increment(m: FreqMap, c: char): FreqMap {
    m[c := Get(m, c) + 1]
  }

  /** The frequency map of a sequence of (already folded) characters, built one character at a time. */
  function Tally(s: seq<char>): FreqMap
    decreases |s|
  {
    if s == [] then map[] else Increment(Tally(s[..|s| - 1]), s[|s| - 1])
  }

  /** Key-by-key sum of two frequency maps. */
  function Merge(a: FreqMap, b: FreqMap): FreqMap {
    map c | c in a.Keys + b.Keys :: Get(a, c) + Get(b, c)
  }

  /** Sum of all counts of a map. */
  ghost function Total(m: FreqMap): nat
    decreases |m.Keys|
  {
    if m == map[] then 0
    else
      var c :| c in m;
      m[c] + Total(m - {c})
  }

  /** Left fold of Merge over a sequence of maps, starting from the empty map. */
  function MergeSeq(ms: seq<FreqMap>): FreqMap
    decreases |ms|
  {
    if ms == [] then map[] else Merge(MergeSeq(ms[..|ms| - 1]), ms[|ms| - 1])
  }

  /** Merge of every map in a bag, in no particular order. */
  ghost function MergeBag(b: multiset<FreqMap>): FreqMap
    decreases |b|
  {
    if b == multiset{} then map[]
    else
      var m :| m in b;
      Merge(m, MergeBag(b - multiset{m}))
  }

  // ---------------------------------------------------------------------------
  // Equality of positive maps

  /** Two positive maps that agree on every count are equal. */
  lemma PositiveExt(a: FreqMap, b: FreqMap)
    requires Positive(a) && Positive(b)
    requires forall c :: Get(a, c) == Get(b, c)
    ensures a == b
  {
    assert a.Keys == b.Keys by {
      forall c | c in a ensures c in b { assert Get(a, c) >= 1; }
      forall c | c in b ensures c in a { assert Get(b, c) >= 1; }
    }
    forall c | c in a ensures a[c] == b[c] { assert Get(a, c) == Get(b, c); }
  }

  // ---------------------------------------------------------------------------
  // Tally

  /** Tally counts every character as often as it occurs, and only characters that occur. */
  lemma {:induction false} TallyCounts(s: seq<char>)
    ensures Positive(Tally(s))
    ensures forall c :: Get(Tally(s), c) == multiset(s)[c]
    ensures Tally(s).Keys == set c | c in s
    decreases |s|
  {
    if s != [] {
      var init, last := s[..|s| - 1], s[|s| - 1];
      TallyCounts(init);
      assert s == init + [last];
      assert multiset(s) == multiset(init) + multiset{last};
    }
  }

  /** Tallying a concatenation merges the two tallies. */
  lemma TallyAppend(s: seq<char>, t: seq<char>)
    ensures Tally(s + t) == Merge(Tally(s), Tally(t))
  {
    TallyCounts(s);
    TallyCounts(t);
    TallyCounts(s + t);
    MergePositive(Tally(s), Tally(t));
    assert multiset(s + t) == multiset(s) + multiset(t);
    PositiveExt(Tally(s + t), Merge(Tally(s), Tally(t)));
  }

  // ---------------------------------------------------------------------------
  // Merge algebra

  /** Merge is the pointwise sum over the union of the keys: nothing is dropped. */
  lemma MergePointwise(a: FreqMap, b: FreqMap)
    ensures Merge(a, b).Keys == a.Keys + b.Keys
    ensures forall c :: Get(Merge(a, b), c) == Get(a, c) + Get(b, c)
  {
  }

  lemma MergePositive(a: FreqMap, b: FreqMap)
    requires Positive(a) && Positive(b)
    ensures Positive(Merge(a, b))
  {
  }

  lemma MergeCommutative(a: FreqMap, b: FreqMap)
    ensures Merge(a, b) == Merge(b, a)
  {
  }

  lemma MergeAssociative(a: FreqMap, b: FreqMap, c: FreqMap)
    ensures Merge(Merge(a, b), c) == Merge(a, Merge(b, c))
  {
    var l, r := Merge(Merge(a, b), c), Merge(a, Merge(b, c));
    assert l.Keys == r.Keys;
    forall k | k in l ensures l[k] == r[k] {
      assert l[k] == Get(a, k) + Get(b, k) + Get(c, k);
    }
  }

  /** Two maps merged into a third may be merged in either order. */
  lemma MergeSwap(a: FreqMap, b: FreqMap, c: FreqMap)
    ensures Merge(a, Merge(b, c)) == Merge(b, Merge(a, c))
  {
    var l, r := Merge(a, Merge(b, c)), Merge(b, Merge(a, c));
    assert l.Keys == r.Keys;
    forall k | k in l ensures l[k] == r[k] {
      assert l[k] == Get(a, k) + Get(b, k) + Get(c, k);
    }
  }

  /** The empty map is the identity of Merge, on either side. */
  lemma MergeIdentity(a: FreqMap)
    ensures Merge(a, map[]) == a
    ensures Merge(map[], a) == a
  {
  }

  // ---------------------------------------------------------------------------
  // Totals

  /** Total may take its keys in any order. */
  lemma {:induction false} TotalRemove(m: FreqMap, c: char)
    requires c in m
    ensures Total(m) == m[c] + Total(m - {c})
    decreases |m.Keys|
  {
    var d :| d in m && Total(m) == m[d] + Total(m - {d});
    if d != c {
      assert (m - {d}).Keys == m.Keys - {d};
      assert (m - {c}).Keys == m.Keys - {c};
      TotalRemove(m - {d}, c);
      TotalRemove(m - {c}, d);
      assert m - {d} - {c} == m - {c} - {d};
    }
  }

  lemma TotalIncrement(m: FreqMap, c: char)
    ensures Total(Increment(m, c)) == Total(m) + 1
  {
    var r := Increment(m, c);
    TotalRemove(r, c);
    if c in m {
      TotalRemove(m, c);
      assert r - {c} == m - {c};
    } else {
      assert r - {c} == m;
    }
  }

  /** The counts of a tally add up to the length of the sequence. */
  lemma {:induction false} TallyTotal(s: seq<char>)
    ensures Total(Tally(s)) == |s|
    decreases |s|
  {
    if s != [] {
      TallyTotal(s[..|s| - 1]);
      TotalIncrement(Tally(s[..|s| - 1]), s[|s| - 1]);
    }
  }

  // ---------------------------------------------------------------------------
  // Bags of maps

  /** Any map of the bag may be merged first. */
  lemma {:induction false} MergeBagRemove(b: multiset<FreqMap>, m: FreqMap)
    requires m in b
    ensures MergeBag(b) == Merge(m, MergeBag(b - multiset{m}))
    decreases |b|, 2
  {
    var p :| p in b && MergeBag(b) == Merge(p, MergeBag(b - multiset{p}));
    if p != m {
      MergeAnotherFirst(b, p, m);
    }
  }

  /** If the bag merges with `p` first, it also merges with any other `m` first. */
  lemma {:induction false} MergeAnotherFirst(b: multiset<FreqMap>, p: FreqMap, m: FreqMap)
    requires p in b && m in b && p != m
    requires MergeBag(b) == Merge(p, MergeBag(b - multiset{p}))
    ensures MergeBag(b) == Merge(m, MergeBag(b - multiset{m}))
    decreases |b|, 1
  {
    var rest := b - multiset{p} - multiset{m};
    assert b - multiset{m} - multiset{p} == rest;
    MergeBagRemoveSecond(b, p, m);
    MergeBagRemoveSecond(b, m, p);
    SwapFirst(MergeBag(b), MergeBag(b - multiset{p}), MergeBag(b - multiset{m}), MergeBag(rest), p, m);
  }

  /** Once `p` is out of the bag, `m` may be merged first in what remains. */
  lemma {:induction false} MergeBagRemoveSecond(b: multiset<FreqMap>, p: FreqMap, m: FreqMap)
    requires p in b && m in b && p != m
    ensures MergeBag(b - multiset{p}) == Merge(m, MergeBag(b - multiset{p} - multiset{m}))
    decreases |b|, 0
  {
    MergeBagRemove(b - multiset{p}, m);
  }

  /** The step of MergeAnotherFirst: merging `p` first equals merging `m` first. */
  lemma SwapFirst(total: FreqMap, withoutP: FreqMap, withoutM: FreqMap, rest: FreqMap, p: FreqMap, m: FreqMap)
    requires total == Merge(p, withoutP)
    requires withoutP == Merge(m, rest) && withoutM == Merge(p, rest)
    ensures total == Merge(m, withoutM)
  {
    MergeSwap(p, m, rest);
  }

  /** Adding a map to a bag merges it into the bag's total. */
  lemma MergeBagAdd(b: multiset<FreqMap>, m: FreqMap)
    ensures MergeBag(b + multiset{m}) == Merge(m, MergeBag(b))
  {
    MergeBagRemove(b + multiset{m}, m);
    assert b + multiset{m} - multiset{m} == b;
  }

  /** Replacing two maps of a bag by their merge leaves the bag's total unchanged. */
  lemma MergeBagPair(rest: multiset<FreqMap>, a: FreqMap, b: FreqMap)
    ensures MergeBag(rest + multiset{Merge(a, b)}) == MergeBag(rest + multiset{b} + multiset{a})
  {
    MergeBagAdd(rest, Merge(a, b));
    MergeAssociative(a, b, MergeBag(rest));
    MergeBagAdd(rest, b);
    MergeBagAdd(rest + multiset{b}, a);
  }

  /** The bag of a sequence merges to the sequence's left fold. */
  lemma {:induction false} MergeBagOfSeq(ms: seq<FreqMap>)
    ensures MergeBag(multiset(ms)) == MergeSeq(ms)
    decreases |ms|
  {
    if ms != [] {
      var init, last := ms[..|ms| - 1], ms[|ms| - 1];
      assert ms == init + [last];
      assert multiset(ms) == multiset(init) + multiset{last};
      MergeBagOfSeq(init);
      MergeBagAdd(multiset(init), last);
      MergeCommutative(last, MergeSeq(init));
    }
  }
}
