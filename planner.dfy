/**
 The partition planner: how `n` (the byte length of the text) is cut into
 `t` inclusive ranges, one per counting thread.

 `chunk = max(1, n / t)` and `r = n % t`; the first `t - r` ranges hold
 `chunk` positions, the last `r` hold `chunk + 1`, laid out one after the
 other from position 0.
 */
module Planner {

  /** An inclusive range of positions `from..=to`. */
  datatype Range = Range(from: nat, to: nat)

  function Max(a: nat, b: nat): nat {
    if a >= b then a else b
  }

  function ChunkSize(n: nat, t: nat): nat
    requires t >= 1
  {
    Max(1, n / t)
  }

  /** Number of ranges that get the plain chunk size (`threads_with_less_data`). */
  function LightCount(n: nat, t: nat): nat
    requires t >= 1
  {
    t - n % t
  }

  /** Where range `i` begins: `i` chunks, plus one for every heavier range before it. */
  function RangeStart(n: nat, t: nat, i: nat): nat
    requires t >= 1
  {
    i * ChunkSize(n, t) + (if i > LightCount(n, t) then i - LightCount(n, t) else 0)
  }

  function RangeLength(n: nat, t: nat, i: nat): nat
    requires t >= 1
  {
    if i < LightCount(n, t) then ChunkSize(n, t) else ChunkSize(n, t) + 1
  }

  /** The plan, in closed form. */
  function PlanRanges(n: nat, t: nat): seq<Range>
    requires t >= 1
  {
    seq(t, i requires 0 <= i < t => Range(RangeStart(n, t, i), RangeStart(n, t, i) + RangeLength(n, t, i) - 1))
  }

  /** Ranges laid end to end, none of them empty. */
  ghost predicate Contiguous(ranges: seq<Range>) {
    && (forall i :: 0 <= i < |ranges| ==> ranges[i].from <= ranges[i].to)
    && (forall i :: 0 < i < |ranges| ==> ranges[i].from == ranges[i - 1].to + 1)
  }

  /**
   The two planning loops of character_frequencies_with_n_threads_with_case:
   `from` advances by the size of every range it hands out.
   */
  method Plan(n: nat, threads: nat) returns (ranges: seq<Range>)
    requires threads >= 1
    ensures ranges == PlanRanges(n, threads)
  {
    var chunk := Max(1, n / threads);
    var more := n % threads;
    var less := threads - more;
    ranges := [];
    var from := 0;
    for k := 0 to less
      invariant from == RangeStart(n, threads, k)
      invariant ranges == PlanRanges(n, threads)[..k]
    {
      ranges := ranges + [Range(from, from + chunk - 1)];
      from := from + chunk;
    }
    for k := 0 to more
      invariant from == RangeStart(n, threads, less + k)
      invariant ranges == PlanRanges(n, threads)[..less + k]
    {
      ranges := ranges + [Range(from, from + chunk)];
      from := from + chunk + 1;
    }
  }

  /** Where the plan ends: exactly at `n` when there are at most `n` threads, at `t + n` otherwise. */
  lemma PlanEnd(n: nat, t: nat)
    requires t >= 1
    ensures RangeStart(n, t, t) == if t <= n then n else t + n
  {
    var r := n % t;
    if t <= n {
      assert n == t * (n / t) + r;
      assert n / t >= 1;
    } else {
      assert n / t == 0 && r == n;
    }
  }

  /** Every range begins right after the previous one ends. */
  lemma PlanContiguous(n: nat, t: nat)
    requires t >= 1
    ensures Contiguous(PlanRanges(n, t))
  {
    var p := PlanRanges(n, t);
    forall i | 0 < i < t ensures p[i].from == p[i - 1].to + 1 {
      assert RangeStart(n, t, i) == RangeStart(n, t, i - 1) + RangeLength(n, t, i - 1);
    }
  }

  /** The first `t - n % t` ranges hold `chunk` positions, the rest `chunk + 1`. */
  lemma PlanSizes(n: nat, t: nat)
    requires t >= 1
    ensures forall i :: 0 <= i < t ==>
      PlanRanges(n, t)[i].to + 1 - PlanRanges(n, t)[i].from
        == if i < t - n % t then Max(1, n / t) else Max(1, n / t) + 1
  {
  }

  /** The last range ends at `n` (or at `t + n` when `t > n`), so the plan covers every position. */
  lemma PlanCovers(n: nat, t: nat)
    requires t >= 1
    ensures PlanRanges(n, t)[t - 1].to + 1 == if t <= n then n else t + n
  {
    assert RangeStart(n, t, t) == RangeStart(n, t, t - 1) + RangeLength(n, t, t - 1);
    PlanEnd(n, t);
  }

  /**
   The plan has one non-empty range per thread, starts at 0, leaves no gap
   and no overlap, and reaches position `n - 1`: what the counting threads
   need to cover the text between them.
   */
  lemma PlanLayout(n: nat, t: nat)
    requires t >= 1
    ensures |PlanRanges(n, t)| == t
    ensures PlanRanges(n, t)[0].from == 0
    ensures PlanRanges(n, t)[t - 1].to + 1 >= n
    ensures Contiguous(PlanRanges(n, t))
  {
    PlanContiguous(n, t);
    PlanCovers(n, t);
  }

  /** One thread gets the whole text as a single range. */
  lemma PlanSingleThread(n: nat)
    requires n >= 1
    ensures PlanRanges(n, 1) == [Range(0, n - 1)]
  {
  }

  /** Ten threads over twelve bytes: eight single positions, then 8..=9 and 10..=11. */
  lemma PlanTenThreadsTwelveBytes()
    ensures PlanRanges(12, 10) == [Range(0, 0), Range(1, 1), Range(2, 2), Range(3, 3), Range(4, 4),
                                   Range(5, 5), Range(6, 6), Range(7, 7), Range(8, 9), Range(10, 11)]
  {
  }
}
