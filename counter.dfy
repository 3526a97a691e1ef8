/**
 The range counter and the merge of two partial counts.

 A text is a sequence of characters; positions are character positions.
 `text.len()` in the library is the UTF-8 byte length, which `ByteLength`
 gives; it is at least the number of characters, so ranges planned over
 bytes may reach past the last character, and those positions count nothing.
 */
module Counter {
  import opened CaseFold
  import opened Frequency

  function Min(a: nat, b: nat): nat {
    if a <= b then a else b
  }

  /** Number of bytes UTF-8 uses for one character. */
  function Utf8Width(c: char): nat {
    if c as int < 0x80 then 1
    else if c as int < 0x800 then 2
    else if c as int < 0x1_0000 then 3
    else 4
  }

  /** The UTF-8 length of a text: between one and four bytes per character. */
  function ByteLength(text: seq<char>): (n: nat)
    ensures |text| <= n <= 4 * |text|
    ensures n == 0 <==> text == []
    decreases |text|
  {
    if text == [] then 0 else ByteLength(text[..|text| - 1]) + Utf8Width(text[|text| - 1])
  }

  /** The characters at positions `from..=to` that exist in `text`. */
  function Slice(text: seq<char>, from: nat, to: nat): seq<char>
    requires from <= to + 1
  {
    text[Min(from, |text|)..Min(to + 1, |text|)]
  }

  /** Every character replaced by its key under `mode`. */
  function Folded(mode: Case, s: seq<char>): (r: seq<char>)
    ensures |r| == |s|
    ensures forall i :: 0 <= i < |s| ==> r[i] == Fold(mode, s[i])
  {
    seq(|s|, i requires 0 <= i < |s| => Fold(mode, s[i]))
  }

  /** What the range counter computes: the tally of the folded characters at positions `from..=to`. */
  function RangeCount(text: seq<char>, from: nat, to: nat, mode: Case): FreqMap
    requires from <= to + 1
  {
    Tally(Folded(mode, Slice(text, from, to)))
  }

  /** The frequencies of the whole text under `mode`: what the sequential path returns. */
  function Frequencies(mode: Case, text: seq<char>): FreqMap {
    Tally(Folded(mode, text))
  }

  /**
   character_frequencies_range: walk the characters from position `from`,
   at most `to - from + 1` of them, adding one to the entry of each folded
   character.
   */
  method CharacterFrequenciesRange(text: seq<char>, from: nat, to: nat, mode: Case) returns (freq: FreqMap)
    requires from <= to
    ensures freq == RangeCount(text, from, to, mode)
  {
    freq := map[];
    var start := Min(from, |text|);
    var i := start;
    while i <= to && i < |text|
      invariant start <= i <= Min(to + 1, |text|)
      invariant freq == Tally(Folded(mode, text[start..i]))
    {
      var c := Fold(mode, text[i]);
      CountOneMore(text, start, i, mode);
      freq := Increment(freq, c);
      i := i + 1;
    }
    assert text[start..i] == Slice(text, from, to);
  }

  /** Counting one more position adds one to the entry of its folded character. */
  lemma CountOneMore(text: seq<char>, start: nat, i: nat, mode: Case)
    requires start <= i < |text|
    ensures Tally(Folded(mode, text[start..i + 1])) == Increment(Tally(Folded(mode, text[start..i])), Fold(mode, text[i]))
  {
    var next := Folded(mode, text[start..i + 1]);
    assert next[..|next| - 1] == Folded(mode, text[start..i]);
  }

  /**
   add_frequencies: starting from `a`, add the count of every key of `b`,
   visiting the keys of `b` in whatever order the map yields them.
   */
  method AddFrequencies(a: FreqMap, b: FreqMap) returns (out: FreqMap)
    ensures out == Merge(a, b)
  {
    out := a;
    var rest := b.Keys;
    while rest != {}
      invariant rest <= b.Keys
      invariant out == Merge(a, b - rest)
      decreases rest
    {
      var c :| c in rest;
      AddOneKey(a, b, rest, c);
      out := out[c := Get(out, c) + b[c]];
      rest := rest - {c};
    }
    assert b - rest == b;
  }

  /** Adding the count of one more key of `b` extends the merge by that key. */
  lemma AddOneKey(a: FreqMap, b: FreqMap, rest: set<char>, c: char)
    requires rest <= b.Keys && c in rest
    ensures var out := Merge(a, b - rest); out[c := Get(out, c) + b[c]] == Merge(a, b - (rest - {c}))
  {
    assert b - (rest - {c}) == (b - rest)[c := b[c]];
  }

  // ---------------------------------------------------------------------------
  // Properties of the range count

  /** A range count holds each folded character as many times as it occurs in the range, and nothing else. */
  lemma RangeCountMeaning(text: seq<char>, from: nat, to: nat, mode: Case)
    requires from <= to + 1
    ensures Positive(RangeCount(text, from, to, mode))
    ensures forall c :: Get(RangeCount(text, from, to, mode), c) == multiset(Folded(mode, Slice(text, from, to)))[c]
  {
    TallyCounts(Folded(mode, Slice(text, from, to)));
  }

  /** The positions in `start..end` whose folded character is `c`. */
  ghost function PositionsOf(text: seq<char>, start: nat, end: nat, mode: Case, c: char): set<nat>
    requires end <= |text|
  {
    set i: nat | start <= i < end && Fold(mode, text[i]) == c
  }

  /** Counting the folded characters of `start..end` counts the positions that fold to each key. */
  lemma {:induction false} FoldedCountIsPositions(text: seq<char>, start: nat, end: nat, mode: Case, c: char)
    requires start <= end <= |text|
    ensures multiset(Folded(mode, text[start..end]))[c] == |PositionsOf(text, start, end, mode, c)|
    decreases end - start
  {
    if end == start {
      assert PositionsOf(text, start, end, mode, c) == {};
    } else {
      var last := end - 1;
      FoldedCountIsPositions(text, start, last, mode, c);
      assert Folded(mode, text[start..end]) == Folded(mode, text[start..last]) + [Fold(mode, text[last])];
      PositionsExtend(text, start, last, mode, c);
    }
  }

  /** One more position adds itself to the positions of `c` exactly when it folds to `c`. */
  lemma PositionsExtend(text: seq<char>, start: nat, last: nat, mode: Case, c: char)
    requires start <= last < |text|
    ensures |PositionsOf(text, start, last + 1, mode, c)|
         == |PositionsOf(text, start, last, mode, c)| + if Fold(mode, text[last]) == c then 1 else 0
  {
    var before := PositionsOf(text, start, last, mode, c);
    if Fold(mode, text[last]) == c {
      assert PositionsOf(text, start, last + 1, mode, c) == before + {last};
    } else {
      assert PositionsOf(text, start, last + 1, mode, c) == before;
    }
  }

  /**
   The count of `c` in a range result is the number of positions `i` with
   `from <= i <= to` and `i < |text|` whose folded character is `c`.
   */
  lemma RangeCountPositions(text: seq<char>, from: nat, to: nat, mode: Case, c: char)
    requires from <= to + 1
    ensures Get(RangeCount(text, from, to, mode), c)
         == |set i: nat | from <= i <= to && i < |text| && Fold(mode, text[i]) == c|
  {
    var start, end := Min(from, |text|), Min(to + 1, |text|);
    RangeCountMeaning(text, from, to, mode);
    FoldedCountIsPositions(text, start, end, mode, c);
    assert PositionsOf(text, start, end, mode, c)
        == set i: nat | from <= i <= to && i < |text| && Fold(mode, text[i]) == c;
  }

  /** The counts of a range add up to the number of its positions that exist in the text. */
  lemma RangeCountTotal(text: seq<char>, from: nat, to: nat, mode: Case)
    requires from <= to + 1
    ensures Total(RangeCount(text, from, to, mode)) == Min(to + 1, |text|) - Min(from, |text|)
  {
    TallyTotal(Folded(mode, Slice(text, from, to)));
  }

  /** Counting two adjacent ranges and merging the results counts their union. */
  lemma RangeCountSplit(text: seq<char>, from: nat, mid: nat, to: nat, mode: Case)
    requires from <= mid + 1 && mid + 1 <= to + 1
    ensures Merge(RangeCount(text, from, mid, mode), RangeCount(text, mid + 1, to, mode))
         == RangeCount(text, from, to, mode)
  {
    var left, right := Slice(text, from, mid), Slice(text, mid + 1, to);
    assert left + right == Slice(text, from, to);
    assert Folded(mode, left) + Folded(mode, right) == Folded(mode, left + right);
    TallyAppend(Folded(mode, left), Folded(mode, right));
  }

  /** A range from 0 that reaches the last character counts the whole text. */
  lemma RangeCountWhole(text: seq<char>, to: nat, mode: Case)
    requires |text| <= to + 1
    ensures RangeCount(text, 0, to, mode) == Frequencies(mode, text)
  {
    assert Slice(text, 0, to) == text;
  }

  /** The frequencies of a text count every character under its key and sum to the length of the text. */
  lemma FrequenciesMeaning(mode: Case, text: seq<char>)
    ensures Positive(Frequencies(mode, text))
    ensures forall c :: Get(Frequencies(mode, text), c) == multiset(Folded(mode, text))[c]
    ensures Total(Frequencies(mode, text)) == |text|
  {
    TallyCounts(Folded(mode, text));
    TallyTotal(Folded(mode, text));
  }
}
