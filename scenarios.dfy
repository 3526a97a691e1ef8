/**
 The scenarios the repository's own tests and doc examples check, stated
 on the model, and one illustration of the Sensitive mode.

 Each parallel scenario follows from the counters' contracts: every entry
 point returns `Frequencies(mode, text)` whatever the thread count, so the
 lemmas below only need to compute that map once per text. A map is given
 by its key set and the count of every key, which together fix it.
 */
module Scenarios {
  import opened CaseFold
  import opened Frequency
  import opened Counter

  /** Sensitive mode counts the characters as they are. */
  lemma FoldedSensitive(s: seq<char>)
    ensures Folded(Sensitive, s) == s
  {
  }

  /** A run of `k >= 1` copies of one character is tallied as that character with count `k`. */
  lemma {:induction false} TallyRun(x: char, k: nat)
    requires k >= 1
    ensures Tally(seq(k, _ => x)) == map[x := k]
  {
    var run := seq(k, _ => x);
    if k > 1 {
      assert run[..k - 1] == seq(k - 1, _ => x);
      TallyRun(x, k - 1);
    } else {
      assert run[..0] == [];
    }
  }

  /** Runs of one character inside "aaaa" and "aaa". */
  lemma RangeRuns()
    ensures RangeCount("aaaa", 0, 2, Sensitive) == map['a' := 3]
    ensures RangeCount("aaaa", 1, 3, Sensitive) == map['a' := 3]
    ensures RangeCount("aaaa", 1, 2, Sensitive) == map['a' := 2]
    ensures RangeCount("aaaa", 0, 3, Sensitive) == map['a' := 4]
    ensures RangeCount("aaa", 0, 0, Sensitive) == map['a' := 1]
    ensures RangeCount("aaa", 2, 2, Sensitive) == map['a' := 1]
    ensures RangeCount("aaa", 1, 1, Sensitive) == map['a' := 1]
  {
    FoldedSensitive("aaa");
    FoldedSensitive("aa");
    FoldedSensitive("a");
    FoldedSensitive("aaaa");
    assert Slice("aaaa", 0, 2) == "aaa" && Slice("aaaa", 1, 3) == "aaa";
    assert Slice("aaaa", 1, 2) == "aa" && Slice("aaaa", 0, 3) == "aaaa";
    assert Slice("aaa", 0, 0) == "a" && Slice("aaa", 2, 2) == "a" && Slice("aaa", 1, 1) == "a";
    assert "a" == seq(1, _ => 'a') && "aa" == seq(2, _ => 'a');
    assert "aaa" == seq(3, _ => 'a') && "aaaa" == seq(4, _ => 'a');
    TallyRun('a', 1);
    TallyRun('a', 2);
    TallyRun('a', 3);
    TallyRun('a', 4);
  }

  // "维维尼熊aabbbccd|@"

  lemma UnicodeTextBag()
    ensures multiset("维维尼熊aabbbccd|@") == multiset{'维', '维', '尼', '熊', 'a', 'a', 'b', 'b', 'b', 'c', 'c', 'd', '|', '@'}
  {
  }

  lemma UnicodeTextKeys()
    ensures (set c | c in "维维尼熊aabbbccd|@") == {'维', '尼', '熊', 'a', 'b', 'c', 'd', '|', '@'}
  {
  }

  lemma UnicodeTextCounts(b: multiset<char>)
    requires b == multiset{'维', '维', '尼', '熊', 'a', 'a', 'b', 'b', 'b', 'c', 'c', 'd', '|', '@'}
    ensures b['维'] == 2 && b['尼'] == 1 && b['熊'] == 1 && b['a'] == 2 && b['b'] == 3
      && b['c'] == 2 && b['d'] == 1 && b['|'] == 1 && b['@'] == 1
  {
  }

  lemma TallyUnicodeText()
    ensures var m := Tally("维维尼熊aabbbccd|@");
      && m.Keys == {'维', '尼', '熊', 'a', 'b', 'c', 'd', '|', '@'}
      && m['维'] == 2 && m['尼'] == 1 && m['熊'] == 1 && m['a'] == 2 && m['b'] == 3
      && m['c'] == 2 && m['d'] == 1 && m['|'] == 1 && m['@'] == 1
  {
    UnicodeTextBag();
    UnicodeTextCounts(multiset("维维尼熊aabbbccd|@"));
    UnicodeTextKeys();
    TallyCounts("维维尼熊aabbbccd|@");
  }

  // "XXaabbbccd|@"

  lemma MixedCaseTextBag()
    ensures multiset("XXaabbbccd|@") == multiset{'X', 'X', 'a', 'a', 'b', 'b', 'b', 'c', 'c', 'd', '|', '@'}
  {
  }

  lemma MixedCaseTextKeys()
    ensures (set c | c in "XXaabbbccd|@") == {'X', 'a', 'b', 'c', 'd', '|', '@'}
  {
  }

  lemma MixedCaseTextCounts(b: multiset<char>)
    requires b == multiset{'X', 'X', 'a', 'a', 'b', 'b', 'b', 'c', 'c', 'd', '|', '@'}
    ensures b['X'] == 2 && b['a'] == 2 && b['b'] == 3 && b['c'] == 2 && b['d'] == 1
      && b['|'] == 1 && b['@'] == 1
  {
  }

  lemma TallyMixedCaseText()
    ensures var m := Tally("XXaabbbccd|@");
      && m.Keys == {'X', 'a', 'b', 'c', 'd', '|', '@'}
      && m['X'] == 2 && m['a'] == 2 && m['b'] == 3 && m['c'] == 2 && m['d'] == 1
      && m['|'] == 1 && m['@'] == 1
  {
    MixedCaseTextBag();
    MixedCaseTextCounts(multiset("XXaabbbccd|@"));
    MixedCaseTextKeys();
    TallyCounts("XXaabbbccd|@");
  }

  // "aaaabbbccd|@"

  lemma TestTextBag()
    ensures multiset("aaaabbbccd|@") == multiset{'a', 'a', 'a', 'a', 'b', 'b', 'b', 'c', 'c', 'd', '|', '@'}
  {
  }

  lemma TestTextKeys()
    ensures (set c | c in "aaaabbbccd|@") == {'a', 'b', 'c', 'd', '|', '@'}
  {
  }

  lemma TestTextCounts(b: multiset<char>)
    requires b == multiset{'a', 'a', 'a', 'a', 'b', 'b', 'b', 'c', 'c', 'd', '|', '@'}
    ensures b['a'] == 4 && b['b'] == 3 && b['c'] == 2 && b['d'] == 1 && b['|'] == 1
      && b['@'] == 1
  {
  }

  lemma TallyTestText()
    ensures var m := Tally("aaaabbbccd|@");
      && m.Keys == {'a', 'b', 'c', 'd', '|', '@'}
      && m['a'] == 4 && m['b'] == 3 && m['c'] == 2 && m['d'] == 1 && m['|'] == 1
      && m['@'] == 1
  {
    TestTextBag();
    TestTextCounts(multiset("aaaabbbccd|@"));
    TestTextKeys();
    TallyCounts("aaaabbbccd|@");
  }

  // "hello, world!"

  lemma HelloWorldTextBag()
    ensures multiset("hello, world!") == multiset{'h', 'e', 'l', 'l', 'o', ',', ' ', 'w', 'o', 'r', 'l', 'd', '!'}
  {
  }

  lemma HelloWorldTextKeys()
    ensures (set c | c in "hello, world!") == {'h', 'e', 'l', 'o', ',', ' ', 'w', 'r', 'd', '!'}
  {
  }

  lemma HelloWorldTextCounts(b: multiset<char>)
    requires b == multiset{'h', 'e', 'l', 'l', 'o', ',', ' ', 'w', 'o', 'r', 'l', 'd', '!'}
    ensures b['h'] == 1 && b['e'] == 1 && b['l'] == 3 && b['o'] == 2 && b[','] == 1
      && b[' '] == 1 && b['w'] == 1 && b['r'] == 1 && b['d'] == 1 && b['!'] == 1
  {
  }

  lemma TallyHelloWorldText()
    ensures var m := Tally("hello, world!");
      && m.Keys == {'h', 'e', 'l', 'o', ',', ' ', 'w', 'r', 'd', '!'}
      && m['h'] == 1 && m['e'] == 1 && m['l'] == 3 && m['o'] == 2 && m[','] == 1
      && m[' '] == 1 && m['w'] == 1 && m['r'] == 1 && m['d'] == 1 && m['!'] == 1
  {
    HelloWorldTextBag();
    HelloWorldTextCounts(multiset("hello, world!"));
    HelloWorldTextKeys();
    TallyCounts("hello, world!");
  }

  // "AaaBbbCcd|@"

  lemma MixedCaseShortBag()
    ensures multiset("AaaBbbCcd|@") == multiset{'A', 'a', 'a', 'B', 'b', 'b', 'C', 'c', 'd', '|', '@'}
  {
  }

  lemma MixedCaseShortKeys()
    ensures (set c | c in "AaaBbbCcd|@") == {'A', 'a', 'B', 'b', 'C', 'c', 'd', '|', '@'}
  {
  }

  lemma MixedCaseShortCounts(b: multiset<char>)
    requires b == multiset{'A', 'a', 'a', 'B', 'b', 'b', 'C', 'c', 'd', '|', '@'}
    ensures b['A'] == 1 && b['a'] == 2 && b['B'] == 1 && b['b'] == 2 && b['C'] == 1
      && b['c'] == 1 && b['d'] == 1 && b['|'] == 1 && b['@'] == 1
  {
  }

  lemma TallyMixedCaseShort()
    ensures var m := Tally("AaaBbbCcd|@");
      && m.Keys == {'A', 'a', 'B', 'b', 'C', 'c', 'd', '|', '@'}
      && m['A'] == 1 && m['a'] == 2 && m['B'] == 1 && m['b'] == 2 && m['C'] == 1
      && m['c'] == 1 && m['d'] == 1 && m['|'] == 1 && m['@'] == 1
  {
    MixedCaseShortBag();
    MixedCaseShortCounts(multiset("AaaBbbCcd|@"));
    MixedCaseShortKeys();
    TallyCounts("AaaBbbCcd|@");
  }

  /** Multi-byte characters are counted by character position: 0..=13 covers all 14 characters. */
  lemma RangeUnicode()
    ensures var m := RangeCount("维维尼熊aabbbccd|@", 0, 13, Sensitive);
      && m.Keys == {'维', '尼', '熊', 'a', 'b', 'c', 'd', '|', '@'}
      && m['维'] == 2 && m['尼'] == 1 && m['熊'] == 1 && m['a'] == 2 && m['b'] == 3
      && m['c'] == 2 && m['d'] == 1 && m['|'] == 1 && m['@'] == 1
  {
    var s := "维维尼熊aabbbccd|@";
    assert Slice(s, 0, 13) == s;
    FoldedSensitive(s);
    TallyUnicodeText();
  }

  /** Sensitive mode keeps 'X' apart from 'x'. */
  lemma RangeWithCase()
    ensures var m := RangeCount("XXaabbbccd|@", 0, 11, Sensitive);
      && m.Keys == {'X', 'a', 'b', 'c', 'd', '|', '@'}
      && m['X'] == 2 && m['a'] == 2 && m['b'] == 3 && m['c'] == 2 && m['d'] == 1
      && m['|'] == 1 && m['@'] == 1
  {
    var s := "XXaabbbccd|@";
    assert Slice(s, 0, 11) == s;
    FoldedSensitive(s);
    TallyMixedCaseText();
  }

  /** The text every thread-count test counts, in the default mode. */
  lemma DefaultModeCounts()
    ensures var m := Frequencies(Insensitive, "aaaabbbccd|@");
      && m.Keys == {'a', 'b', 'c', 'd', '|', '@'}
      && m['a'] == 4 && m['b'] == 3 && m['c'] == 2 && m['d'] == 1 && m['|'] == 1
      && m['@'] == 1
  {
    assert Folded(Insensitive, "aaaabbbccd|@") == "aaaabbbccd|@";
    TallyTestText();
  }

  /** The same text over its full range, in Sensitive mode. */
  lemma TestTextRange()
    ensures var m := RangeCount("aaaabbbccd|@", 0, 11, Sensitive);
      && m.Keys == {'a', 'b', 'c', 'd', '|', '@'}
      && m['a'] == 4 && m['b'] == 3 && m['c'] == 2 && m['d'] == 1 && m['|'] == 1
      && m['@'] == 1
  {
    var s := "aaaabbbccd|@";
    assert Slice(s, 0, 11) == s;
    FoldedSensitive(s);
    TallyTestText();
  }

  /** The documentation example: upper-case letters are counted with their lower-case forms. */
  lemma HelloWorld()
    ensures var m := Frequencies(Insensitive, "Hello, World!");
      && m.Keys == {'h', 'e', 'l', 'o', ',', ' ', 'w', 'r', 'd', '!'}
      && m['h'] == 1 && m['e'] == 1 && m['l'] == 3 && m['o'] == 2 && m[','] == 1
      && m[' '] == 1 && m['w'] == 1 && m['r'] == 1 && m['d'] == 1 && m['!'] == 1
  {
    assert Folded(Insensitive, "Hello, World!") == "hello, world!";
    TallyHelloWorldText();
  }

  /** Sensitive mode counts 'a' and 'A' under different keys: an illustration on "AaaBbbCcd|@". */
  lemma SensitiveCounts()
    ensures var m := Frequencies(Sensitive, "AaaBbbCcd|@");
      && m.Keys == {'A', 'a', 'B', 'b', 'C', 'c', 'd', '|', '@'}
      && m['A'] == 1 && m['a'] == 2 && m['B'] == 1 && m['b'] == 2 && m['C'] == 1
      && m['c'] == 1 && m['d'] == 1 && m['|'] == 1 && m['@'] == 1
  {
    FoldedSensitive("AaaBbbCcd|@");
    TallyMixedCaseShort();
  }
}
