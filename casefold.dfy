/**
 The case policy applied to every character before it is counted.

 The library knows exactly two modes: `Sensitive` counts characters as they
 are, `Insensitive` applies ASCII lower-casing, so only 'A'..'Z' change and
 every other character (non-ASCII letters included) is counted as it is.
 */
module CaseFold {

  datatype Case = Sensitive | Insensitive

  /** The mode used when the caller does not choose one. */
  const DefaultCase: Case := Insensitive

  predicate IsAsciiUpper(c: char) {
    'A' <= c <= 'Z'
  }

  predicate IsAsciiLower(c: char) {
    'a' <= c <= 'z'
  }

  /** Lower-cases an ASCII upper-case letter; every other character is returned unchanged. */
  function ToAsciiLowercase(c: char): (r: char)
    ensures !IsAsciiUpper(r)
    ensures IsAsciiUpper(c) ==> IsAsciiLower(r) && r as int - 'a' as int == c as int - 'A' as int
    ensures !IsAsciiUpper(c) ==> r == c
  {
    if IsAsciiUpper(c) then (c as int + 32) as char else c
  }

  /**
   The key under which a character is counted: the character itself under
   Sensitive, and under Insensitive a character that is never an ASCII
   upper-case letter and differs from `c` at most in ASCII case.
   */
  function Fold(mode: Case, c: char): (r: char)
    ensures mode == Sensitive ==> r == c
    ensures mode == Insensitive ==> !IsAsciiUpper(r) && EqualIgnoringAsciiCase(c, r)
  {
    match mode
    case Insensitive => ToAsciiLowercase(c)
    case Sensitive => c
  }

  /** Two characters that differ at most in the case of an ASCII letter. */
  predicate EqualIgnoringAsciiCase(c: char, d: char) {
    || c == d
    || (IsAsciiUpper(c) && d as int == c as int + 32)
    || (IsAsciiUpper(d) && c as int == d as int + 32)
  }

  /** Sensitive mode is the identity: distinct characters get distinct keys. */
  lemma SensitiveKeys(c: char, d: char)
    ensures Fold(Sensitive, c) == c
    ensures Fold(Sensitive, c) == Fold(Sensitive, d) <==> c == d
  {
  }

  /** Insensitive mode gives two characters one key exactly when they differ only in ASCII case. */
  lemma InsensitiveKeys(c: char, d: char)
    ensures Fold(Insensitive, c) == Fold(Insensitive, d) <==> EqualIgnoringAsciiCase(c, d)
  {
    if IsAsciiUpper(c) && !IsAsciiUpper(d) && !IsAsciiLower(d) {
      assert Fold(Insensitive, d) == d;
    }
    if IsAsciiUpper(d) && !IsAsciiUpper(c) && !IsAsciiLower(c) {
      assert Fold(Insensitive, c) == c;
    }
  }

  /** Folding twice is folding once, in both modes. */
  lemma FoldIdempotent(mode: Case, c: char)
    ensures Fold(mode, Fold(mode, c)) == Fold(mode, c)
  {
  }

  /** 'a' and 'A' share a key under Insensitive and do not under Sensitive. */
  lemma FoldExample()
    ensures Fold(Insensitive, 'A') == Fold(Insensitive, 'a') == 'a'
    ensures Fold(Sensitive, 'A') != Fold(Sensitive, 'a')
    ensures Fold(Insensitive, '维') == '维'
  {
  }
}
