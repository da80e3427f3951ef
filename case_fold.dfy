/**
 * Case-insensitive string comparison in the manner of Java's
 * String.equalsIgnoreCase, restricted to ASCII letters: two strings are
 * equal ignoring case when they have the same length and every pair of
 * corresponding characters is equal, equal after upper-casing, or equal
 * after upper- and then lower-casing.
 */
module CaseFold {

  /** ASCII upper-casing of one character; every other character is kept. */
  function Upper(c: char): char
  {
    if 'a' <= c <= 'z' then (c as int - 'a' as int + 'A' as int) as char else c
  }

  /** ASCII lower-casing of one character; every other character is kept. */
  function Lower(c: char): char
  {
    if 'A' <= c <= 'Z' then (c as int - 'A' as int + 'a' as int) as char else c
  }

  /** The per-character test that equalsIgnoreCase applies, in its three steps. */
  predicate CharEqualsIgnoreCase(a: char, b: char)
  {
    a == b || Upper(a) == Upper(b) || Lower(Upper(a)) == Lower(Upper(b))
  }

  /** s.equalsIgnoreCase(t) for a non-null argument t. */
  predicate EqualsIgnoreCase(s: string, t: string)
  {
    |s| == |t| && forall i :: 0 <= i < |s| ==> CharEqualsIgnoreCase(s[i], t[i])
  }

  /** The independent reference: the string with every character lower-cased. */
  function Folded(s: string): string
  {
    seq(|s|, i requires 0 <= i < |s| => Lower(s[i]))
  }

  /** The three-step character test is exactly "same character once lower-cased". */
  lemma CharEqualsIgnoreCaseIffLower(a: char, b: char)
    ensures CharEqualsIgnoreCase(a, b) <==> Lower(a) == Lower(b)
  {
  }

  /** Two strings are equal ignoring case exactly when their folded forms are equal. */
  lemma EqualsIgnoreCaseIffFolded(s: string, t: string)
    ensures EqualsIgnoreCase(s, t) <==> Folded(s) == Folded(t)
  {
    if EqualsIgnoreCase(s, t) {
      forall i | 0 <= i < |s| ensures Folded(s)[i] == Folded(t)[i] {
        CharEqualsIgnoreCaseIffLower(s[i], t[i]);
      }
    }
    if Folded(s) == Folded(t) {
      assert |s| == |Folded(s)| == |Folded(t)| == |t|;
      forall i | 0 <= i < |s| ensures CharEqualsIgnoreCase(s[i], t[i]) {
        assert Folded(s)[i] == Folded(t)[i];
        CharEqualsIgnoreCaseIffLower(s[i], t[i]);
      }
    }
  }

  /** equalsIgnoreCase is an equivalence relation on strings. */
  lemma EqualsIgnoreCaseIsEquivalence(s: string, t: string, u: string)
    ensures EqualsIgnoreCase(s, s)
    ensures EqualsIgnoreCase(s, t) ==> EqualsIgnoreCase(t, s)
    ensures EqualsIgnoreCase(s, t) && EqualsIgnoreCase(t, u) ==> EqualsIgnoreCase(s, u)
  {
  }
}
