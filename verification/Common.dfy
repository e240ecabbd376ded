/** Shared by all components. */
module Common {
  datatype Option<+T> = None | Some(value: T)

  const QUOTE := '\"'
  const BACKSLASH := '\\'

  function Elements<T>(s: seq<T>): set<T> {
    set x | x in s
  }

  /** Some element of a set, for loops over the keys of a map in an unknown order. */
  method AnyKey<K>(keys: set<K>) returns (k: K)
    requires keys != {}
    ensures k in keys
  {
    k :| k in keys;
  }

  /** The string s stands in the text at a position. */
  predicate Occurs(text: string, pos: nat, s: string) {
    pos + |s| <= |text| && text[pos..pos + |s|] == s
  }

  predicate EndsWith(s: string, suffix: string) {
    |suffix| <= |s| && s[|s| - |suffix|..] == suffix
  }

  lemma OccursConcat(text: string, pos: nat, a: string, b: string)
    ensures Occurs(text, pos, a + b) <==> Occurs(text, pos, a) && Occurs(text, pos + |a|, b)
  {
    if Occurs(text, pos, a + b) {
      assert text[pos..pos + |a|] == text[pos..pos + |a + b|][..|a|] == a;
      assert text[pos + |a|..pos + |a| + |b|] == text[pos..pos + |a + b|][|a|..] == b;
    }
    if Occurs(text, pos, a) && Occurs(text, pos + |a|, b) {
      assert text[pos..pos + |a + b|] == text[pos..pos + |a|] + text[pos + |a|..pos + |a| + |b|];
    }
  }

  lemma OccursBounds(text: string, pos: nat, s: string)
    requires Occurs(text, pos, s)
    ensures pos + |s| <= |text|
  {
  }

  lemma OccursAt(text: string, pos: nat, s: string, i: nat)
    requires Occurs(text, pos, s) && i < |s|
    ensures pos + i < |text| && text[pos + i] == s[i]
  {
    assert text[pos + i] == text[pos..pos + |s|][i];
  }

  lemma OccursWhole(pre: string, s: string, post: string)
    ensures Occurs(pre + s + post, |pre|, s)
  {
  }

  /** Lower case of the ASCII letters. */
  function LowerChar(c: char): char {
    if 'A' <= c <= 'Z' then (c as int + 32) as char else c
  }

  function Lower(s: string): (r: string)
    ensures |r| == |s| && forall i :: 0 <= i < |s| ==> r[i] == LowerChar(s[i])
  {
    seq(|s|, i requires 0 <= i < |s| => LowerChar(s[i]))
  }

  predicate IsLetter(c: char) {
    'a' <= c <= 'z' || 'A' <= c <= 'Z'
  }

  /** Equal up to the case of letters. */
  predicate SameLetters(s: string, t: string) {
    |s| == |t| && forall i :: 0 <= i < |s| ==>
      s[i] == t[i] || (IsLetter(s[i]) && IsLetter(t[i]) && (s[i] as int - t[i] as int == 32 || t[i] as int - s[i] as int == 32))
  }

  lemma SameLettersIff(s: string, t: string)
    ensures SameLetters(s, t) <==> Lower(s) == Lower(t)
    ensures forall i :: 0 <= i < |s| ==> !('A' <= Lower(s)[i] <= 'Z')
  {
    forall i | 0 <= i < |s| == |t| && Lower(s) == Lower(t) ensures LowerChar(s[i]) == LowerChar(t[i]) {
      assert Lower(s)[i] == Lower(t)[i];
    }
  }
}
