/**
 * The edit distance behind the glossary's fuzzy search (help/glossary_manager.cpp).
 *
 * `LevenshteinDistance` is the two-row dynamic program of the source. `Lev` is the
 * recurrence it tabulates. What the program is for is stated without either of them:
 * `Reaches(s, t, n)` says that n single-character edits turn s into t, and
 * `LevIsLeastEditCount` says that the program's value is the least such n.
 */
module EditDistance {

  function Min(a: nat, b: nat): nat {
    if a <= b then a else b
  }

  function Min3(a: int, b: int, c: int): int {
    if a <= b && a <= c then a else if b <= c then b else c
  }

  function Cost(a: char, b: char): nat {
    if a == b then 0 else 1
  }

  function Front(s: string): string
    requires s != []
  {
    s[..|s| - 1]
  }

  function Last(s: string): char
    requires s != []
  {
    s[|s| - 1]
  }

  /** The recurrence on the last characters of the two words. */
  function Lev(s: string, t: string): nat
    decreases |s| + |t|
  {
    if s == [] then |t|
    else if t == [] then |s|
    else
      Min(Min(Lev(Front(s), t) + 1, Lev(s, Front(t)) + 1),
          Lev(Front(s), Front(t)) + Cost(Last(s), Last(t)))
  }

  // ---------------------------------------------------------------------------
  // The program: two rows, overwritten and swapped
  // ---------------------------------------------------------------------------

  /** The distance between the first i characters of s and the first j of t. */
  ghost function LevAt(s: string, i: nat, t: string, j: nat): nat
    requires i <= |s| && j <= |t|
  {
    Lev(s[..i], t[..j])
  }

  /** The recurrence as the table sees it. */
  lemma TableStep(s: string, i: nat, t: string, j: nat)
    requires 0 < i <= |s| && 0 < j <= |t|
    ensures LevAt(s, i, t, j) ==
            Min(Min(LevAt(s, i - 1, t, j) + 1, LevAt(s, i, t, j - 1) + 1),
                LevAt(s, i - 1, t, j - 1) + Cost(s[i - 1], t[j - 1]))
  {
    assert Front(s[..i]) == s[..i - 1] && Front(t[..j]) == t[..j - 1];
  }

  /** Row i holds the distances from the first i characters of s to the first 0..upto of t. */
  ghost predicate RowHolds(row: seq<int>, s: string, i: nat, t: string, upto: nat)
    requires i <= |s| && upto <= |t| < |row|
  {
    forall j :: 0 <= j <= upto ==> row[j] == LevAt(s, i, t, j)
  }

  method LevenshteinDistance(s1: string, s2: string) returns (d: int)
    ensures d == Lev(s1, s2)
  {
    var m, n := |s1|, |s2|;
    if m == 0 { return n; }
    if n == 0 { return m; }

    var previous, current := new int[n + 1], new int[n + 1];
    for j := 0 to n + 1
      invariant forall k :: 0 <= k < j ==> previous[k] == k
    {
      previous[j] := j;
    }

    for i := 1 to m + 1
      invariant previous != current && previous.Length == current.Length == n + 1
      invariant fresh(previous) && fresh(current)
      invariant RowHolds(previous[..], s1, i - 1, s2, n)
    {
      current[0] := i;
      var c1 := s1[i - 1];
      for j := 1 to n + 1
        invariant RowHolds(previous[..], s1, i - 1, s2, n)
        invariant RowHolds(current[..], s1, i, s2, j - 1)
      {
        TableStep(s1, i, s2, j);
        var cost := if c1 == s2[j - 1] then 0 else 1;
        current[j] := Min3(previous[j] + 1, current[j - 1] + 1, previous[j - 1] + cost);
      }
      previous, current := current, previous;
    }
    assert s1[..m] == s1 && s2[..n] == s2;
    d := previous[n];
  }

  // ---------------------------------------------------------------------------
  // A metric on words
  // ---------------------------------------------------------------------------

  lemma {:induction false} LevBounds(s: string, t: string)
    ensures |s| <= |t| + Lev(s, t) && |t| <= |s| + Lev(s, t)
    decreases |s| + |t|
  {
    if s != [] && t != [] {
      LevBounds(Front(s), t);
      LevBounds(s, Front(t));
      LevBounds(Front(s), Front(t));
    }
  }

  lemma {:induction false} LevSelf(s: string)
    ensures Lev(s, s) == 0
    decreases |s|
  {
    if s != [] {
      LevSelf(Front(s));
    }
  }

  lemma {:induction false} LevIdentity(s: string, t: string)
    ensures Lev(s, t) == 0 <==> s == t
    decreases |s| + |t|
  {
    if s == t {
      LevSelf(s);
    }
    if s != [] && t != [] && Lev(s, t) == 0 {
      LevIdentity(Front(s), Front(t));
      assert s == Front(s) + [Last(s)] && t == Front(t) + [Last(t)];
    }
  }

  lemma {:induction false} LevSymmetric(s: string, t: string)
    ensures Lev(s, t) == Lev(t, s)
    decreases |s| + |t|
  {
    if s != [] && t != [] {
      LevSymmetric(Front(s), t);
      LevSymmetric(s, Front(t));
      LevSymmetric(Front(s), Front(t));
    }
  }

  lemma {:induction false} LevTriangle(s: string, t: string, u: string)
    ensures Lev(s, u) <= Lev(s, t) + Lev(t, u)
    decreases |s| + |t| + |u|
  {
    if s == [] || t == [] || u == [] {
      LevBounds(s, t);
      LevBounds(t, u);
      LevBounds(s, u);
      LevAtMostSum(s, u);
    } else if Lev(s, t) == Lev(Front(s), t) + 1 {
      LevTriangle(Front(s), t, u);
    } else if Lev(t, u) == Lev(t, Front(u)) + 1 {
      LevTriangle(s, t, Front(u));
    } else if Lev(s, t) == Lev(s, Front(t)) + 1 {
      if Lev(t, u) == Lev(Front(t), u) + 1 {
        LevTriangle(s, Front(t), u);
      } else {
        LevTriangle(s, Front(t), Front(u));
      }
    } else if Lev(t, u) == Lev(Front(t), u) + 1 {
      LevTriangle(Front(s), Front(t), u);
    } else {
      LevTriangle(Front(s), Front(t), Front(u));
    }
  }

  /** Deleting everything and retyping is always possible. */
  lemma {:induction false} LevAtMostSum(s: string, t: string)
    ensures Lev(s, t) <= |s| + |t|
    decreases |s|
  {
    if s != [] && t != [] {
      LevAtMostSum(Front(s), t);
    }
  }

  // ---------------------------------------------------------------------------
  // The meaning: fewest single-character edits
  // ---------------------------------------------------------------------------

  /** One character inserted before position k, deleted at k, or replaced at k. */
  datatype Edit = Insert(k: nat, c: char) | Delete(k: nat) | Substitute(k: nat, c: char)

  predicate Applies(e: Edit, s: string) {
    if e.Insert? then e.k <= |s| else e.k < |s|
  }

  function Apply(e: Edit, s: string): string
    requires Applies(e, s)
  {
    match e
    case Insert(k, c) => s[..k] + [c] + s[k..]
    case Delete(k) => s[..k] + s[k + 1..]
    case Substitute(k, c) => s[..k] + [c] + s[k + 1..]
  }

  ghost predicate OneEdit(s: string, t: string) {
    exists e :: Applies(e, s) && t == Apply(e, s)
  }

  /** Some sequence of exactly n edits leads from s to t. */
  ghost predicate Reaches(s: string, t: string, n: nat)
    decreases n
  {
    if n == 0 then s == t
    else exists mid :: OneEdit(s, mid) && Reaches(mid, t, n - 1)
  }

  /** A common last character costs nothing. */
  lemma LevCommonLast(s: string, t: string)
    requires s != [] && t != [] && Last(s) == Last(t)
    ensures Lev(s, t) <= Lev(Front(s), Front(t))
  {
  }

  /** An edit that does not reach the last character is an edit of what precedes it. */
  lemma EditBelowLast(s: string, e: Edit)
    requires s != [] && Applies(e, Front(s))
    ensures Applies(e, s) && Apply(e, s) == Apply(e, Front(s)) + [Last(s)]
  {
    var k, front, last := e.k, Front(s), [Last(s)];
    assert s == front + last;
    match e
    case Insert(_, _) => assert s[k..] == front[k..] + last;
    case Delete(_) => assert s[k + 1..] == front[k + 1..] + last;
    case Substitute(_, _) => assert s[k + 1..] == front[k + 1..] + last;
  }

  lemma {:induction false} LevOfEdit(s: string, e: Edit)
    requires Applies(e, s)
    ensures Lev(s, Apply(e, s)) <= 1
    decreases |s|
  {
    var t := Apply(e, s);
    if s != [] && Applies(e, Front(s)) {
      EditBelowLast(s, e);
      assert Front(t) == Apply(e, Front(s)) && Last(t) == Last(s);
      LevOfEdit(Front(s), e);
      LevCommonLast(s, t);
    } else {
      LevOfEditAtLast(s, e);
    }
  }

  lemma LevOfEditAtLast(s: string, e: Edit)
    requires Applies(e, s) && (s == [] || !Applies(e, Front(s)))
    ensures Lev(s, Apply(e, s)) <= 1
  {
    var t := Apply(e, s);
    LevSelf(s);
    match e
    case Insert(k, c) =>
      assert t != [] && Front(t) == s;
    case Delete(k) =>
      assert t == Front(s);
      LevSelf(t);
    case Substitute(k, c) =>
      assert t != [] && Front(t) == Front(s);
      LevSelf(Front(s));
  }

  /** No sequence of edits is shorter than the computed distance. */
  lemma {:induction false} LevIsLowerBound(s: string, t: string, n: nat)
    requires Reaches(s, t, n)
    ensures Lev(s, t) <= n
    decreases n
  {
    if n == 0 {
      LevSelf(s);
    } else {
      var mid :| OneEdit(s, mid) && Reaches(mid, t, n - 1);
      var e :| Applies(e, s) && mid == Apply(e, s);
      LevOfEdit(s, e);
      LevIsLowerBound(mid, t, n - 1);
      LevTriangle(s, mid, t);
    }
  }

  lemma OneEditUnderLast(s: string, t: string, c: char)
    requires OneEdit(s, t)
    ensures OneEdit(s + [c], t + [c])
  {
    var e :| Applies(e, s) && t == Apply(e, s);
    assert Front(s + [c]) == s;
    EditBelowLast(s + [c], e);
  }

  /** Edits act the same below an untouched last character. */
  lemma {:induction false} ReachesUnderLast(s: string, t: string, c: char, n: nat)
    requires Reaches(s, t, n)
    ensures Reaches(s + [c], t + [c], n)
    decreases n
  {
    if n > 0 {
      var mid :| OneEdit(s, mid) && Reaches(mid, t, n - 1);
      OneEditUnderLast(s, mid, c);
      ReachesUnderLast(mid, t, c, n - 1);
    }
  }

  lemma {:induction false} ReachesThen(s: string, t: string, u: string, n: nat)
    requires Reaches(s, t, n) && OneEdit(t, u)
    ensures Reaches(s, u, n + 1)
    decreases n
  {
    if n == 0 {
      assert OneEdit(s, u) && Reaches(u, u, 0);
    } else {
      var mid :| OneEdit(s, mid) && Reaches(mid, t, n - 1);
      ReachesThen(mid, t, u, n - 1);
    }
  }

  lemma ReachesFirst(s: string, mid: string, t: string, n: nat)
    requires OneEdit(s, mid) && Reaches(mid, t, n)
    ensures Reaches(s, t, n + 1)
  {
  }

  lemma DropLast(s: string)
    requires s != []
    ensures OneEdit(s, Front(s))
  {
    var e := Delete(|s| - 1);
    assert Applies(e, s) && Front(s) == Apply(e, s);
  }

  lemma AppendLast(s: string)
    requires s != []
    ensures OneEdit(Front(s), s)
  {
    var e := Insert(|s| - 1, Last(s));
    assert Applies(e, Front(s)) && s == Apply(e, Front(s));
  }

  lemma ReplaceLast(s: string, a: char, b: char)
    ensures OneEdit(s + [a], s + [b])
  {
    var e := Substitute(|s|, b);
    assert Applies(e, s + [a]) && s + [b] == Apply(e, s + [a]);
  }

  lemma ReachesByLastChange(s: string, t: string, a: char, b: char, d: nat)
    requires Reaches(s, t, d)
    ensures Reaches(s + [a], t + [b], d + Cost(a, b))
  {
    ReachesUnderLast(s, t, b, d);
    if a != b {
      ReplaceLast(s, a, b);
      ReachesFirst(s + [a], s + [b], t + [b], d);
    }
  }

  lemma ReachesByDrop(s: string, t: string, d: nat)
    requires s != [] && Reaches(Front(s), t, d)
    ensures Reaches(s, t, d + 1)
  {
    DropLast(s);
    ReachesFirst(s, Front(s), t, d);
  }

  lemma ReachesByAppend(s: string, t: string, d: nat)
    requires t != [] && Reaches(s, Front(t), d)
    ensures Reaches(s, t, d + 1)
  {
    AppendLast(t);
    ReachesThen(s, Front(t), t, d);
  }

  lemma FrontLast(s: string)
    requires s != []
    ensures Front(s) + [Last(s)] == s
  {
  }

  /** The computed number of edits suffices. */
  lemma {:induction false} LevIsReached(s: string, t: string)
    ensures Reaches(s, t, Lev(s, t))
    decreases |s| + |t|
  {
    if s == [] && t == [] {
    } else if s == [] || (t != [] && Lev(s, t) == Lev(s, Front(t)) + 1) {
      LevIsReached(s, Front(t));
      ReachesByAppend(s, t, Lev(s, Front(t)));
    } else if t == [] || Lev(s, t) == Lev(Front(s), t) + 1 {
      LevIsReached(Front(s), t);
      ReachesByDrop(s, t, Lev(Front(s), t));
    } else {
      LevIsReached(Front(s), Front(t));
      ReachesByLastChange(Front(s), Front(t), Last(s), Last(t), Lev(Front(s), Front(t)));
      FrontLast(s);
      FrontLast(t);
    }
  }

  /** The distance is the least number of insertions, deletions and substitutions from s to t. */
  lemma LevIsLeastEditCount(s: string, t: string)
    ensures Reaches(s, t, Lev(s, t))
    ensures forall n: nat :: Reaches(s, t, n) ==> Lev(s, t) <= n
  {
    LevIsReached(s, t);
    forall n: nat | Reaches(s, t, n)
      ensures Lev(s, t) <= n
    {
      LevIsLowerBound(s, t, n);
    }
  }
}
