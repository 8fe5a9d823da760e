/** Sequences read as histories: repeats dropped, and one history embedded in another. */
module Histories {

  /** The history with repeats removed, the first occurrence of each entry kept. */
  function Firsts<T(==)>(s: seq<T>): seq<T> {
    if s == [] then []
    else
      var rest := Firsts(s[..|s| - 1]);
      var last := s[|s| - 1];
      if last in s[..|s| - 1] then rest else rest + [last]
  }

  lemma {:induction false} FirstsOfAppend<T>(s: seq<T>, x: T)
    ensures Firsts(s + [x]) == if x in s then Firsts(s) else Firsts(s) + [x]
  {
    assert (s + [x])[..|s|] == s;
  }

  /** a can be obtained from b by leaving entries out. */
  predicate Subsequence<T(==)>(a: seq<T>, b: seq<T>)
    decreases |a| + |b|
  {
    a == [] ||
    (b != [] &&
     ((a[|a| - 1] == b[|b| - 1] && Subsequence(a[..|a| - 1], b[..|b| - 1])) || Subsequence(a, b[..|b| - 1])))
  }

  lemma {:induction false} SubsequenceOfAppend<T>(a: seq<T>, b: seq<T>, x: T)
    requires Subsequence(a, b)
    ensures Subsequence(a, b + [x]) && Subsequence(a + [x], b + [x])
  {
    assert (a + [x])[..|a|] == a && (b + [x])[..|b|] == b;
  }

  lemma {:induction false} SubsequenceOfLonger<T>(a: seq<T>, b: seq<T>, c: seq<T>)
    requires Subsequence(a, b) && b <= c
    ensures Subsequence(a, c)
    decreases |c|
  {
    if |b| < |c| {
      var d := c[..|c| - 1];
      SubsequenceOfLonger(a, b, d);
      SubsequenceOfAppend(a, d, c[|c| - 1]);
      assert d + [c[|c| - 1]] == c;
    } else {
      assert b == c;
    }
  }

  /** What the two definitions are for: nothing is repeated, nothing is missing, nothing is added. */
  lemma {:induction false} FirstsKeepsEachOnce<T>(s: seq<T>)
    ensures forall x :: x in Firsts(s) <==> x in s
    ensures forall i, j :: 0 <= i < j < |Firsts(s)| ==> Firsts(s)[i] != Firsts(s)[j]
  {
    if s != [] {
      FirstsKeepsEachOnce(s[..|s| - 1]);
      assert s == s[..|s| - 1] + [s[|s| - 1]];
    }
  }

  lemma {:induction false} SubsequenceContains<T>(a: seq<T>, b: seq<T>, x: T)
    requires Subsequence(a, b) && x in a
    ensures x in b
    decreases |a| + |b|
  {
    var shorter := b[..|b| - 1];
    assert b == shorter + [b[|b| - 1]];
    if !Subsequence(a, shorter) {
      assert a == a[..|a| - 1] + [a[|a| - 1]];
      if x in a[..|a| - 1] { SubsequenceContains(a[..|a| - 1], shorter, x); }
    } else {
      SubsequenceContains(a, shorter, x);
    }
  }
}
