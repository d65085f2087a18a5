module Subsequences {

  /** a is s with some elements left out. */
  ghost predicate IsSubsequence<T>(a: seq<T>, s: seq<T>) {
    if a == [] then true
    else if s == [] then false
    else (a[|a| - 1] == s[|s| - 1] && IsSubsequence(a[..|a| - 1], s[..|s| - 1])) || IsSubsequence(a, s[..|s| - 1])
  }

  lemma {:induction false} NothingIsSubsequence<T>(s: seq<T>)
    ensures IsSubsequence([], s)
  {
  }

  lemma {:induction false} SubsequencesJoin<T>(a: seq<T>, s: seq<T>, b: seq<T>, t: seq<T>)
    requires IsSubsequence(a, s) && IsSubsequence(b, t)
    ensures IsSubsequence(a + b, s + t)
    decreases |t|
  {
    if t == [] {
      assert a + b == a && s + t == s;
    } else {
      var init := t[..|t| - 1];
      assert (s + t)[..|s + t| - 1] == s + init;
      if b != [] && b[|b| - 1] == t[|t| - 1] && IsSubsequence(b[..|b| - 1], init) {
        SubsequencesJoin(a, s, b[..|b| - 1], init);
        assert (a + b)[..|a + b| - 1] == a + b[..|b| - 1];
      } else {
        SubsequencesJoin(a, s, b, init);
      }
    }
  }
}
