/** Facts about sequences and finite sets that several components share. */
module Sequences {

  /** No element occurs at two positions. */
  ghost predicate Distinct<T>(s: seq<T>) {
    forall i, j | 0 <= i < j < |s| :: s[i] != s[j]
  }

  /** The last `n` elements of `s`, or all of `s` when it is shorter. */
  function LastN<T>(s: seq<T>, n: nat): seq<T> {
    if |s| <= n then s else s[|s| - n..]
  }

  lemma LastNContains<T>(s: seq<T>, n: nat)
    ensures forall i | 0 <= i < |s| && |s| - n <= i :: s[i] in LastN(s, n)
  {
    forall i | 0 <= i < |s| && |s| - n <= i
      ensures s[i] in LastN(s, n)
    {
      if |s| > n {
        assert LastN(s, n)[i - (|s| - n)] == s[i];
      }
    }
  }

  /** Trimming early does not change what a later trim keeps. */
  lemma LastNOfAppend<T>(s: seq<T>, x: T, n: nat)
    ensures LastN(LastN(s, n) + [x], n) == LastN(s + [x], n)
  {
  }

  /** A duplicate-free sequence over a finite set is no longer than the set. */
  lemma {:induction false} DistinctFits<T>(s: seq<T>, universe: set<T>)
    requires Distinct(s)
    requires forall x | x in s :: x in universe
    ensures |s| <= |universe|
  {
    if s != [] {
      var last := s[|s| - 1];
      DistinctFits(s[..|s| - 1], universe - {last});
    }
  }
}
