/** Facts about finite sequences used by several proofs. */
module Sequences {

  ghost predicate NoDuplicates<T>(s: seq<T>) {
    forall i, j :: 0 <= i < j < |s| ==> s[i] != s[j]
  }

  lemma {:induction false} DistinctFit<T>(s: seq<T>, universe: set<T>)
    requires NoDuplicates(s) && forall x :: x in s ==> x in universe
    ensures |s| <= |universe|
    ensures |s| == |universe| ==> forall x :: x in universe ==> x in s
  {
    if s == [] {
      assert universe == {} || |universe| > 0;
    } else {
      var last := s[|s| - 1];
      DistinctFit(s[..|s| - 1], universe - {last});
      assert s == s[..|s| - 1] + [last];
    }
  }

  /** The pigeonhole principle: a long enough walk through a finite set repeats itself. */
  lemma Repeats<T>(s: seq<T>, universe: set<T>) returns (i: nat, j: nat)
    requires |s| > |universe| && forall x :: x in s ==> x in universe
    ensures i < j < |s| && s[i] == s[j]
  {
    if NoDuplicates(s) {
      DistinctFit(s, universe);
    } else {
      i, j :| 0 <= i < j < |s| && s[i] == s[j];
    }
  }

  lemma {:induction false} DistinctMultiset<T>(s: seq<T>)
    requires NoDuplicates(s)
    ensures multiset(s) == multiset(set x | x in s)
  {
    if s != [] {
      var rest := s[..|s| - 1];
      assert s == rest + [s[|s| - 1]];
      DistinctMultiset(rest);
      assert (set x | x in s) == (set x | x in rest) + {s[|s| - 1]};
    }
  }

  /** Duplicate-free sequences over the same elements are permutations of each other. */
  lemma SameElements<T>(s: seq<T>, t: seq<T>)
    requires NoDuplicates(s) && NoDuplicates(t)
    requires forall x :: x in s <==> x in t
    ensures multiset(s) == multiset(t)
  {
    DistinctMultiset(s);
    DistinctMultiset(t);
    assert (set x | x in s) == (set x | x in t);
  }

  lemma {:induction false} DistinctCount<T>(s: seq<T>)
    requires NoDuplicates(s)
    ensures |set x | x in s| == |s|
  {
    if s != [] {
      var rest := s[..|s| - 1];
      DistinctCount(rest);
      assert (set x | x in s) == (set x | x in rest) + {s[|s| - 1]};
    }
  }

  lemma LeftOut<T>(s: seq<T>, universe: set<T>) returns (x: T)
    requires NoDuplicates(s) && |s| < |universe|
    ensures x in universe && x !in s
  {
    DistinctCount(s);
    var seen := set y | y in s;
    assert |seen| == |seen * universe| + |seen - universe| by {
      assert seen == seen * universe + (seen - universe);
    }
    assert |universe| == |seen * universe| + |universe - seen| by {
      assert universe == seen * universe + (universe - seen);
    }
    x :| x in universe - seen;
  }

  /** A walk that ends where it began. */
  ghost predicate IsClosed<T>(walk: seq<T>) {
    |walk| >= 2 && walk[0] == walk[|walk| - 1]
  }
}
