/** Sequences without repeated elements, and counting them. */
module Sequences {

  predicate NoRepeats<T(==)>(s: seq<T>) {
    forall i, j | 0 <= i < j < |s| :: s[i] != s[j]
  }

  /** A sequence without repeats has as many elements as its set. */
  lemma {:induction false} NoRepeatsCount<T>(s: seq<T>)
    requires NoRepeats(s)
    ensures |set x | x in s| == |s|
  {
    if s != [] {
      var front, last := s[..|s| - 1], s[|s| - 1];
      NoRepeatsCount(front);
      assert (set x | x in s) == (set x | x in front) + {last};
      assert last !in front;
    }
  }

  lemma SmallerSet<T>(x: set<T>, y: set<T>)
    requires x <= y
    ensures |x| <= |y|
    ensures |x| == |y| ==> x == y
  {
    assert y == x + (y - x);
  }

  /** Pigeonhole: as many distinct members of a finite set as it has elements are all of it. */
  lemma AllListed<T>(s: seq<T>, members: set<T>)
    requires NoRepeats(s) && |s| == |members| && forall i | 0 <= i < |s| :: s[i] in members
    ensures forall x :: x in members <==> x in s
  {
    var listed := set x | x in s;
    NoRepeatsCount(s);
    assert listed <= members;
    SmallerSet(listed, members);
  }

  lemma CountMembers<T>(s: seq<T>, members: set<T>)
    requires NoRepeats(s) && forall x :: x in members <==> x in s
    ensures |s| == |members|
  {
    NoRepeatsCount(s);
    assert members == set x | x in s;
  }

  /** Strings, counted with and without their repetitions. */
  lemma {:induction false} CountIff(s: seq<string>)
    ensures |set x | x in s| <= |s|
    ensures |set x | x in s| == |s| <==> NoRepeats(s)
  {
    if s != [] {
      var front, last := s[..|s| - 1], s[|s| - 1];
      CountIff(front);
      assert s == front + [last];
      assert (set x | x in s) == (set x | x in front) + {last};
      if last in front {
        assert (set x | x in s) == (set x | x in front);
      } else {
        assert NoRepeats(s) <==> NoRepeats(front);
      }
    }
  }
}
