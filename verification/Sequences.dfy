/** The elements of a sequence, and sequences of numbers. */
module Sequences {

  function Members<T(!new)>(s: seq<T>): set<T> {
    set x | x in s
  }

  lemma MembersOfLonger<T(!new)>(s: seq<T>)
    requires s != []
    ensures Members(s) == Members(s[..|s| - 1]) + {s[|s| - 1]}
  {
    assert s == s[..|s| - 1] + [s[|s| - 1]];
  }

  /** 0 up to n - 1 */
  function UpTo(n: nat): (s: seq<nat>)
    ensures |s| == n && forall i :: 0 <= i < n ==> s[i] == i
  {
    seq(n, i requires 0 <= i < n => i)
  }
}
