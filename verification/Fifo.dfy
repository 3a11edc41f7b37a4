/** The abstract waiter list: a sequence without repetition, oldest first. */
module Fifo {
  /** The list after w has been unlinked from wherever it stands. */
  function Without<T(==)>(s: seq<T>, w: T): seq<T> {
    if s == [] then []
    else if s[0] == w then Without(s[1..], w)
    else [s[0]] + Without(s[1..], w)
  }

  /** Exactly the other elements stay. */
  lemma {:induction false} WithoutMembers<T>(s: seq<T>, w: T)
    ensures forall x | x in Without(s, w) :: x in s && x != w
    ensures forall x | x in s && x != w :: x in Without(s, w)
    ensures w !in s ==> Without(s, w) == s
  {
    if s != [] {
      WithoutMembers(s[1..], w);
    }
  }

  function FirstOnly<T>(s: seq<T>): seq<T> {
    if s == [] then [] else [s[0]]
  }

  ghost predicate Distinct<T>(s: seq<T>) {
    forall i, j :: 0 <= i < j < |s| ==> s[i] != s[j]
  }

  /** On a list without repetition, unlinking cuts out exactly one position. */
  lemma {:induction false} WithoutAt<T>(s: seq<T>, k: nat)
    requires k < |s| && Distinct(s)
    ensures Without(s, s[k]) == s[..k] + s[k + 1..]
  {
    if k == 0 {
      assert s[0] !in s[1..];
      WithoutMembers(s[1..], s[0]);
      assert s[..0] + s[1..] == s[1..];
    } else {
      assert s[1..][k - 1] == s[k];
      WithoutAt(s[1..], k - 1);
      assert [s[0]] + (s[1..][..k - 1] + s[1..][k..]) == s[..k] + s[k + 1..];
    }
  }
}
