/**
 The name space of the mounted volumes: a finite map from case-folded component
 sequences to entries.  Keys start with the mount name, so an entry of a volume
 has at least two components.
 */
module Volume {
  import opened Paths
  import opened PathKeys

  datatype Entry = Entry(id: nat, directory: bool)

  type Tree = map<Key, Entry>

  function Parent(k: Key): Key
    requires k != []
  {
    k[..|k| - 1]
  }

  /** The parent of k is a mount root or an existing directory. */
  predicate HasParent(t: Tree, k: Key) {
    |k| >= 2 && (|k| == 2 || (Parent(k) in t && t[Parent(k)].directory))
  }

  /** Parents are directories and every object has one name. */
  ghost predicate WellFormed(t: Tree) {
    && (forall k :: k in t ==> HasParent(t, k))
    && (forall j, k {:trigger OneName(t, j, k)} :: j in t && k in t ==> OneName(t, j, k))
  }

  /** An object has one name. */
  predicate OneName(t: Tree, j: Key, k: Key) { j in t && k in t && t[j].id == t[k].id ==> j == k }

  /** Everything at or below a appears at b instead. */
  function Move(t: Tree, a: Key, b: Key): Tree {
    (map k | k in t && !(a <= k) :: t[k]) +
    (map j | j in Landing(t, a, b) && Origin(j, a, b) in t :: t[Origin(j, a, b)])
  }

  function Landing(t: Tree, a: Key, b: Key): set<Key> {
    set k | k in t && a <= k :: b + k[|a|..]
  }

  function Origin(j: Key, a: Key, b: Key): Key {
    if b <= j then a + j[|b|..] else j
  }

  /** When the volume accepts a rename of an existing entry. */
  predicate CanMove(t: Tree, directory: bool, a: Key, b: Key) {
    a in t && t[a].directory == directory && (a == b || b !in t) && HasParent(t, b)
  }

  predicate HasChildren(t: Tree, k: Key) {
    exists j :: j in t && k <= j && j != k
  }

  predicate CanDelete(t: Tree, directory: bool, k: Key) {
    k in t && t[k].directory == directory && !HasChildren(t, k)
  }

  // ----- The moved tree, key by key

  lemma MoveLanded(t: Tree, a: Key, b: Key, s: Key)
    ensures b + s in Move(t, a, b) || a + s !in t
    ensures a + s in t ==> Move(t, a, b)[b + s] == t[a + s]
  {
    if a + s in t {
      assert (a + s)[|a|..] == s && (b + s)[|b|..] == s;
      assert b + s in Landing(t, a, b);
    }
  }

  lemma MoveStays(t: Tree, a: Key, b: Key, k: Key)
    requires k in t && !(a <= k) && !(b <= k)
    ensures k in Move(t, a, b) && Move(t, a, b)[k] == t[k]
  {
  }

  /** Every entry of the moved tree stands for one entry of the old tree. */
  lemma MoveOrigin(t: Tree, a: Key, b: Key, j: Key) returns (k: Key)
    requires j in Move(t, a, b)
    ensures k in t && j == Rebase(k, a, b) && Move(t, a, b)[j] == t[k]
    ensures (a <= k && b <= j && k == a + j[|b|..]) || (!(a <= k) && k == j)
  {
    if j in Landing(t, a, b) && Origin(j, a, b) in t {
      k := Origin(j, a, b);
      assert k[|a|..] == j[|b|..];
    } else {
      k := j;
    }
  }

  /** In a well-formed tree every ancestor of an entry below a mount exists. */
  lemma {:induction false} AncestorsExist(t: Tree, k: Key, n: nat)
    requires WellFormed(t) && k in t && 2 <= n <= |k|
    ensures k[..n] in t && (n < |k| ==> t[k[..n]].directory)
    decreases |k|
  {
    if n == |k| {
      assert k[..n] == k;
    } else {
      assert HasParent(t, k);
      AncestorsExist(t, Parent(k), n);
      assert Parent(k)[..n] == k[..n];
    }
  }

  lemma PrefixExists(t: Tree, b: Key, k: Key)
    requires WellFormed(t) && |b| >= 2 && k in t && b <= k
    ensures b in t
  {
    AncestorsExist(t, k, |b|);
    assert k[..|b|] == b;
  }

  /** Each object keeps its entry, under the relocated key. */
  lemma MoveKeeps(t: Tree, a: Key, b: Key, k: Key)
    requires WellFormed(t) && k in t && |b| >= 2 && (a == b || b !in t)
    ensures Rebase(k, a, b) in Move(t, a, b) && Move(t, a, b)[Rebase(k, a, b)] == t[k]
  {
    if a <= k {
      assert a + k[|a|..] == k;
      MoveLanded(t, a, b, k[|a|..]);
    } else {
      if b <= k {
        PrefixExists(t, b, k);
      } else {
        MoveStays(t, a, b, k);
      }
    }
  }

  lemma MoveOriginUnique(t: Tree, a: Key, b: Key, i: Key, j: Key)
    requires WellFormed(t) && i in Move(t, a, b) && j in Move(t, a, b)
    requires Move(t, a, b)[i].id == Move(t, a, b)[j].id
    ensures i == j
  {
    var k := MoveOrigin(t, a, b, i);
    var l := MoveOrigin(t, a, b, j);
    assert OneName(t, k, l);
  }

  lemma LandedHasParent(t: Tree, a: Key, b: Key, s: Key)
    requires WellFormed(t) && |a| >= 2 && |b| >= 2 && s != [] && a + s in t
    ensures HasParent(Move(t, a, b), b + s)
  {
    assert HasParent(t, a + s);
    assert Parent(a + s) == a + Parent(s) && Parent(b + s) == b + Parent(s);
    MoveLanded(t, a, b, Parent(s));
  }

  lemma StayingParent(t: Tree, a: Key, b: Key, j: Key)
    requires WellFormed(t) && |b| >= 2 && (a == b || b !in t) && HasParent(t, j) && (|j| == 2 || !(a <= Parent(j)))
    ensures HasParent(Move(t, a, b), j)
  {
    if |j| > 2 {
      MoveKeeps(t, a, b, Parent(j));
    }
  }

  lemma PrefixOfParent(a: Key, k: Key)
    requires k != [] && a <= Parent(k)
    ensures a <= k && a != k
  {
  }

  lemma MovedHasParent(t: Tree, a: Key, b: Key, directory: bool, j: Key)
    requires WellFormed(t) && CanMove(t, directory, a, b) && (a == b || !(a <= b)) && j in Move(t, a, b)
    ensures HasParent(Move(t, a, b), j)
  {
    var k := MoveOrigin(t, a, b, j);
    assert HasParent(t, k) && HasParent(t, a);
    if a <= k && j != b {
      LandedHasParent(t, a, b, j[|b|..]);
      assert b + j[|b|..] == j;
    } else {
      if a <= Parent(j) {
        PrefixOfParent(a, j);
      } else {
        StayingParent(t, a, b, j);
      }
    }
  }

  /** Moving an entry keeps the tree well formed exactly when the entry is not
      moved below itself. */
  lemma MoveIsWellFormedIff(t: Tree, a: Key, b: Key, directory: bool)
    requires WellFormed(t) && CanMove(t, directory, a, b)
    ensures WellFormed(Move(t, a, b)) <==> (a == b || !(a <= b))
  {
    if a == b || !(a <= b) {
      MoveIsWellFormed(t, a, b, directory);
    } else {
      MoveOrphans(t, a, b, directory);
    }
  }

  lemma MoveIsWellFormed(t: Tree, a: Key, b: Key, directory: bool)
    requires WellFormed(t) && CanMove(t, directory, a, b) && (a == b || !(a <= b))
    ensures WellFormed(Move(t, a, b))
  {
    var t' := Move(t, a, b);
    forall j | j in t'
      ensures HasParent(t', j)
    {
      MovedHasParent(t, a, b, directory, j);
    }
    forall i, j | i in t' && j in t'
      ensures OneName(t', i, j)
    {
      if t'[i].id == t'[j].id {
        MoveOriginUnique(t, a, b, i, j);
      }
    }
  }

  /** Below itself an entry has no parent. */
  lemma MoveOrphans(t: Tree, a: Key, b: Key, directory: bool)
    requires WellFormed(t) && CanMove(t, directory, a, b) && a != b && a <= b
    ensures b in Move(t, a, b) && !HasParent(Move(t, a, b), b)
  {
    var t' := Move(t, a, b);
    MoveLanded(t, a, b, []);
    assert a + [] == a && b + [] == b;
    assert HasParent(t, a) && |b| > 2;
    assert a <= Parent(b);
    if Parent(b) in t' {
      var k := MoveOrigin(t, a, b, Parent(b));
    }
  }

  lemma MoveBackKeeps(t: Tree, a: Key, b: Key, k: Key)
    requires WellFormed(t) && |b| >= 2 && b !in t && k in t
    ensures var v := Move(Move(t, a, b), b, a); k in v && v[k] == t[k]
  {
    var u := Move(t, a, b);
    if a <= k {
      var s := k[|a|..];
      assert k == a + s;
      MoveLanded(t, a, b, s);
      MoveLanded(u, b, a, s);
    } else if b <= k {
      PrefixExists(t, b, k);
    } else {
      MoveStays(t, a, b, k);
      MoveStays(u, b, a, k);
    }
  }

  lemma MoveBackAddsNothing(t: Tree, a: Key, b: Key, j: Key)
    requires WellFormed(t) && |b| >= 2 && b !in t && !(a <= b) && !(b <= a) && j in Move(Move(t, a, b), b, a)
    ensures j in t
  {
    var i := MoveOrigin(Move(t, a, b), b, a, j);
    var k := MoveOrigin(t, a, b, i);
    if b <= i {
      if !(a <= k) {
        PrefixExists(t, b, k);
      }
    }
  }

  /** Undoing a move to a free name restores the tree. */
  lemma MoveBack(t: Tree, a: Key, b: Key)
    requires WellFormed(t) && |b| >= 2 && b !in t && !(a <= b) && !(b <= a)
    ensures Move(Move(t, a, b), b, a) == t
  {
    var v := Move(Move(t, a, b), b, a);
    forall k | k in t
      ensures k in v && v[k] == t[k]
    {
      MoveBackKeeps(t, a, b, k);
    }
    forall j | j in v
      ensures j in t
    {
      MoveBackAddsNothing(t, a, b, j);
    }
    assert v.Keys == t.Keys;
  }

  lemma MoveOnto(t: Tree, a: Key)
    ensures Move(t, a, a) == t
  {
    var u := Move(t, a, a);
    forall k | k in t
      ensures k in u && u[k] == t[k]
    {
      if a <= k {
        assert a + k[|a|..] == k;
        MoveLanded(t, a, a, k[|a|..]);
      } else {
        MoveStays(t, a, a, k);
      }
    }
    forall j | j in u
      ensures j in t
    {
      var k := MoveOrigin(t, a, a, j);
      assert a <= k ==> a + j[|a|..] == j;
    }
    assert u.Keys == t.Keys;
  }

  /** Deleting an entry without children keeps the tree well formed. */
  lemma DeleteIsWellFormed(t: Tree, k: Key)
    requires WellFormed(t) && !HasChildren(t, k)
    ensures WellFormed(t - {k})
  {
    forall j | j in t - {k}
      ensures HasParent(t - {k}, j)
    {
      assert HasParent(t, j);
      assert Parent(j) <= j && Parent(j) != j;
    }
    forall i, j | i in t - {k} && j in t - {k}
      ensures OneName(t - {k}, i, j)
    {
      assert OneName(t, i, j);
    }
  }

  /** In a well-formed tree the name of an object tells all its names. */
  lemma NameOfObject(t: Tree, k: Key)
    requires WellFormed(t) && k in t
    ensures forall j :: j in t && t[j].id == t[k].id ==> j == k
  {
    forall j | j in t && t[j].id == t[k].id
      ensures j == k
    {
      assert OneName(t, j, k);
    }
  }
}
