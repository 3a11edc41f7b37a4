/**
 What becomes of every object in the course of a rename, whichever of its calls
 took effect, and whether or not its checks were right.
 */
module RenameFate {
  import opened Errors
  import opened PathKeys
  import opened Volume
  import opened RenameOutcome
  import opened RenameCourse

  /** Where an entry is before the deletion. */
  function HomeOf(k: Key, a: Key, b: Key, c: Course): Key {
    var x := if c.aside then Rebase(k, b, c.backup) else k;
    var y := if c.moved then Rebase(x, a, b) else x;
    if c.restored then Rebase(y, c.backup, b) else y
  }

  lemma RestoredIsWellFormed(t: Tree, a: Key, b: Key, directory: bool, c: Course)
    requires WellFormed(t) && Legal(t, a, b, directory, c)
    ensures WellFormed(AfterRestore(t, a, b, c))
  {
    SourceIsWellFormed(t, a, b, directory, c);
    if c.restored {
      MoveIsWellFormedIff(AfterSource(t, a, b, c), c.backup, b, directory);
    }
  }

  lemma EntryIsTracked(t: Tree, a: Key, b: Key, directory: bool, c: Course, k: Key)
    requires WellFormed(t) && Legal(t, a, b, directory, c) && k in t
    ensures var u := AfterRestore(t, a, b, c); HomeOf(k, a, b, c) in u && u[HomeOf(k, a, b, c)] == t[k]
  {
    SourceIsWellFormed(t, a, b, directory, c);
    var x := if c.aside then Rebase(k, b, c.backup) else k;
    var y := if c.moved then Rebase(x, a, b) else x;
    if c.aside {
      MoveKeeps(t, b, c.backup, k);
    }
    if c.moved {
      MoveKeeps(AfterAside(t, b, c), a, b, x);
    }
    if c.restored {
      MoveKeeps(AfterSource(t, a, b, c), c.backup, b, y);
    }
  }

  /** Nothing else is there. */
  lemma EntryHasOrigin(t: Tree, a: Key, b: Key, directory: bool, c: Course, j: Key) returns (k: Key)
    requires WellFormed(t) && Legal(t, a, b, directory, c) && j in AfterRestore(t, a, b, c)
    ensures k in t && HomeOf(k, a, b, c) == j && AfterRestore(t, a, b, c)[j] == t[k]
  {
    k := j;
    if c.restored {
      k := MoveOrigin(AfterSource(t, a, b, c), c.backup, b, k);
    }
    if c.moved {
      k := MoveOrigin(AfterAside(t, b, c), a, b, k);
    }
    if c.aside {
      k := MoveOrigin(t, b, c.backup, k);
    }
  }

  /** The object of k is under this name and no other. */
  ghost predicate OnlyAt(t: Tree, k: Key, v: Tree, home: Key)
    requires k in t
  {
    home in v && v[home] == t[k] && forall j :: j in v && v[j].id == t[k].id ==> j == home
  }

  ghost predicate Gone(t: Tree, k: Key, v: Tree)
    requires k in t
  {
    forall j :: j in v ==> v[j].id != t[k].id
  }

  /** Every object is at its home, under one name, unless the deletion hit that
      name; and then it is gone. */
  lemma ObjectIsKeptIff(t: Tree, a: Key, b: Key, directory: bool, c: Course, k: Key)
    requires WellFormed(t) && Legal(t, a, b, directory, c) && k in t
    ensures var v, home := Final(t, a, b, c), HomeOf(k, a, b, c);
      if c.deleted && home == c.backup then Gone(t, k, v) else OnlyAt(t, k, v, home)
  {
    EntryIsTracked(t, a, b, directory, c, k);
    RestoredIsWellFormed(t, a, b, directory, c);
    NameOfObject(AfterRestore(t, a, b, c), HomeOf(k, a, b, c));
  }

  lemma IdsAreTracked(t: Tree, a: Key, b: Key, directory: bool, c: Course)
    requires WellFormed(t) && Legal(t, a, b, directory, c)
    ensures Ids(AfterRestore(t, a, b, c)) == Ids(t)
  {
    SourceIsWellFormed(t, a, b, directory, c);
    if c.aside {
      IdsOfMove(t, b, c.backup);
    }
    if c.moved {
      IdsOfMove(AfterAside(t, b, c), a, b);
    }
    if c.restored {
      IdsOfMove(AfterSource(t, a, b, c), c.backup, b);
    }
  }

  lemma IdsWithout(u: Tree, k: Key)
    requires WellFormed(u) && k in u
    ensures Ids(u - {k}) == Ids(u) - {u[k].id}
  {
    NameOfObject(u, k);
    forall x | x in Ids(u) && x != u[k].id
      ensures x in Ids(u - {k})
    {
      var j :| j in u && u[j].id == x;
      assert j in u - {k};
    }
  }

  /** A deletion takes one object, the one whose home is the backup name. */
  lemma OneObjectIsDeleted(t: Tree, a: Key, b: Key, directory: bool, c: Course) returns (k: Key)
    requires WellFormed(t) && Legal(t, a, b, directory, c) && c.deleted
    ensures k in t && HomeOf(k, a, b, c) == c.backup && Ids(Final(t, a, b, c)) == Ids(t) - {t[k].id}
  {
    k := EntryHasOrigin(t, a, b, directory, c, c.backup);
    RestoredIsWellFormed(t, a, b, directory, c);
    IdsAreTracked(t, a, b, directory, c);
    IdsWithout(AfterRestore(t, a, b, c), c.backup);
  }

  // ----- When what the checks found is right

  /** What a deletion takes: the destination if it is aside, and otherwise whatever
      has the backup name. */
  function Victim(r: Job, c: Course): Key { if c.aside then r.b else c.backup }

  /** The deletion hits the source. */
  predicate SourceDeleted(r: Job, c: Course) { c.deleted && !c.aside && c.backup == r.a }

  /** The deletion hits the destination. */
  predicate DestinationDeleted(r: Job, c: Course) { c.deleted && (c.aside || c.backup == r.b) }

  /** A destination that is not aside under another name blocks both renames. */
  lemma BlockedCourse(t: Tree, r: Job, c: Course, error: Errno, renamed: bool, h: Hush)
    requires WellFormed(t) && Sound(t, r) && Flow(r, c, error, renamed, h) && Legal(t, r.a, r.b, r.directory, c)
    requires !(c.aside && c.backup != r.b) && r.b in t && r.a != r.b
    ensures !c.moved && AfterRestore(t, r.a, r.b, c) == t && (c.restored ==> c.backup == r.b)
  {
    MoveOnto(t, r.b);
  }

  lemma RebaseOnto(k: Key, b: Key)
    ensures Rebase(k, b, b) == k
  {
    if b <= k {
      assert b + k[|b|..] == k;
    }
  }

  /** Putting the destination aside leaves the source where it is. */
  lemma AsideSparesSource(t: Tree, r: Job, c: Course)
    requires WellFormed(t) && Sound(t, r) && Backed(r) && c.aside && c.backup != r.b && |c.backup| == 2
    requires Legal(t, r.a, r.b, r.directory, c)
    ensures !(r.b <= r.a) && !(c.backup <= r.a) && !(c.backup <= r.b) && !(r.b <= c.backup)
  {
    SoundSetsAside(t, r, c.backup);
    SetAside(t, r.a, r.b, r.directory, c.backup);
    NotBelowChildless(t, r.b, r.a);
    if c.backup <= r.a {
      PrefixExists(t, c.backup, r.a);
    }
  }

  lemma SourceHome(t: Tree, r: Job, c: Course, error: Errno, renamed: bool, h: Hush)
    requires WellFormed(t) && Sound(t, r) && (c.aside ==> |c.backup| == 2)
    requires Legal(t, r.a, r.b, r.directory, c) && Flow(r, c, error, renamed, h)
    ensures HomeOf(r.a, r.a, r.b, c) == if c.moved then r.b else r.a
    ensures c.deleted ==> (HomeOf(r.a, r.a, r.b, c) == c.backup <==> !c.aside && c.backup == r.a)
  {
    assert r.a[|r.a|..] == [] && r.b + [] == r.b;
    if Backed(r) {
      if c.aside && c.backup != r.b {
        AsideSparesSource(t, r, c);
      } else {
        BlockedCourse(t, r, c, error, renamed, h);
        RebaseOnto(r.a, r.b);
      }
    }
  }

  lemma DestinationHome(t: Tree, r: Job, c: Course, error: Errno, renamed: bool, h: Hush)
    requires WellFormed(t) && Sound(t, r) && (c.aside ==> |c.backup| == 2) && r.b in t && r.a != r.b
    requires Legal(t, r.a, r.b, r.directory, c) && Flow(r, c, error, renamed, h)
    ensures HomeOf(r.b, r.a, r.b, c) == if c.aside && !c.restored then c.backup else r.b
  {
    assert r.b[|r.b|..] == [] && c.backup[|c.backup|..] == [] && c.backup + [] == c.backup && r.b + [] == r.b;
    if c.aside && c.backup != r.b {
      SoundSetsAside(t, r, c.backup);
      assert r.a <= c.backup ==> r.a == c.backup;
    } else {
      BlockedCourse(t, r, c, error, renamed, h);
      RebaseOnto(r.b, r.b);
    }
  }

  /** The source object is under its new name if its rename took effect and under
      its old name otherwise, and under no other, unless the deletion took it:
      which needs a backup rename and a source rename that both failed silently. */
  lemma SourceIsKeptIff(t: Tree, r: Job, c: Course, error: Errno, renamed: bool, h: Hush)
    requires WellFormed(t) && Sound(t, r) && (c.aside ==> |c.backup| == 2)
    requires Legal(t, r.a, r.b, r.directory, c) && Flow(r, c, error, renamed, h)
    ensures var v := Final(t, r.a, r.b, c);
      if SourceDeleted(r, c) then Gone(t, r.a, v) else OnlyAt(t, r.a, v, if c.moved then r.b else r.a)
    ensures SourceDeleted(r, c) ==> error == EOK && h.aside && h.source
  {
    SourceHome(t, r, c, error, renamed, h);
    ObjectIsKeptIff(t, r.a, r.b, r.directory, c, r.a);
  }

  /** A destination is under the backup name if it was put aside and not restored
      and under its own name otherwise, and under no other, unless the deletion
      took it; and then 0 is returned. */
  lemma DestinationIsKeptIff(t: Tree, r: Job, c: Course, error: Errno, renamed: bool, h: Hush)
    requires WellFormed(t) && Sound(t, r) && (c.aside ==> |c.backup| == 2) && r.b in t && r.a != r.b
    requires Legal(t, r.a, r.b, r.directory, c) && Flow(r, c, error, renamed, h)
    ensures var v := Final(t, r.a, r.b, c);
      if DestinationDeleted(r, c) then Gone(t, r.b, v)
      else OnlyAt(t, r.b, v, if c.aside && !c.restored then c.backup else r.b)
    ensures DestinationDeleted(r, c) ==> error == EOK
  {
    DestinationHome(t, r, c, error, renamed, h);
    ObjectIsKeptIff(t, r.a, r.b, r.directory, c, r.b);
  }

  lemma VictimHome(t: Tree, r: Job, c: Course, error: Errno, renamed: bool, h: Hush)
    requires WellFormed(t) && Sound(t, r) && (c.aside ==> |c.backup| == 2) && c.deleted
    requires Legal(t, r.a, r.b, r.directory, c) && Flow(r, c, error, renamed, h)
    ensures Victim(r, c) in t && HomeOf(Victim(r, c), r.a, r.b, c) == c.backup
  {
    if c.aside {
      DestinationHome(t, r, c, error, renamed, h);
    } else {
      BlockedCourse(t, r, c, error, renamed, h);
    }
  }

  /** No object appears, and none disappears but the one that a deletion takes. */
  lemma ObjectsAreConservedBut(t: Tree, r: Job, c: Course, error: Errno, renamed: bool, h: Hush)
    requires WellFormed(t) && Sound(t, r) && (c.aside ==> |c.backup| == 2)
    requires Legal(t, r.a, r.b, r.directory, c) && Flow(r, c, error, renamed, h)
    ensures c.deleted ==> Victim(r, c) in t && error == EOK
    ensures Ids(Final(t, r.a, r.b, c)) == if c.deleted then Ids(t) - {t[Victim(r, c)].id} else Ids(t)
  {
    if c.deleted {
      VictimHome(t, r, c, error, renamed, h);
      var k := OneObjectIsDeleted(t, r.a, r.b, r.directory, c);
      SameHome(t, r.a, r.b, r.directory, c, k, Victim(r, c));
    } else {
      IdsAreTracked(t, r.a, r.b, r.directory, c);
    }
  }

  lemma SameHome(t: Tree, a: Key, b: Key, directory: bool, c: Course, k: Key, l: Key)
    requires WellFormed(t) && Legal(t, a, b, directory, c) && k in t && l in t &&
      HomeOf(k, a, b, c) == HomeOf(l, a, b, c)
    ensures t[k].id == t[l].id
  {
    EntryIsTracked(t, a, b, directory, c, k);
    EntryIsTracked(t, a, b, directory, c, l);
  }

  // ----- When they are not

  /** A directory that is to replace the directory it is in, which was taken for
      empty: if the destination is put aside the source goes with it, and is under
      one of its two names again only if the restore takes effect. */
  lemma SourceGoesAside(t: Tree, a: Key, b: Key, directory: bool, c: Course)
    requires WellFormed(t) && a in t && b <= a && b != a && |b| >= 2 && (c.aside ==> |c.backup| == 2)
    requires Legal(t, a, b, directory, c)
    ensures !c.moved && HomeOf(a, a, b, c) == if c.aside && !c.restored then Rebase(a, b, c.backup) else a
    ensures c.aside && c.backup != b && !c.restored ==> HomeOf(a, a, b, c) != a && HomeOf(a, a, b, c) != b
  {
    PrefixExists(t, b, a);
    if c.aside && c.backup != b {
      AsideTakesSource(t, a, b, directory, c.backup);
      assert b + a[|b|..] == a;
      assert (c.backup + a[|b|..])[|c.backup|..] == a[|b|..];
    } else {
      MoveOnto(t, b);
      RebaseOnto(a, b);
    }
  }

  lemma AsideTakesSource(t: Tree, a: Key, b: Key, directory: bool, k: Key)
    requires WellFormed(t) && a in t && b <= a && b != a && b in t && |b| >= 2 && |k| == 2 && k != b
    requires CanMove(t, directory, b, k) && NotBelow(b, k)
    ensures a !in Move(t, b, k) && !(k <= a) && !(k <= b) && Rebase(a, b, k) != a && Rebase(a, b, k) != b
  {
    if k <= a {
      PrefixExists(t, k, a);
    }
    if a in Move(t, b, k) {
      var i := MoveOrigin(t, b, k, a);
    }
  }
}
