/**
 The five states in which a replace-existing rename can leave the volume, and
 what each of them keeps.  a is the key of the source, b of the destination.
 */
module RenameOutcome {
  import opened Paths
  import opened PathKeys
  import opened Volume

  datatype Outcome =
    | Untouched                        // nothing was renamed, or everything was restored
    | Moved                            // the source was renamed onto a free name or itself
    | Replaced(backup: Key)            // the source was renamed, the old destination deleted
    | MovedLeaving(backup: Key)        // the source was renamed, the old destination kept as backup
    | Stranded(backup: Key)            // only the destination was renamed, to its backup name

  function Effect(t: Tree, a: Key, b: Key, o: Outcome): Tree {
    match o
    case Untouched => t
    case Moved => Move(t, a, b)
    case Replaced(k) => Move(Move(t, b, k), a, b) - {k}
    case MovedLeaving(k) => Move(Move(t, b, k), a, b)
    case Stranded(k) => Move(t, b, k)
  }

  /** The destination b may be put aside under the backup name k. */
  ghost predicate CanSetAside(t: Tree, a: Key, b: Key, directory: bool, k: Key) {
    && a in t && t[a].directory == directory && b in t && t[b].directory == directory && a != b && !(a <= b)
    && !HasChildren(t, b) && k !in t && |k| == 2 && |a| >= 2 && |b| >= 2
  }

  ghost predicate Possible(t: Tree, a: Key, b: Key, directory: bool, o: Outcome) {
    match o
    case Untouched => true
    case Moved => CanMove(t, directory, a, b) && (a == b || !(a <= b))
    case Stranded(k) => CanSetAside(t, a, b, directory, k)
    case MovedLeaving(k) => CanSetAside(t, a, b, directory, k)
    case Replaced(k) => CanSetAside(t, a, b, directory, k)
  }

  function Backup(o: Outcome): Key
    requires o.Replaced? || o.MovedLeaving? || o.Stranded?
  {
    o.backup
  }

  lemma NotBelowChildless(t: Tree, b: Key, j: Key)
    requires j in t && !HasChildren(t, b) && j != b
    ensures !(b <= j)
  {
  }

  /** Putting the destination aside moves exactly its entry. */
  lemma SetAside(t: Tree, a: Key, b: Key, directory: bool, k: Key)
    requires WellFormed(t) && CanSetAside(t, a, b, directory, k)
    ensures var u := Move(t, b, k);
      && WellFormed(u) && b !in u && k in u && u[k] == t[b] && !(b <= k) && !(k <= b)
      && (forall j :: j in t && j != b ==> j in u && u[j] == t[j])
      && (forall j :: j in u && j != k ==> j in t && j != b)
  {
    var u := Move(t, b, k);
    assert b <= k ==> b == k;
    if k <= b {
      PrefixExists(t, k, b);
    }
    assert HasParent(t, k);
    MoveIsWellFormedIff(t, b, k, directory);
    forall j | j in t && j != b
      ensures j in u && u[j] == t[j]
    {
      NotBelowChildless(t, b, j);
      MoveKeeps(t, b, k, j);
    }
    MoveKeeps(t, b, k, b);
    assert b[|b|..] == [] && k + [] == k;
    forall j | j in u && j != k
      ensures j in t && j != b
    {
      var i := MoveOrigin(t, b, k, j);
      if b <= i {
        NotSelf(t, b, i);
      }
    }
    if b in u {
      var i := MoveOrigin(t, b, k, b);
    }
  }

  lemma NotSelf(t: Tree, b: Key, i: Key)
    requires i in t && b <= i && !HasChildren(t, b)
    ensures i == b && i[|b|..] == []
  {
  }

  /** With the destination aside, the source can be renamed onto its name. */
  lemma SetAsideFreesName(t: Tree, a: Key, b: Key, directory: bool, k: Key)
    requires WellFormed(t) && CanSetAside(t, a, b, directory, k)
    ensures CanMove(Move(t, b, k), directory, a, b) && WellFormed(Move(Move(t, b, k), a, b))
  {
    SetAside(t, a, b, directory, k);
    assert HasParent(t, b);
    MoveIsWellFormedIff(Move(t, b, k), a, b, directory);
  }

  lemma AsideIsLeaf(t: Tree, a: Key, b: Key, directory: bool, k: Key)
    requires WellFormed(t) && CanSetAside(t, a, b, directory, k)
    ensures var u := Move(t, b, k); k in u && u[k] == t[b] && !HasChildren(u, k)
  {
    SetAside(t, a, b, directory, k);
    forall j | j in Move(t, b, k) && k <= j
      ensures j == k
    {
      if j != k {
        PrefixExists(t, k, j);
      }
    }
  }

  /** In the final tree the backup is still a childless entry. */
  lemma BackupIsLeaf(t: Tree, a: Key, b: Key, directory: bool, k: Key)
    requires WellFormed(t) && CanSetAside(t, a, b, directory, k)
    ensures var v := Move(Move(t, b, k), a, b); k in v && v[k] == t[b] && !HasChildren(v, k)
  {
    var u := Move(t, b, k);
    var v := Move(u, a, b);
    SetAside(t, a, b, directory, k);
    assert a <= k ==> a == k;
    MoveKeeps(u, a, b, k);
    forall j | j in v && k <= j
      ensures j == k
    {
      var i := MoveOrigin(u, a, b, j);
      if !(a <= i) && i != k {
        PrefixExists(t, k, i);
      }
    }
  }

  /** Every outcome leaves a well-formed tree. */
  lemma OutcomeIsWellFormed(t: Tree, a: Key, b: Key, directory: bool, o: Outcome)
    requires WellFormed(t) && Possible(t, a, b, directory, o)
    ensures WellFormed(Effect(t, a, b, o))
  {
    match o
    case Untouched =>
    case Moved => MoveIsWellFormedIff(t, a, b, directory);
    case Stranded(k) => SetAside(t, a, b, directory, k);
    case MovedLeaving(k) => SetAsideFreesName(t, a, b, directory, k);
    case Replaced(k) =>
      SetAsideFreesName(t, a, b, directory, k);
      BackupIsLeaf(t, a, b, directory, k);
      DeleteIsWellFormed(Move(Move(t, b, k), a, b), k);
  }

  predicate SourceMoves(o: Outcome) { o.Moved? || o.Replaced? || o.MovedLeaving? }

  lemma SourceIsHome(t: Tree, a: Key, b: Key, directory: bool, o: Outcome)
    requires WellFormed(t) && a in t && |a| >= 2 && |b| >= 2 && Possible(t, a, b, directory, o)
    ensures var v := Effect(t, a, b, o); var home := if SourceMoves(o) then b else a;
      home in v && v[home] == t[a]
  {
    assert a[|a|..] == [] && b + [] == b;
    match o
    case Untouched =>
    case Moved => MoveKeeps(t, a, b, a);
    case Stranded(k) => SetAside(t, a, b, directory, k);
    case MovedLeaving(k) =>
      SetAside(t, a, b, directory, k);
      MoveKeeps(Move(t, b, k), a, b, a);
    case Replaced(k) =>
      SetAside(t, a, b, directory, k);
      MoveKeeps(Move(t, b, k), a, b, a);
  }

  /** The source object is under its new name if the source was renamed and under
      its old name otherwise; by well-formedness it has no other name. */
  lemma SourceHasOneName(t: Tree, a: Key, b: Key, directory: bool, o: Outcome)
    requires WellFormed(t) && a in t && |a| >= 2 && |b| >= 2 && Possible(t, a, b, directory, o)
    ensures var v := Effect(t, a, b, o); var home := if SourceMoves(o) then b else a;
      && home in v && v[home] == t[a]
      && (forall j :: j in v && v[j].id == t[a].id ==> j == home)
  {
    SourceIsHome(t, a, b, directory, o);
    OutcomeIsWellFormed(t, a, b, directory, o);
    NameOfObject(Effect(t, a, b, o), if SourceMoves(o) then b else a);
  }

  /** A destination that existed is under its own name or a name that was free
      before, unless the outcome is Replaced, where it is gone. */
  lemma DestinationIsKept(t: Tree, a: Key, b: Key, directory: bool, o: Outcome)
    requires WellFormed(t) && a in t && b in t && a != b && |a| >= 2 && |b| >= 2 && Possible(t, a, b, directory, o)
    ensures var v := Effect(t, a, b, o);
      match o
      case Untouched => b in v && v[b] == t[b]
      case Moved => false
      case Replaced(k) => forall j :: j in v ==> v[j].id != t[b].id
      case _ => o.backup !in t && o.backup in v && v[o.backup] == t[b]
  {
    match o
    case Untouched =>
    case Moved =>
    case Stranded(k) => SetAside(t, a, b, directory, k);
    case MovedLeaving(k) => BackupIsLeaf(t, a, b, directory, k);
    case Replaced(k) => ReplacedIsGone(t, a, b, directory, k);
  }

  lemma ReplacedIsGone(t: Tree, a: Key, b: Key, directory: bool, k: Key)
    requires WellFormed(t) && CanSetAside(t, a, b, directory, k)
    ensures var v := Effect(t, a, b, Replaced(k)); forall j :: j in v ==> v[j].id != t[b].id
  {
    var u := Move(Move(t, b, k), a, b);
    BackupIsLeaf(t, a, b, directory, k);
    SetAsideFreesName(t, a, b, directory, k);
    NameOfObject(u, k);
  }

  /** The name an entry has after the rename. */
  function NewName(j: Key, a: Key, b: Key, o: Outcome): Key {
    if SourceMoves(o) then Rebase(j, a, b) else j
  }

  /** Every entry other than a replaced destination survives, under the name that
      path migration computes. */
  lemma EntryIsKept(t: Tree, a: Key, b: Key, directory: bool, o: Outcome, j: Key)
    requires WellFormed(t) && a in t && |a| >= 2 && |b| >= 2 && Possible(t, a, b, directory, o)
    requires j in t && (o.Replaced? || o.MovedLeaving? || o.Stranded? ==> j != b)
    ensures var v := Effect(t, a, b, o); NewName(j, a, b, o) in v && v[NewName(j, a, b, o)] == t[j]
  {
    match o
    case Untouched =>
    case Moved => MoveKeeps(t, a, b, j);
    case Stranded(k) => SetAside(t, a, b, directory, k);
    case MovedLeaving(k) =>
      SetAside(t, a, b, directory, k);
      MoveKeeps(Move(t, b, k), a, b, j);
    case Replaced(k) =>
      SetAside(t, a, b, directory, k);
      MoveKeeps(Move(t, b, k), a, b, j);
      if Rebase(j, a, b) == k {
        BackupIsLeaf(t, a, b, directory, k);
      }
  }

  function Ids(t: Tree): set<nat> { set k | k in t :: t[k].id }

  lemma {:induction false} IdsOfMove(t: Tree, a: Key, b: Key)
    requires WellFormed(t) && |b| >= 2 && (a == b || b !in t)
    ensures Ids(Move(t, a, b)) == Ids(t)
  {
    var v := Move(t, a, b);
    forall x | x in Ids(t)
      ensures x in Ids(v)
    {
      var k :| k in t && t[k].id == x;
      MoveKeeps(t, a, b, k);
    }
    forall x | x in Ids(v)
      ensures x in Ids(t)
    {
      var j :| j in v && v[j].id == x;
      var k := MoveOrigin(t, a, b, j);
    }
  }

  /** Conservation: no object appears, and the only object that can disappear is
      the replaced destination. */
  lemma ObjectsAreConserved(t: Tree, a: Key, b: Key, directory: bool, o: Outcome)
    requires WellFormed(t) && a in t && |a| >= 2 && |b| >= 2 && Possible(t, a, b, directory, o)
    ensures Ids(Effect(t, a, b, o)) == if o.Replaced? then Ids(t) - {t[b].id} else Ids(t)
  {
    match o
    case Untouched =>
    case Moved => IdsOfMove(t, a, b);
    case Stranded(k) => IdsOfMove(t, b, k);
    case MovedLeaving(k) =>
      IdsOfMove(t, b, k);
      SetAside(t, a, b, directory, k);
      IdsOfMove(Move(t, b, k), a, b);
    case Replaced(k) =>
      IdsOfMove(t, b, k);
      SetAside(t, a, b, directory, k);
      IdsOfMove(Move(t, b, k), a, b);
      BackupIsLeaf(t, a, b, directory, k);
      SetAsideFreesName(t, a, b, directory, k);
      IdsOfDelete(Move(Move(t, b, k), a, b), k);
  }

  lemma IdsOfDelete(t: Tree, k: Key)
    requires WellFormed(t) && k in t
    ensures Ids(t - {k}) == Ids(t) - {t[k].id}
  {
    NameOfObject(t, k);
    forall x | x in Ids(t) && x != t[k].id
      ensures x in Ids(t - {k})
    {
      var j :| j in t && t[j].id == x;
      assert j in t - {k};
    }
  }

  /** Restoring the destination after a failed source rename undoes everything. */
  lemma RestoreUndoes(t: Tree, a: Key, b: Key, directory: bool, k: Key)
    requires WellFormed(t) && CanSetAside(t, a, b, directory, k)
    ensures Move(Move(t, b, k), k, b) == t
  {
    SetAside(t, a, b, directory, k);
    MoveBack(t, b, k);
  }
}
