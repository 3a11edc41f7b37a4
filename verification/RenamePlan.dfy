/**
 What a rename has been asked to do, what its checks establish, and what becomes
 of the paths of descriptors and of the current directory.
 */
module RenamePlan {
  import opened Errors
  import opened Wrappers
  import opened Paths
  import opened PathKeys
  import opened Volume
  import opened RenameOutcome
  import opened Mounts

  datatype Descriptor = Descriptor(inUse: bool, path: string, open: bool)

  /** Both names of a rename, canonical and on one volume, and what the source is. */
  datatype Plan = Plan(source: string, target: string, mount: Mount, directory: bool) {
    function A(): Key { KeyOf(source) }
    function B(): Key { KeyOf(target) }
    predicate SpellingChanged() { source != target }
  }

  /** Both names are names of entries of the plan's volume. */
  predicate ProperNames(plan: Plan) {
    && Canonical(plan.source) && Canonical(plan.target)
    && |plan.source| < MAXIMUM_PATH && |plan.target| < MAXIMUM_PATH
    && |plan.A()| >= 2 && |plan.B()| >= 2
    && plan.A()[0] == MountKey(plan.mount) == plan.B()[0]
  }

  /** The plan is right about the source. */
  predicate PlanOk(t: Tree, plan: Plan) {
    ProperNames(plan) && plan.A() in t && t[plan.A()].directory == plan.directory
  }

  /** Both names resolve to entries of the plan's volume. */
  predicate OnVolume(plan: Plan, mounted: set<Mount>) {
    && plan.mount in mounted
    && Resolve(plan.source, mounted) == Ok(Local(plan.mount)) && Resolve(plan.target, mounted) == Ok(Local(plan.mount))
  }

  /** Every path that will migrate still fits its buffer. */
  predicate MigrationsFit(plan: Plan, descriptors: seq<Descriptor>, cwd: string) {
    && (forall i :: 0 <= i < |descriptors| && descriptors[i].inUse ==>
          |Migrate(descriptors[i].path, plan.source, plan.target, plan.directory)| < MAXIMUM_PATH)
    && (plan.directory ==> |Migrate(cwd, plan.source, plan.target, true)| < MAXIMUM_PATH)
  }

  /** Nobody stands on the destination that is to be replaced. */
  predicate Unoccupied(plan: Plan, descriptors: seq<Descriptor>, cwd: string) {
    && (forall i :: 0 <= i < |descriptors| && descriptors[i].inUse ==>
          !HasPrefix(descriptors[i].path, plan.target, plan.directory))
    && (plan.directory ==> !HasPrefix(cwd, plan.target, true))
  }

  predicate IntoItself(plan: Plan) {
    plan.directory && !HasPrefix(plan.source, plan.target, false) && HasPrefix(plan.target, plan.source, true)
  }

  lemma ChildMakesDirectory(t: Tree, b: Key, j: Key)
    requires WellFormed(t) && j in t && b <= j && j != b && |b| >= 2
    ensures b in t && t[b].directory
  {
    AncestorsExist(t, j, |b|);
    assert j[..|b|] == b;
  }

  lemma FileHasNoChildren(t: Tree, b: Key)
    requires WellFormed(t) && b in t && !t[b].directory
    ensures !HasChildren(t, b)
  {
    assert HasParent(t, b);
    if HasChildren(t, b) {
      var j :| j in t && b <= j && j != b;
      ChildMakesDirectory(t, b, j);
    }
  }

  lemma FileIsNotAbove(t: Tree, a: Key, b: Key)
    requires WellFormed(t) && a in t && !t[a].directory && a != b && HasParent(t, b)
    ensures !(a <= b)
  {
    assert HasParent(t, a);
    if a <= b && a != Parent(b) {
      assert a <= Parent(b);
      ChildMakesDirectory(t, a, Parent(b));
    }
  }

  ghost predicate NamesDirectory(t: Tree, k: Key) {
    |k| < 2 || (k in t && t[k].directory)
  }

  lemma NotIntoItself(plan: Plan)
    requires Canonical(plan.source) && Canonical(plan.target) && plan.A() != [] && plan.B() != []
    ensures IntoItself(plan) <==> plan.directory && plan.A() != plan.B() && plan.A() <= plan.B()
  {
    ExactPrefixIsEquality(plan.source, plan.target);
    PrefixIsAncestry(plan.target, plan.source);
  }

  // ----- What descriptors and the current directory name

  datatype Object = Root | MountDirectory(name: Name) | Node(id: nat)

  function ObjectAt(t: Tree, k: Key): Option<Object> {
    if k == [] then Some(Root)
    else if |k| == 1 then Some(MountDirectory(k[0]))
    else if k in t then Some(Node(t[k].id))
    else None
  }

  /** Whether a path is touched by the renaming of the source. */
  function Followed(path: string, plan: Plan, o: Outcome, descendants: bool): string {
    if SourceMoves(o) then Migrate(path, plan.source, plan.target, descendants) else path
  }

  predicate UsesBackup(o: Outcome) { o.Replaced? || o.MovedLeaving? || o.Stranded? }

  /** The migrated path of an existing object has the key the object moved to. */
  lemma FollowedKey(t: Tree, plan: Plan, o: Outcome, path: string)
    requires WellFormed(t) && PlanOk(t, plan) && Canonical(path)
    requires |KeyOf(path)| < 2 || KeyOf(path) in t
    ensures Canonical(Followed(path, plan, o, plan.directory))
    ensures KeyOf(Followed(path, plan, o, plan.directory)) == NewName(KeyOf(path), plan.A(), plan.B(), o)
  {
    var j := KeyOf(path);
    if plan.directory {
      MigrateIsRebase(path, plan.source, plan.target);
    } else {
      MigrateExactIsRebase(path, plan.source, plan.target);
      if plan.A() <= j && j != plan.A() {
        ChildMakesDirectory(t, plan.A(), j);
      } else if j == plan.A() {
        assert j[|j|..] == [] && plan.B() + [] == plan.B();
      }
    }
  }

  /** An existing object that is not a replaced destination is still named, by
      the followed path. */
  lemma FollowedObject(t: Tree, plan: Plan, o: Outcome, path: string)
    requires WellFormed(t) && PlanOk(t, plan) && Canonical(path)
    requires Possible(t, plan.A(), plan.B(), plan.directory, o)
    requires ObjectAt(t, KeyOf(path)).Some? && (UsesBackup(o) ==> KeyOf(path) != plan.B())
    ensures ObjectAt(Effect(t, plan.A(), plan.B(), o), KeyOf(Followed(path, plan, o, plan.directory))) ==
            ObjectAt(t, KeyOf(path))
  {
    var j := KeyOf(path);
    FollowedKey(t, plan, o, path);
    if |j| >= 2 {
      EntryIsKept(t, plan.A(), plan.B(), plan.directory, o, j);
      OutcomeIsWellFormed(t, plan.A(), plan.B(), plan.directory, o);
      assert HasParent(Effect(t, plan.A(), plan.B(), o), NewName(j, plan.A(), plan.B(), o));
    }
  }

  lemma UnoccupiedKey(plan: Plan, path: string)
    requires Canonical(path) && Canonical(plan.target) && plan.B() != [] &&
      !HasPrefix(path, plan.target, plan.directory)
    ensures KeyOf(path) != plan.B()
  {
    PrefixIsAncestry(path, plan.target);
    ExactPrefixIsEquality(path, plan.target);
  }

  function MigratedDescriptor(d: Descriptor, plan: Plan): Descriptor {
    if d.inUse then d.(path := Migrate(d.path, plan.source, plan.target, plan.directory)) else d
  }

  /** The outcome fits the plan, and its checks protect the open paths. */
  ghost predicate Describes(plan: Plan, o: Outcome, t: Tree, descriptors: seq<Descriptor>, cwd: string) {
    && PlanOk(t, plan) && Possible(t, plan.A(), plan.B(), plan.directory, o)
    && (UsesBackup(o) ==> Unoccupied(plan, descriptors, cwd))
  }

  /** The paths were migrated if `renamed` and left alone otherwise. */
  predicate Follows(plan: Plan, renamed: bool, before: seq<Descriptor>, after: seq<Descriptor>, cwd: string,
                    cwd': string) {
    if renamed then
      && |after| == |before|
      && (forall i :: 0 <= i < |before| ==> after[i] == MigratedDescriptor(before[i], plan))
      && cwd' == (if plan.directory then Migrate(cwd, plan.source, plan.target, true) else cwd)
    else
      after == before && cwd' == cwd
  }

  predicate PathsOk(descriptors: seq<Descriptor>, cwd: string) {
    && Canonical(cwd) && |cwd| < MAXIMUM_PATH
    && (forall i :: 0 <= i < |descriptors| && descriptors[i].inUse ==>
          Canonical(descriptors[i].path) && |descriptors[i].path| < MAXIMUM_PATH)
  }

  /** Every descriptor that named an object names the same object. */
  predicate NamesKept(t: Tree, t': Tree, before: seq<Descriptor>, after: seq<Descriptor>) {
    && |after| == |before|
    && (forall i :: 0 <= i < |before| && before[i].inUse && ObjectAt(t, KeyOf(before[i].path)).Some? ==>
          after[i].inUse && ObjectAt(t', KeyOf(after[i].path)) == ObjectAt(t, KeyOf(before[i].path)))
  }

  lemma MigrationIsCanonical(plan: Plan, path: string, descendants: bool)
    requires Canonical(plan.source) && Canonical(plan.target) && plan.A() != [] && plan.B() != [] && Canonical(path)
    ensures Canonical(Migrate(path, plan.source, plan.target, descendants))
  {
    if descendants {
      MigrateIsRebase(path, plan.source, plan.target);
    } else {
      MigrateExactIsRebase(path, plan.source, plan.target);
    }
  }

  /** Migration overflows no buffer and keeps every path canonical. */
  lemma PathsStayValid(plan: Plan, renamed: bool, before: seq<Descriptor>, after: seq<Descriptor>, cwd: string,
                       cwd': string)
    requires ProperNames(plan) && MigrationsFit(plan, before, cwd) && PathsOk(before, cwd)
    requires Follows(plan, renamed, before, after, cwd, cwd')
    ensures PathsOk(after, cwd')
  {
    if renamed {
      forall i | 0 <= i < |after| && after[i].inUse
        ensures Canonical(after[i].path) && |after[i].path| < MAXIMUM_PATH
      {
        assert after[i] == MigratedDescriptor(before[i], plan);
        MigrationIsCanonical(plan, before[i].path, plan.directory);
      }
      MigrationIsCanonical(plan, cwd, true);
    }
  }

  lemma DescriptorsKeepObjects(plan: Plan, o: Outcome, t: Tree, before: seq<Descriptor>, after: seq<Descriptor>,
                               cwd: string, cwd': string)
    requires WellFormed(t) && Describes(plan, o, t, before, cwd) && PathsOk(before, cwd)
    requires Follows(plan, SourceMoves(o), before, after, cwd, cwd')
    ensures NamesKept(t, Effect(t, plan.A(), plan.B(), o), before, after)
  {
    forall i | 0 <= i < |before| && before[i].inUse && ObjectAt(t, KeyOf(before[i].path)).Some?
      ensures after[i].inUse
      ensures ObjectAt(Effect(t, plan.A(), plan.B(), o), KeyOf(after[i].path)) == ObjectAt(t, KeyOf(before[i].path))
    {
      if UsesBackup(o) {
        UnoccupiedKey(plan, before[i].path);
      }
      FollowedObject(t, plan, o, before[i].path);
      assert SourceMoves(o) ==> after[i] == MigratedDescriptor(before[i], plan);
    }
  }

  lemma DirectoryKeepsObject(plan: Plan, o: Outcome, t: Tree, before: seq<Descriptor>, after: seq<Descriptor>,
                             cwd: string, cwd': string)
    requires WellFormed(t) && Describes(plan, o, t, before, cwd) && PathsOk(before, cwd)
    requires Follows(plan, SourceMoves(o), before, after, cwd, cwd')
    ensures NamesDirectory(t, KeyOf(cwd)) ==>
      ObjectAt(Effect(t, plan.A(), plan.B(), o), KeyOf(cwd')) == ObjectAt(t, KeyOf(cwd))
  {
    if NamesDirectory(t, KeyOf(cwd)) {
      if UsesBackup(o) && plan.directory {
        UnoccupiedKey(plan, cwd);
      }
      FollowedObject(t, plan, o, cwd);
      if !plan.directory {
        ExactPrefixIsEquality(cwd, plan.source);
      }
    }
  }
}
