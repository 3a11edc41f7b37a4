/**
 Why a rename is refused, and with which error, when none of the calls that its
 checks make fails.
 */
module RenameRefusal {
  import opened Errors
  import opened Wrappers
  import opened Paths
  import opened PathKeys
  import opened Volume
  import opened Mounts
  import opened RenamePlan

  // ----- In the way

  /** At the destination, or below it if it is a directory. */
  predicate InTheWay(k: Key, plan: Plan) { if plan.directory then plan.B() <= k else k == plan.B() }

  /** A descriptor in use, or the current directory, is in the way. */
  predicate Occupied(plan: Plan, descriptors: seq<Descriptor>, cwd: string) {
    || (exists i :: 0 <= i < |descriptors| && descriptors[i].inUse && InTheWay(KeyOf(descriptors[i].path), plan))
    || (plan.directory && InTheWay(KeyOf(cwd), plan))
  }

  lemma PrefixIsInTheWay(plan: Plan, path: string)
    requires Canonical(path) && Canonical(plan.target) && plan.B() != []
    ensures HasPrefix(path, plan.target, plan.directory) <==> InTheWay(KeyOf(path), plan)
  {
    PrefixIsAncestry(path, plan.target);
    ExactPrefixIsEquality(path, plan.target);
  }

  /** The text tests find out whether the destination is occupied. */
  lemma OccupiedIff(plan: Plan, descriptors: seq<Descriptor>, cwd: string)
    requires PathsOk(descriptors, cwd) && Canonical(plan.target) && plan.B() != []
    ensures Unoccupied(plan, descriptors, cwd) <==> !Occupied(plan, descriptors, cwd)
  {
    PrefixIsInTheWay(plan, cwd);
    forall i | 0 <= i < |descriptors| && descriptors[i].inUse
      ensures HasPrefix(descriptors[i].path, plan.target, plan.directory) <==>
              InTheWay(KeyOf(descriptors[i].path), plan)
    {
      PrefixIsInTheWay(plan, descriptors[i].path);
    }
  }

  // ----- The errors

  /** Why a path names nothing that could be renamed. */
  function PathRefusal(cwd: string, mounted: set<Mount>, path: string): Errno {
    match Normalize(cwd, path)
    case Err(e) => e
    case Ok(text) => (match Resolve(text, mounted) case Err(e) => e case Ok(_) => EOK)
  }

  function NamesRefusal(t: Tree, cwd: string, mounted: set<Mount>, oldPath: string, newPath: string): Errno {
    if PathRefusal(cwd, mounted, oldPath) != EOK then PathRefusal(cwd, mounted, oldPath)
    else if PathRefusal(cwd, mounted, newPath) != EOK then PathRefusal(cwd, mounted, newPath)
    else
      match (Normalize(cwd, oldPath), Normalize(cwd, newPath))
      case (Ok(source), Ok(target)) =>
        var r, q := Resolve(source, mounted), Resolve(target, mounted);
        if r.Err? || q.Err? then EINVAL
        else if r.value.Local? && KeyOf(source) !in t then ENOENT
        else if !r.value.Local? || !q.value.Local? then EBUSY
        else if r.value.mount != q.value.mount then EXDEV
        else EOK
      case _ => EINVAL
  }

  function MigrationRefusal(plan: Plan, descriptors: seq<Descriptor>, cwd: string): Errno {
    if IntoItself(plan) then EINVAL else if !MigrationsFit(plan, descriptors, cwd) then ENAMETOOLONG else EOK
  }

  function DestinationRefusal(t: Tree, plan: Plan, descriptors: seq<Descriptor>, cwd: string): Errno {
    if !plan.SpellingChanged() || plan.B() !in t then EOK
    else if plan.directory && !t[plan.B()].directory then ENOTDIR
    else if !plan.directory && t[plan.B()].directory then EISDIR
    else if plan.A() != plan.B() && !Unoccupied(plan, descriptors, cwd) then EBUSY
    else EOK
  }

  function ContentsRefusal(t: Tree, plan: Plan): Errno {
    if plan.SpellingChanged() && plan.B() in t && plan.A() != plan.B() && plan.directory && HasChildren(t, plan.B())
    then ENOTEMPTY else EOK
  }

  function TargetRefusal(t: Tree, plan: Plan, descriptors: seq<Descriptor>, cwd: string): Errno {
    if DestinationRefusal(t, plan, descriptors, cwd) != EOK then DestinationRefusal(t, plan, descriptors, cwd)
    else ContentsRefusal(t, plan)
  }

  function PlanRefusal(t: Tree, plan: Plan, descriptors: seq<Descriptor>, cwd: string): Errno {
    if MigrationRefusal(plan, descriptors, cwd) != EOK then MigrationRefusal(plan, descriptors, cwd)
    else TargetRefusal(t, plan, descriptors, cwd)
  }

  /** The plan that two names make. */
  function PlanOf(t: Tree, cwd: string, mounted: set<Mount>, oldPath: string, newPath: string): Plan
    requires NamesRefusal(t, cwd, mounted, oldPath, newPath) == EOK
  {
    var source, target := Normalize(cwd, oldPath).value, Normalize(cwd, newPath).value;
    Plan(source, target, Resolve(source, mounted).value.mount, KeyOf(source) in t && t[KeyOf(source)].directory)
  }

  function Refusal(t: Tree, descriptors: seq<Descriptor>, cwd: string, mounted: set<Mount>,
                   oldPath: string, newPath: string): Errno {
    if NamesRefusal(t, cwd, mounted, oldPath, newPath) != EOK then NamesRefusal(t, cwd, mounted, oldPath, newPath)
    else PlanRefusal(t, PlanOf(t, cwd, mounted, oldPath, newPath), descriptors, cwd)
  }

  // ----- What the errors mean

  /** The two names, normalised. */
  predicate Named(cwd: string, oldPath: string, newPath: string, source: string, target: string) {
    && Normalize(cwd, oldPath) == Ok(source) && Normalize(cwd, newPath) == Ok(target)
    && Canonical(source) && Canonical(target)
  }

  /** This name is on this mount, at this depth. */
  predicate Mounted(k: Key, mounted: set<Mount>, m: Mount) { m in mounted && k != [] && k[0] == MountKey(m) }

  lemma MountedResolves(path: string, mounted: set<Mount>, m: Mount)
    requires Canonical(path) && Mounted(KeyOf(path), mounted, m)
    ensures Resolve(path, mounted) == Ok(if |KeyOf(path)| == 1 then MountRoot(m) else Local(m))
  {
    MountKeys(Flash);
    MountKeys(m);
    PrefixIsAncestry(path, MountPath(Flash));
    PrefixIsAncestry(path, MountPath(m));
    ExactPrefixIsEquality(path, MountPath(m));
    RenderRoundTrip([]);
    var k := KeyOf(path);
    assert [MountKey(m)] <= k;
    assert |k| == 1 ==> k == [MountKey(m)];
    assert MountKey(Flash) != MountKey(Sd);
  }

  /** A missing source is ENOENT, a root or a mount EBUSY, a rename across mounts EXDEV. */
  lemma NamesAreRefused(t: Tree, cwd: string, oldPath: string, newPath: string, source: string, target: string,
                        mounted: set<Mount>, m: Mount, n: Mount)
    requires Named(cwd, oldPath, newPath, source, target)
    requires Mounted(KeyOf(source), mounted, m) && Mounted(KeyOf(target), mounted, n)
    ensures NamesRefusal(t, cwd, mounted, oldPath, newPath) ==
      if |KeyOf(source)| >= 2 && KeyOf(source) !in t then ENOENT
      else if |KeyOf(source)| == 1 || |KeyOf(target)| == 1 then EBUSY
      else if m != n then EXDEV
      else EOK
  {
    MountedResolves(source, mounted, m);
    MountedResolves(target, mounted, n);
  }

  /** What is wrong with a plan, the first that applies. */
  predicate MovesIntoItself(plan: Plan) { plan.directory && plan.A() <= plan.B() && plan.A() != plan.B() }

  predicate DirectoryOntoFile(t: Tree, plan: Plan) {
    plan.source != plan.target && plan.directory && plan.B() in t && !t[plan.B()].directory
  }

  predicate FileOntoDirectory(t: Tree, plan: Plan) {
    plan.source != plan.target && !plan.directory && plan.B() in t && t[plan.B()].directory
  }

  predicate OntoAnother(t: Tree, plan: Plan) { plan.B() in t && plan.A() != plan.B() }

  /** EINVAL for a directory that would move into itself, ENAMETOOLONG for a path that
      would not fit its buffer, ENOTDIR and EISDIR for a destination of the other kind,
      EBUSY for one that is occupied and ENOTEMPTY for one that is not empty. */
  lemma PlansAreRefused(t: Tree, plan: Plan, descriptors: seq<Descriptor>, cwd: string)
    requires ProperNames(plan) && PathsOk(descriptors, cwd)
    ensures PlanRefusal(t, plan, descriptors, cwd) ==
      if MovesIntoItself(plan) then EINVAL
      else if !MigrationsFit(plan, descriptors, cwd) then ENAMETOOLONG
      else if DirectoryOntoFile(t, plan) then ENOTDIR
      else if FileOntoDirectory(t, plan) then EISDIR
      else if OntoAnother(t, plan) && Occupied(plan, descriptors, cwd) then EBUSY
      else if OntoAnother(t, plan) && plan.directory && HasChildren(t, plan.B()) then ENOTEMPTY
      else EOK
  {
    NotIntoItself(plan);
    OccupiedIff(plan, descriptors, cwd);
  }
}
